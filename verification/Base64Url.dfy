/** Unpadded base64url, the alphabet of section 5 of RFC 4648, and the two tests of a canonical
    64-byte signature: the tail-bit test of the uplink authenticator, and the decode and re-encode
    comparison of the session helper. */
module Base64Url {

  const ALPHABET: string :=
    "ABCDEFGHIJKLMNOPQRSTUVWXYZ" + "abcdefghijklmnopqrstuvwxyz" + "0123456789" + "-_"

  type Sextet = bv6
  type Octet = bv8

  // ---------- characters and sextets ----------

  /** The character class of the signature pattern. */
  predicate InAlphabet(c: char) {
    'A' <= c <= 'Z' || 'a' <= c <= 'z' || '0' <= c <= '9' || c == '_' || c == '-'
  }

  /** The position of `c` in the alphabet, or -1. */
  function IndexOf(c: char): (i: int)
    ensures -1 <= i < 64
    ensures InAlphabet(c) <==> i >= 0
  {
    if 'A' <= c <= 'Z' then c as int - 'A' as int
    else if 'a' <= c <= 'z' then c as int - 'a' as int + 26
    else if '0' <= c <= '9' then c as int - '0' as int + 52
    else if c == '-' then 62
    else if c == '_' then 63
    else -1
  }

  function CharOf(x: Sextet): (c: char)
    ensures InAlphabet(c) && IndexOf(c) == x as int
  {
    var i := x as int;
    if i < 26 then ('A' as int + i) as char
    else if i < 52 then ('a' as int + i - 26) as char
    else if i < 62 then ('0' as int + i - 52) as char
    else if i == 62 then '-'
    else '_'
  }

  /** `IndexOf` is the index in the alphabet, where no character is repeated. */
  lemma IndexOfIsAlphabetIndex(c: char, x: Sextet)
    ensures |ALPHABET| == 64 && ALPHABET[x as int] == CharOf(x)
    ensures IndexOf(c) == x as int <==> c == ALPHABET[x as int]
  {
    var i := x as int;
    if i < 26 {
      assert ALPHABET[i] == "ABCDEFGHIJKLMNOPQRSTUVWXYZ"[i];
    } else if i < 52 {
      assert ALPHABET[i] == "abcdefghijklmnopqrstuvwxyz"[i - 26];
    } else if i < 62 {
      assert ALPHABET[i] == "0123456789"[i - 52];
    }
  }

  function SextetOf(c: char): (x: Sextet)
    requires InAlphabet(c)
    ensures x as int == IndexOf(c)
  {
    IndexOf(c) as bv6
  }

  lemma CharOfSextetOf(c: char)
    requires InAlphabet(c)
    ensures CharOf(SextetOf(c)) == c
  {
    var i := IndexOf(c);
    assert SextetOf(c) as int == i;
    if i < 26 {
      assert c as int == 'A' as int + i;
    } else if i < 52 {
      assert c as int == 'a' as int + i - 26;
    } else if i < 62 {
      assert c as int == '0' as int + i - 52;
    }
  }

  lemma SextetOfCharOf(x: Sextet)
    ensures SextetOf(CharOf(x)) == x
  {
    assert (x as int) as bv6 == x;
  }

  predicate OverAlphabet(s: string) {
    forall c <- s :: InAlphabet(c)
  }

  function ToSextets(s: string): (r: seq<Sextet>)
    requires OverAlphabet(s)
    ensures |r| == |s|
    ensures forall i: nat | i < |s| :: r[i] == SextetOf(s[i])
  {
    seq(|s|, i requires 0 <= i < |s| => SextetOf(s[i]))
  }

  function ToText(s: seq<Sextet>): (r: string)
    ensures |r| == |s| && OverAlphabet(r)
    ensures forall i: nat | i < |s| :: r[i] == CharOf(s[i])
  {
    seq(|s|, i requires 0 <= i < |s| => CharOf(s[i]))
  }

  lemma TextOfSextets(s: string)
    requires OverAlphabet(s)
    ensures ToText(ToSextets(s)) == s
  {
    forall i: nat | i < |s| ensures ToText(ToSextets(s))[i] == s[i] {
      CharOfSextetOf(s[i]);
    }
  }

  lemma SextetsOfText(s: seq<Sextet>)
    ensures ToSextets(ToText(s)) == s
  {
    forall i: nat | i < |s| ensures ToSextets(ToText(s))[i] == s[i] {
      SextetOfCharOf(s[i]);
    }
  }

  // ---------- groups of three octets and four sextets ----------

  function Octet0(x: Sextet, y: Sextet): Octet { (x as bv8 << 2) | (y as bv8 >> 4) }
  function Octet1(y: Sextet, z: Sextet): Octet { (y as bv8 << 4) | (z as bv8 >> 2) }
  function Octet2(z: Sextet, w: Sextet): Octet { (z as bv8 << 6) | (w as bv8) }

  function Sextet0(a: Octet): Sextet { (a >> 2) as bv6 }
  function Sextet1(a: Octet, b: Octet): Sextet { ((a & 3) << 4) as bv6 | (b >> 4) as bv6 }
  function Sextet2(b: Octet, c: Octet): Sextet { ((b & 15) << 2) as bv6 | (c >> 6) as bv6 }
  function Sextet3(c: Octet): Sextet { (c & 63) as bv6 }

  lemma SextetGroup(x: Sextet, y: Sextet, z: Sextet, w: Sextet)
    ensures Sextet0(Octet0(x, y)) == x
    ensures Sextet1(Octet0(x, y), Octet1(y, z)) == y
    ensures Sextet2(Octet1(y, z), Octet2(z, w)) == z
    ensures Sextet3(Octet2(z, w)) == w
    ensures Sextet1(Octet0(x, y), 0) == y <==> y & 15 == 0
    ensures Sextet2(Octet1(y, z), 0) == z <==> z & 3 == 0
  {
  }

  lemma OctetGroup(a: Octet, b: Octet, c: Octet)
    ensures Octet0(Sextet0(a), Sextet1(a, b)) == a
    ensures Octet1(Sextet1(a, b), Sextet2(b, c)) == b
    ensures Octet2(Sextet2(b, c), Sextet3(c)) == c
    ensures Sextet1(a, 0) & 15 == 0
    ensures Sextet2(b, 0) & 3 == 0
  {
  }

  /** Node's decoder: whole groups, then a tail whose spare low bits are dropped. */
  function DecodeSextets(s: seq<Sextet>): (r: seq<Octet>)
    ensures |r| == |s| * 6 / 8
  {
    if |s| < 2 then []
    else if |s| == 2 then [Octet0(s[0], s[1])]
    else if |s| == 3 then [Octet0(s[0], s[1]), Octet1(s[1], s[2])]
    else [Octet0(s[0], s[1]), Octet1(s[1], s[2]), Octet2(s[2], s[3])] + DecodeSextets(s[4..])
  }

  function EncodeOctets(b: seq<Octet>): (r: seq<Sextet>)
    ensures |r| == (|b| * 8 + 5) / 6
  {
    if |b| == 0 then []
    else if |b| == 1 then [Sextet0(b[0]), Sextet1(b[0], 0)]
    else if |b| == 2 then [Sextet0(b[0]), Sextet1(b[0], b[1]), Sextet2(b[1], 0)]
    else [Sextet0(b[0]), Sextet1(b[0], b[1]), Sextet2(b[1], b[2]), Sextet3(b[2])] + EncodeOctets(b[3..])
  }

  function Decode(s: string): (r: seq<Octet>)
    requires OverAlphabet(s)
    ensures |r| == |s| * 6 / 8
  {
    DecodeSextets(ToSextets(s))
  }

  function Encode(b: seq<Octet>): (r: string)
    ensures |r| == (|b| * 8 + 5) / 6 && OverAlphabet(r)
  {
    ToText(EncodeOctets(b))
  }

  /** The bits of the last sextet that no octet takes up are zero. */
  predicate SpareBitsZero(s: seq<Sextet>) {
    match |s| % 4
    case 0 => true
    case 1 => false
    case 2 => s[|s| - 1] & 15 == 0
    case _ => s[|s| - 1] & 3 == 0
  }

  lemma DecodeGroup(x: Sextet, y: Sextet, z: Sextet, w: Sextet, rest: seq<Sextet>)
    ensures DecodeSextets([x, y, z, w] + rest)
      == [Octet0(x, y), Octet1(y, z), Octet2(z, w)] + DecodeSextets(rest)
  {
    assert ([x, y, z, w] + rest)[4..] == rest;
  }

  lemma SpareBitsGroup(head: seq<Sextet>, rest: seq<Sextet>)
    requires |head| == 4
    ensures SpareBitsZero(head + rest) <==> SpareBitsZero(rest)
  {
    assert (|head + rest|) % 4 == |rest| % 4;
    if rest != [] {
      assert (head + rest)[|head + rest| - 1] == rest[|rest| - 1];
    }
  }

  lemma EncodeGroup(a: Octet, b: Octet, c: Octet, rest: seq<Octet>)
    ensures EncodeOctets([a, b, c] + rest)
      == [Sextet0(a), Sextet1(a, b), Sextet2(b, c), Sextet3(c)] + EncodeOctets(rest)
  {
    assert ([a, b, c] + rest)[3..] == rest;
  }

  lemma {:induction false} DecodeUndoesEncode(b: seq<Octet>)
    ensures DecodeSextets(EncodeOctets(b)) == b && SpareBitsZero(EncodeOctets(b))
  {
    if |b| == 1 {
      OctetGroup(b[0], 0, 0);
    } else if |b| == 2 {
      OctetGroup(b[0], b[1], 0);
    } else if |b| >= 3 {
      var x, y, z, rest := b[0], b[1], b[2], b[3..];
      assert b == [x, y, z] + rest;
      EncodeGroup(x, y, z, rest);
      OctetGroup(x, y, z);
      DecodeGroup(Sextet0(x), Sextet1(x, y), Sextet2(y, z), Sextet3(z), EncodeOctets(rest));
      SpareBitsGroup([Sextet0(x), Sextet1(x, y), Sextet2(y, z), Sextet3(z)], EncodeOctets(rest));
      DecodeUndoesEncode(rest);
    }
  }

  /** Re-encoding what was decoded gives the same text back exactly when the spare bits are zero,
      for text of any length. */
  lemma {:induction false} EncodeUndoesDecode(s: seq<Sextet>)
    ensures EncodeOctets(DecodeSextets(s)) == s <==> SpareBitsZero(s)
  {
    if |s| == 2 {
      SextetGroup(s[0], s[1], 0, 0);
    } else if |s| == 3 {
      SextetGroup(s[0], s[1], s[2], 0);
    } else if |s| >= 4 {
      var x, y, z, w, rest := s[0], s[1], s[2], s[3], s[4..];
      assert s == [x, y, z, w] + rest;
      DecodeGroup(x, y, z, w, rest);
      SpareBitsGroup([x, y, z, w], rest);
      SextetGroup(x, y, z, w);
      EncodeGroup(Octet0(x, y), Octet1(y, z), Octet2(z, w), DecodeSextets(rest));
      EncodeUndoesDecode(rest);
      PrefixCancels([x, y, z, w], EncodeOctets(DecodeSextets(rest)), rest);
    }
  }

  lemma PrefixCancels<T>(head: seq<T>, a: seq<T>, b: seq<T>)
    ensures head + a == head + b <==> a == b
  {
    assert (head + a)[|head|..] == a && (head + b)[|head|..] == b;
  }

  // ---------- the same bits ----------

  /** Bit i of a sextet, the most significant one first. */
  predicate SextetBit(x: Sextet, i: nat)
    requires i < 6
  {
    x & (if i == 0 then 32 else if i == 1 then 16 else if i == 2 then 8 else if i == 3 then 4
         else if i == 4 then 2 else 1) != 0
  }

  predicate OctetBit(a: Octet, i: nat)
    requires i < 8
  {
    a & (if i == 0 then 128 else if i == 1 then 64 else if i == 2 then 32 else if i == 3 then 16
         else if i == 4 then 8 else if i == 5 then 4 else if i == 6 then 2 else 1) != 0
  }

  lemma Octet0Bit(x: Sextet, y: Sextet, n: nat)
    requires n < 8
    ensures OctetBit(Octet0(x, y), n) == if n < 6 then SextetBit(x, n) else SextetBit(y, n - 6)
  {
  }

  lemma Octet1Bit(y: Sextet, z: Sextet, n: nat)
    requires n < 8
    ensures OctetBit(Octet1(y, z), n) == if n < 4 then SextetBit(y, n + 2) else SextetBit(z, n - 4)
  {
  }

  lemma Octet2Bit(z: Sextet, w: Sextet, n: nat)
    requires n < 8
    ensures OctetBit(Octet2(z, w), n) == if n < 2 then SextetBit(z, n + 4) else SextetBit(w, n - 2)
  {
  }

  lemma FirstGroupBit(s: seq<Sextet>, n: nat)
    requires n < 24 && n < 8 * |DecodeSextets(s)|
    ensures n / 6 < |s| && OctetBit(DecodeSextets(s)[n / 8], n % 8) == SextetBit(s[n / 6], n % 6)
  {
    if n < 8 {
      Octet0Bit(s[0], s[1], n);
    } else if n < 16 {
      Octet1Bit(s[1], s[2], n - 8);
    } else {
      Octet2Bit(s[2], s[3], n - 16);
    }
  }

  lemma NextGroupPlaces(n: nat)
    requires n >= 24
    ensures n / 6 == (n - 24) / 6 + 4 && n % 6 == (n - 24) % 6
    ensures n / 8 == (n - 24) / 8 + 3 && n % 8 == (n - 24) % 8
  {
  }

  /** Decoding regroups bits and changes none: bit n of the octets is bit n of the sextets, both
      counted from the most significant bit of the first one. */
  lemma {:induction false} DecodeKeepsBits(s: seq<Sextet>, n: nat)
    requires n < 8 * |DecodeSextets(s)|
    ensures n / 6 < |s| && OctetBit(DecodeSextets(s)[n / 8], n % 8) == SextetBit(s[n / 6], n % 6)
    decreases |s|
  {
    if n < 24 {
      FirstGroupBit(s, n);
    } else {
      NextGroupPlaces(n);
      DecodeKeepsBits(s[4..], n - 24);
    }
  }

  /** So does encoding, and the bits it adds are zeros. */
  lemma EncodeKeepsBits(b: seq<Octet>, n: nat)
    requires n < 8 * |b|
    ensures SpareBitsZero(EncodeOctets(b))
    ensures n / 6 < |EncodeOctets(b)| && SextetBit(EncodeOctets(b)[n / 6], n % 6) == OctetBit(b[n / 8], n % 8)
  {
    DecodeUndoesEncode(b);
    DecodeKeepsBits(EncodeOctets(b), n);
  }

  // ---------- the two signature tests ----------

  /** The signature pattern: 86 characters of the alphabet. */
  predicate SignaturePattern(s: string) {
    |s| == 86 && OverAlphabet(s)
  }

  /** The test of decodeAuthentication; its mask keeps the four spare bits. */
  predicate TailBitTest(s: string) {
    && SignaturePattern(s)
    && var finalSextet := IndexOf(s[|s| - 1]);
    var decodedByteLength := |s| * 6 / 8;
    var unusedTailBits := |s| * 6 - decodedByteLength * 8;
    decodedByteLength == 64 && unusedTailBits == 4 && finalSextet >= 0
    && finalSextet as bv6 & 15 == 0
  }

  /** The test of evaluateCloudSessionChallenge: decode, then compare the re-encoding. */
  predicate ReencodeTest(s: string) {
    SignaturePattern(s) && |Decode(s)| == 64 && Encode(Decode(s)) == s
  }

  /** Both tests look at the last sextet only. */
  lemma TailBitTestIsSpareBits(s: string)
    requires SignaturePattern(s)
    ensures TailBitTest(s) <==> SpareBitsZero(ToSextets(s))
  {
    assert ToSextets(s)[85] == SextetOf(s[85]);
  }

  lemma ReencodeTestIsSpareBits(s: string)
    requires SignaturePattern(s)
    ensures ReencodeTest(s) <==> SpareBitsZero(ToSextets(s))
  {
    var x := ToSextets(s);
    EncodeUndoesDecode(x);
    TextOfSextets(s);
    SextetsOfText(EncodeOctets(DecodeSextets(x)));
  }

  /** The two tests accept the same strings. */
  lemma TailBitTestIsReencodeTest(s: string)
    ensures TailBitTest(s) <==> ReencodeTest(s)
  {
    if SignaturePattern(s) {
      TailBitTestIsSpareBits(s);
      ReencodeTestIsSpareBits(s);
    }
  }

  /** Accepted signatures and 64-octet strings correspond one to one. */
  lemma SignaturesAreOctetStrings(s: string, b: seq<Octet>)
    requires |b| == 64
    ensures TailBitTest(Encode(b)) && Decode(Encode(b)) == b
    ensures TailBitTest(s) ==> (Decode(s) == b <==> s == Encode(b))
  {
    SextetsOfText(EncodeOctets(b));
    DecodeUndoesEncode(b);
    TailBitTestIsReencodeTest(Encode(b));
    TailBitTestIsReencodeTest(s);
  }
}
