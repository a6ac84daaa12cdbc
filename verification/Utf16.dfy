/** Text as the source language has it, a sequence of UTF-16 code units, and its UTF-8 encoding
    (section 3 of RFC 3629) as TextEncoder produces it. */
module Utf16 {

  type Unit = x: int | 0 <= x < 0x1_0000
  type Text = seq<Unit>
  type Byte = x: int | 0 <= x < 0x100

  predicate HighSurrogate(u: Unit) { 0xd800 <= u < 0xdc00 }
  predicate LowSurrogate(u: Unit) { 0xdc00 <= u < 0xe000 }

  predicate StartsWithPair(s: Text) {
    |s| >= 2 && HighSurrogate(s[0]) && LowSurrogate(s[1])
  }

  /** Every surrogate is part of a pair. */
  predicate WellFormed(s: Text) {
    if s == [] then true
    else if StartsWithPair(s) then WellFormed(s[2..])
    else !HighSurrogate(s[0]) && !LowSurrogate(s[0]) && WellFormed(s[1..])
  }

  lemma {:induction false} WellFormedJoin(a: Text, b: Text)
    requires WellFormed(a) && WellFormed(b)
    ensures WellFormed(a + b)
    decreases |a|
  {
    if a == [] {
      assert a + b == b;
    } else if StartsWithPair(a) {
      WellFormedJoin(a[2..], b);
      assert (a + b)[2..] == a[2..] + b;
    } else {
      WellFormedJoin(a[1..], b);
      assert (a + b)[1..] == a[1..] + b;
    }
  }

  lemma {:induction false} PlainIsWellFormed(s: Text)
    requires forall i: nat | i < |s| :: s[i] < 0xd800
    ensures WellFormed(s)
  {
    if s != [] {
      PlainIsWellFormed(s[1..]);
    }
  }

  // ---------- UTF-8 ----------

  /** A supplementary code point in four bytes. */
  function FourBytes(code: int): (b: seq<Byte>)
    requires 0x1_0000 <= code < 0x11_0000
    ensures |b| == 4 && b[0] >= 0xf0
  {
    var c1 := code / 64;
    var c2 := c1 / 64;
    [0xf0 + c2 / 64, 0x80 + c2 % 64, 0x80 + c1 % 64, 0x80 + code % 64]
  }

  function CodePoint(high: Unit, low: Unit): (code: int)
    requires HighSurrogate(high) && LowSurrogate(low)
    ensures 0x1_0000 <= code < 0x11_0000
  {
    0x1_0000 + (high as int - 0xd800) * 1024 + (low as int - 0xdc00)
  }

  /** A surrogate on its own is replaced by U+FFFD. */
  function Utf8Unit(u: Unit): (b: seq<Byte>)
    ensures 1 <= |b| <= 3
  {
    if u < 0x80 then [u]
    else if u < 0x800 then [0xc0 + u / 64, 0x80 + u % 64]
    else if HighSurrogate(u) || LowSurrogate(u) then [0xef, 0xbf, 0xbd]
    else [0xe0 + u / 64 / 64, 0x80 + u / 64 % 64, 0x80 + u % 64]
  }

  function Utf8(s: Text): seq<Byte> {
    if s == [] then []
    else if StartsWithPair(s) then FourBytes(CodePoint(s[0], s[1])) + Utf8(s[2..])
    else Utf8Unit(s[0]) + Utf8(s[1..])
  }

  /** Text is encoded piece by piece, wherever no pair is cut. */
  lemma {:induction false} Utf8Joins(a: Text, b: Text)
    requires a != [] && b != [] ==> !(HighSurrogate(a[|a| - 1]) && LowSurrogate(b[0]))
    ensures Utf8(a + b) == Utf8(a) + Utf8(b)
    decreases |a|
  {
    if a == [] {
      assert a + b == b;
    } else {
      var n := if StartsWithPair(a) then 2 else 1;
      assert StartsWithPair(a + b) <==> StartsWithPair(a);
      assert (a + b)[n..] == a[n..] + b;
      Utf8Joins(a[n..], b);
    }
  }

  /** A unit on its own and a pair are encoded as one code point each. */
  lemma Utf8OfOne(u: Unit, low: Unit)
    ensures Utf8([u]) == Utf8Unit(u)
    ensures HighSurrogate(u) && LowSurrogate(low) ==> Utf8([u, low]) == FourBytes(CodePoint(u, low))
  {
    assert [u][1..] == [] && [u, low][2..] == [];
  }

  predicate Continuation(b: Byte) {
    0x80 <= b < 0xc0
  }

  /** The shape of the bytes of one unit, and that its bits are theirs. */
  lemma Utf8UnitExactly(u: Unit)
    ensures var b := Utf8Unit(u);
      && (u < 0x80 ==> b == [u])
      && (0x80 <= u < 0x800 ==>
        |b| == 2 && 0xc2 <= b[0] < 0xe0 && Continuation(b[1]) && u == (b[0] - 0xc0) as int * 64 + (b[1] - 0x80) as int)
      && (u >= 0x800 && !HighSurrogate(u) && !LowSurrogate(u) ==>
        && |b| == 3 && 0xe0 <= b[0] < 0xf0 && Continuation(b[1]) && Continuation(b[2])
        && u == (b[0] - 0xe0) as int * 4096 + (b[1] - 0x80) as int * 64 + (b[2] - 0x80) as int)
      && (HighSurrogate(u) || LowSurrogate(u) ==> b == [0xef, 0xbf, 0xbd])
  {
  }

  /** The same for a surrogate pair, with the code point that section 3 of RFC 2781 gives it. */
  lemma FourBytesExactly(high: Unit, low: Unit)
    requires HighSurrogate(high) && LowSurrogate(low)
    ensures var b := FourBytes(CodePoint(high, low));
      && 0xf0 <= b[0] <= 0xf4 && Continuation(b[1]) && Continuation(b[2]) && Continuation(b[3])
      && (b[0] - 0xf0) as int * 262144 + (b[1] - 0x80) as int * 4096 + (b[2] - 0x80) as int * 64 + (b[3] - 0x80) as int
        == 0x1_0000 + (high - 0xd800) as int * 1024 + (low - 0xdc00) as int
  {
    FourBytesReadBack(CodePoint(high, low));
  }

  function ReadFourBytes(b: seq<Byte>): int
    requires |b| == 4
  {
    var c2 := (b[0] as int - 0xf0) * 64 + b[1] as int % 64;
    var c1 := c2 * 64 + b[2] as int % 64;
    c1 * 64 + b[3] as int % 64
  }

  function SurrogatesOf(code: int): Text {
    if 0x1_0000 <= code < 0x11_0000 then
      [0xd800 + (code - 0x1_0000) / 1024, 0xdc00 + (code - 0x1_0000) % 1024]
    else []
  }

  function ReadUtf8(b: seq<Byte>): Text {
    if b == [] then []
    else if b[0] < 0x80 then [b[0]] + ReadUtf8(b[1..])
    else if 0xc0 <= b[0] < 0xe0 && |b| >= 2 then [(b[0] as int - 0xc0) * 64 + b[1] as int % 64] + ReadUtf8(b[2..])
    else if 0xe0 <= b[0] < 0xf0 && |b| >= 3 then
      [((b[0] as int - 0xe0) * 64 + b[1] as int % 64) * 64 + b[2] as int % 64] + ReadUtf8(b[3..])
    else if b[0] >= 0xf0 && |b| >= 4 then SurrogatesOf(ReadFourBytes(b[..4])) + ReadUtf8(b[4..])
    else []
  }

  lemma ContinuationByte(c: int)
    requires 0 <= c < 64
    ensures (0x80 + c) % 64 == c
  {
  }

  lemma FourBytesReadBack(code: int)
    requires 0x1_0000 <= code < 0x11_0000
    ensures ReadFourBytes(FourBytes(code)) == code
  {
    var c1 := code / 64;
    var c2 := c1 / 64;
    ContinuationByte(code % 64);
    ContinuationByte(c1 % 64);
    ContinuationByte(c2 % 64);
  }

  lemma DivideSum(quotient: int, remainder: int)
    requires 0 <= remainder < 1024
    ensures (quotient * 1024 + remainder) / 1024 == quotient && (quotient * 1024 + remainder) % 1024 == remainder
  {
  }

  lemma PairReadsBack(high: Unit, low: Unit)
    requires HighSurrogate(high) && LowSurrogate(low)
    ensures SurrogatesOf(ReadFourBytes(FourBytes(CodePoint(high, low)))) == [high, low]
  {
    FourBytesReadBack(CodePoint(high, low));
    DivideSum(high as int - 0xd800, low as int - 0xdc00);
  }

  lemma UnitReadsBack(u: Unit, rest: seq<Byte>)
    requires !HighSurrogate(u) && !LowSurrogate(u)
    ensures ReadUtf8(Utf8Unit(u) + rest) == [u] + ReadUtf8(rest)
  {
    var b := Utf8Unit(u) + rest;
    assert b[|Utf8Unit(u)|..] == rest;
  }

  /** Well-formed text is read back from its UTF-8 bytes. */
  lemma {:induction false} Utf8ReadsBack(s: Text)
    requires WellFormed(s)
    ensures ReadUtf8(Utf8(s)) == s
    decreases |s|
  {
    if s != [] {
      if StartsWithPair(s) {
        var pair := FourBytes(CodePoint(s[0], s[1]));
        Utf8ReadsBack(s[2..]);
        PairReadsBack(s[0], s[1]);
        assert Utf8(s)[..4] == pair && Utf8(s)[4..] == Utf8(s[2..]);
        assert s == [s[0], s[1]] + s[2..];
      } else {
        Utf8ReadsBack(s[1..]);
        UnitReadsBack(s[0], Utf8(s[1..]));
        assert s == [s[0]] + s[1..];
      }
    }
  }

  /** Different well-formed texts have different bytes; texts that are not well-formed may share them. */
  lemma Utf8IsInjective(s: Text, t: Text)
    requires WellFormed(s) && WellFormed(t)
    ensures Utf8(s) == Utf8(t) <==> s == t
  {
    Utf8ReadsBack(s);
    Utf8ReadsBack(t);
  }
}
