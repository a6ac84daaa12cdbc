/** The operator's trusted connector credentials: their decoding, and the lookup by a composite
    key whose parts are joined by NUL characters. */
module TrustedCredentials {
  import opened Wrappers
  import opened CloudLinkMessages

  const MAXIMUM_CREDENTIALS := 64
  const MAXIMUM_PROOF_BYTES := 4096

  datatype Credential = Credential(gatewayId: string, credentialId: string, generation: string, proof: string)

  /** The variable's value after parsing; `Misshapen` is an entry without exactly the four string fields. */
  datatype Raw = Missing | NotAnArray | Entries(entries: seq<Entry>)
  datatype Entry = Misshapen | Shaped(credential: Credential)

  datatype Error =
    | Required | MustBeArray | BadCount | BadShape | BadGatewayId | BadCredentialId
    | DuplicateCredentialId | BadGeneration | BadProof

  datatype Assertion = Assertion(credentialId: string, proof: string)

  // ---------- the accepted forms ----------

  predicate IsLowerHexDigit(c: char) {
    '0' <= c <= '9' || 'a' <= c <= 'f'
  }

  predicate IsCanonicalUuid(s: string) {
    && |s| == 36
    && (forall i: nat | i < 36 ::
      if i == 8 || i == 13 || i == 18 || i == 23 then s[i] == '-' else IsLowerHexDigit(s[i]))
    && '1' <= s[14] <= '8' && (s[19] == '8' || s[19] == '9' || s[19] == 'a' || s[19] == 'b')
  }

  predicate AllDigits(s: string) {
    forall i: nat | i < |s| :: '0' <= s[i] <= '9'
  }

  function DecimalValue(s: string): nat
    requires AllDigits(s)
  {
    if s == "" then 0 else 10 * DecimalValue(s[..|s| - 1]) + (s[|s| - 1] - '0') as nat
  }

  predicate IsCanonicalUint64(s: string) {
    s != "" && AllDigits(s) && (s == "0" || s[0] != '0') && DecimalValue(s) <= MAXIMUM_UINT64
  }

  function Utf8Length(s: string): nat {
    if s == "" then 0
    else
      (if s[0] < '\U{80}' then 1 else if s[0] < '\U{800}' then 2 else if s[0] < '\U{10000}' then 3 else 4)
      + Utf8Length(s[1..])
  }

  /** What is wrong with an entry when the ids in `taken` were used before it; the first fault counts. */
  function FaultOf(entry: Entry, taken: set<string>): Option<Error> {
    if entry.Misshapen? then Some(BadShape)
    else
      var c := entry.credential;
      if !IsCanonicalUuid(c.gatewayId) then Some(BadGatewayId)
      else if !IsIdentifier(c.credentialId, 1, 256) then Some(BadCredentialId)
      else if c.credentialId in taken then Some(DuplicateCredentialId)
      else if !IsCanonicalUint64(c.generation) then Some(BadGeneration)
      else if c.proof == "" || Utf8Length(c.proof) > MAXIMUM_PROOF_BYTES then Some(BadProof)
      else None
  }

  ghost predicate WellFormed(c: Credential) {
    && IsCanonicalUuid(c.gatewayId) && IsIdentifier(c.credentialId, 1, 256) && IsCanonicalUint64(c.generation)
    && 1 <= Utf8Length(c.proof) <= MAXIMUM_PROOF_BYTES
  }

  ghost predicate AllWellFormed(entries: seq<Entry>) {
    forall i: nat | i < |entries| :: entries[i].Shaped? && WellFormed(entries[i].credential)
  }

  ghost predicate DistinctIds(entries: seq<Entry>) {
    forall i: nat, j: nat | i < j < |entries| && entries[i].Shaped? && entries[j].Shaped? ::
      entries[i].credential.credentialId != entries[j].credential.credentialId
  }

  ghost predicate Acceptable(entries: seq<Entry>) {
    AllWellFormed(entries) && DistinctIds(entries)
  }

  ghost predicate Decoded(credentials: seq<Credential>) {
    && (forall i: nat | i < |credentials| :: WellFormed(credentials[i]))
    && (forall i: nat, j: nat | i < j < |credentials| :: credentials[i].credentialId != credentials[j].credentialId)
  }

  function IdsOf(entries: seq<Entry>): set<string> {
    set i: nat | i < |entries| && entries[i].Shaped? :: entries[i].credential.credentialId
  }

  /** Decodes exactly the arrays of 1 to 64 well-formed entries with distinct ids, and otherwise
      reports the first fault of the first entry that has one. */
  method Decode(raw: Raw) returns (r: Result<seq<Credential>, Error>)
    ensures r.Ok? <==> raw.Entries? && 1 <= |raw.entries| <= MAXIMUM_CREDENTIALS && Acceptable(raw.entries)
    ensures r.Ok? ==> |r.value| == |raw.entries| && forall i: nat | i < |r.value| ::
      raw.entries[i] == Shaped(r.value[i])
    ensures r.Ok? ==> Decoded(r.value)
    ensures raw.Missing? ==> r == Err(Required)
    ensures raw.NotAnArray? ==> r == Err(MustBeArray)
    ensures raw.Entries? && !(1 <= |raw.entries| <= MAXIMUM_CREDENTIALS) ==> r == Err(BadCount)
    ensures raw.Entries? && 1 <= |raw.entries| <= MAXIMUM_CREDENTIALS && r.Err? ==>
      exists i: nat :: i < |raw.entries| && Acceptable(raw.entries[..i])
        && FaultOf(raw.entries[i], IdsOf(raw.entries[..i])) == Some(r.error)
  {
    if raw.Missing? { return Err(Required); }
    if raw.NotAnArray? { return Err(MustBeArray); }
    var entries := raw.entries;
    if |entries| == 0 || |entries| > MAXIMUM_CREDENTIALS { return Err(BadCount); }
    var credentialIds := {};
    var decoded := [];
    for i := 0 to |entries|
      invariant |decoded| == i && Acceptable(entries[..i])
      invariant forall j: nat | j < i :: entries[j] == Shaped(decoded[j])
      invariant credentialIds == IdsOf(entries[..i])
    {
      var fault := FaultOf(entries[i], credentialIds);
      FaultIsExact(entries, i);
      if fault.Some? {
        AcceptablePrefix(entries, i + 1);
        return Err(fault.value);
      }
      IdsGrow(entries, i);
      credentialIds := credentialIds + {entries[i].credential.credentialId};
      decoded := decoded + [entries[i].credential];
    }
    assert entries[..|entries|] == entries;
    r := Ok(decoded);
  }

  lemma IdsGrow(entries: seq<Entry>, i: nat)
    requires i < |entries| && entries[i].Shaped?
    ensures IdsOf(entries[..i + 1]) == IdsOf(entries[..i]) + {entries[i].credential.credentialId}
  {
    assert forall j: nat | j < i :: entries[..i + 1][j] == entries[..i][j];
    assert entries[..i + 1][i] == entries[i];
  }

  lemma Utf8LengthIsPositive(s: string)
    ensures Utf8Length(s) > 0 <==> s != ""
  {
  }

  lemma NextIdIsDistinct(entries: seq<Entry>, i: nat)
    requires i < |entries| && Acceptable(entries[..i]) && entries[i].Shaped?
    ensures DistinctIds(entries[..i + 1]) <==> entries[i].credential.credentialId !in IdsOf(entries[..i])
  {
    var before, upTo := entries[..i], entries[..i + 1];
    assert forall j: nat | j < i :: upTo[j] == before[j];
    var id := entries[i].credential.credentialId;
    if id in IdsOf(before) {
      var j: nat :| j < |before| && before[j].Shaped? && before[j].credential.credentialId == id;
      assert upTo[j].credential.credentialId == upTo[i].credential.credentialId;
    }
  }

  /** After acceptable entries, the next one has no fault exactly when it keeps them acceptable. */
  lemma FaultIsExact(entries: seq<Entry>, i: nat)
    requires i < |entries| && Acceptable(entries[..i])
    ensures FaultOf(entries[i], IdsOf(entries[..i])).None? <==> Acceptable(entries[..i + 1])
  {
    var before, upTo := entries[..i], entries[..i + 1];
    assert forall j: nat | j < i :: upTo[j] == before[j];
    assert upTo[i] == entries[i];
    if entries[i].Shaped? {
      Utf8LengthIsPositive(entries[i].credential.proof);
      NextIdIsDistinct(entries, i);
    }
  }

  lemma AcceptablePrefix(entries: seq<Entry>, i: nat)
    requires i <= |entries|
    ensures Acceptable(entries) ==> Acceptable(entries[..i])
  {
  }

  /** Which fault an entry is given, each with the earlier checks it has passed. */
  lemma FaultExactly(entry: Entry, taken: set<string>)
    ensures var fault := FaultOf(entry, taken);
      && (fault == Some(BadShape) <==> entry.Misshapen?)
      && (entry.Shaped? ==>
        var c := entry.credential;
        && (fault == Some(BadGatewayId) <==> !IsCanonicalUuid(c.gatewayId))
        && (fault == Some(BadCredentialId) <==>
          IsCanonicalUuid(c.gatewayId) && !IsIdentifier(c.credentialId, 1, 256))
        && (fault == Some(DuplicateCredentialId) <==>
          IsCanonicalUuid(c.gatewayId) && IsIdentifier(c.credentialId, 1, 256) && c.credentialId in taken)
        && (fault == Some(BadGeneration) <==>
          && IsCanonicalUuid(c.gatewayId) && IsIdentifier(c.credentialId, 1, 256) && c.credentialId !in taken
          && !IsCanonicalUint64(c.generation))
        && (fault == Some(BadProof) <==>
          && IsCanonicalUuid(c.gatewayId) && IsIdentifier(c.credentialId, 1, 256) && c.credentialId !in taken
          && IsCanonicalUint64(c.generation) && !(1 <= Utf8Length(c.proof) <= MAXIMUM_PROOF_BYTES))
        && (fault.Some? ==> fault.value !in {Required, MustBeArray, BadCount}))
  {
    if entry.Shaped? {
      Utf8LengthIsPositive(entry.credential.proof);
    }
  }

  /** The decimal digits of a number, without leading zeros. */
  function Decimal(n: nat): string {
    (if n < 10 then "" else Decimal(n / 10)) + ['0' + (n % 10) as char]
  }

  lemma {:induction false} DecimalIsCanonical(n: nat)
    ensures var s := Decimal(n);
      s != "" && AllDigits(s) && DecimalValue(s) == n && (n > 0 ==> s[0] != '0') && (n == 0 ==> s == "0")
  {
    if n >= 10 {
      DecimalIsCanonical(n / 10);
      assert Decimal(n)[..|Decimal(n)| - 1] == Decimal(n / 10);
    } else {
      assert Decimal(n)[..0] == "";
    }
  }

  lemma DecimalAppends(n: nat, digit: char)
    requires n > 0 && '0' <= digit <= '9'
    ensures Decimal(10 * n + (digit - '0') as nat) == Decimal(n) + [digit]
  {
  }

  lemma ValueAppends(front: string, digit: char)
    requires AllDigits(front) && '0' <= digit <= '9'
    ensures AllDigits(front + [digit])
    ensures DecimalValue(front + [digit]) == 10 * DecimalValue(front) + (digit - '0') as nat
  {
    assert (front + [digit])[..|front|] == front;
  }

  ghost predicate ReadsBack(s: string) {
    AllDigits(s) && DecimalValue(s) > 0 && Decimal(DecimalValue(s)) == s
  }

  lemma DigitReadsBack(digit: char)
    requires '1' <= digit <= '9'
    ensures ReadsBack([digit])
  {
    ValueAppends("", digit);
    assert "" + [digit] == [digit];
  }

  lemma AppendedReadsBack(front: string, digit: char)
    requires ReadsBack(front) && '0' <= digit <= '9'
    ensures ReadsBack(front + [digit])
  {
    ValueAppends(front, digit);
    DecimalAppends(DecimalValue(front), digit);
  }

  lemma {:induction false} CanonicalIsDecimal(s: string)
    requires s != "" && AllDigits(s) && s[0] != '0'
    ensures ReadsBack(s)
    decreases |s|
  {
    var front, digit := s[..|s| - 1], s[|s| - 1];
    assert s == front + [digit];
    if front == "" {
      DigitReadsBack(digit);
      assert s == [digit];
    } else {
      CanonicalIsDecimal(front);
      AppendedReadsBack(front, digit);
    }
  }

  /** The accepted generations are exactly the decimal forms of the 64-bit numbers. */
  lemma CanonicalUint64Exactly(s: string)
    ensures IsCanonicalUint64(s) <==> exists n: nat :: n <= MAXIMUM_UINT64 && s == Decimal(n)
  {
    if IsCanonicalUint64(s) {
      if s == "0" {
        ValueAppends("", '0');
        assert "" + ['0'] == s && DecimalValue(s) == 0 && Decimal(0) == "0";
      } else {
        CanonicalIsDecimal(s);
      }
      assert s == Decimal(DecimalValue(s));
    }
    forall n: nat | n <= MAXIMUM_UINT64 && s == Decimal(n) ensures IsCanonicalUint64(s) {
      DecimalIsCanonical(n);
    }
  }

  /** How many bits the sequences of one to four UTF-8 octets carry. */
  function CarriedBits(octets: nat): nat {
    match octets
    case 1 => 7
    case 2 => 11
    case 3 => 16
    case _ => 21
  }

  function PowerOfTwo(n: nat): nat {
    if n == 0 then 1 else 2 * PowerOfTwo(n - 1)
  }

  lemma {:induction false} Utf8LengthAdds(s: string, t: string)
    ensures Utf8Length(s + t) == Utf8Length(s) + Utf8Length(t)
  {
    if s == "" {
      assert s + t == t;
    } else {
      assert (s + t)[1..] == s[1..] + t;
      Utf8LengthAdds(s[1..], t);
    }
  }

  /** A character takes the least number of octets that can carry it, and a text the sum of them. */
  lemma Utf8LengthExactly(s: string, c: char)
    ensures var octets := Utf8Length([c]);
      && 1 <= octets <= 4 && c as int < PowerOfTwo(CarriedBits(octets))
      && (octets > 1 ==> c as int >= PowerOfTwo(CarriedBits(octets - 1)))
      && Utf8Length(s + [c]) == Utf8Length(s) + octets
  {
    Utf8LengthAdds(s, [c]);
    assert [c][1..] == "";
    PowersOfTwo();
  }

  lemma PowersOfTwo()
    ensures PowerOfTwo(7) == 0x80 && PowerOfTwo(11) == 0x800 && PowerOfTwo(16) == 0x1_0000
    ensures PowerOfTwo(21) == 0x20_0000
  {
    assert PowerOfTwo(8) == 0x100 && PowerOfTwo(16) == 0x1_0000;
  }

  // ---------- the composite key ----------

  const NUL := '\0'

  function KeyOf(gatewayId: string, credentialId: string, generation: string): string {
    gatewayId + [NUL] + credentialId + [NUL] + generation
  }

  /** The configured lookup: one entry per credential, a later one replacing an earlier one of the same key. */
  function Lookup(credentials: seq<Credential>): map<string, Assertion> {
    if credentials == [] then map[]
    else
      var last := credentials[|credentials| - 1];
      Lookup(credentials[..|credentials| - 1])[
        KeyOf(last.gatewayId, last.credentialId, last.generation) := Assertion(last.credentialId, last.proof)]
  }

  /** A string splits at its first NUL in one way only. */
  lemma FirstNulSplits(head: string, tail: string, otherHead: string, otherTail: string)
    requires NUL !in head && NUL !in otherHead
    requires head + [NUL] + tail == otherHead + [NUL] + otherTail
    ensures head == otherHead && tail == otherTail
  {
    var s := head + [NUL] + tail;
    assert s[|head|] == NUL && s[|otherHead|] == NUL;
    assert forall i: nat | i < |head| :: s[i] == head[i];
    assert forall i: nat | i < |otherHead| :: s[i] == otherHead[i];
    assert |head| == |otherHead|;
    assert s[..|head|] == head && s[|head| + 1..] == tail;
    assert s[..|head|] == otherHead && s[|head| + 1..] == otherTail;
  }

  function Nuls(s: string): nat {
    if s == "" then 0 else (if s[0] == NUL then 1 else 0) + Nuls(s[1..])
  }

  lemma {:induction false} NulsOfJoin(a: string, b: string)
    ensures Nuls(a + b) == Nuls(a) + Nuls(b)
  {
    if a == "" {
      assert a + b == b;
    } else {
      assert (a + b)[1..] == a[1..] + b;
      NulsOfJoin(a[1..], b);
    }
  }

  lemma {:induction false} NoNuls(s: string)
    ensures Nuls(s) == 0 <==> NUL !in s
  {
    if s != "" {
      assert s == [s[0]] + s[1..];
      NoNuls(s[1..]);
    }
  }

  lemma NulsOfKey(g: string, c: string, n: string)
    ensures Nuls(KeyOf(g, c, n)) == Nuls(g) + Nuls(c) + Nuls(n) + 2
  {
    NulsOfJoin(g, [NUL]);
    NulsOfJoin(g + [NUL], c);
    NulsOfJoin(g + [NUL] + c, [NUL]);
    NulsOfJoin(g + [NUL] + c + [NUL], n);
    assert Nuls([NUL]) == 1 + Nuls([NUL][1..]);
  }

  /** A request of arbitrary strings has the key of a NUL-free triple only if it is that triple. */
  lemma KeyIsInjective(g: string, c: string, n: string, gatewayId: string, credentialId: string, generation: string)
    requires NUL !in gatewayId && NUL !in credentialId && NUL !in generation
    requires KeyOf(g, c, n) == KeyOf(gatewayId, credentialId, generation)
    ensures g == gatewayId && c == credentialId && n == generation
  {
    NulsOfKey(g, c, n);
    NulsOfKey(gatewayId, credentialId, generation);
    NoNuls(g);
    NoNuls(c);
    NoNuls(gatewayId);
    NoNuls(credentialId);
    NoNuls(generation);
    assert KeyOf(g, c, n) == g + [NUL] + (c + [NUL] + n);
    assert KeyOf(gatewayId, credentialId, generation) == gatewayId + [NUL] + (credentialId + [NUL] + generation);
    FirstNulSplits(g, c + [NUL] + n, gatewayId, credentialId + [NUL] + generation);
    FirstNulSplits(c, n, credentialId, generation);
  }

  lemma WellFormedHasNoNul(c: Credential)
    requires WellFormed(c)
    ensures NUL !in c.gatewayId && NUL !in c.credentialId && NUL !in c.generation
  {
  }

  /** Of a decoded configuration, a request finds something exactly when it is the triple of a
      configured credential, and then it finds that credential and no other. */
  lemma {:induction false} LookupIsExact(credentials: seq<Credential>, g: string, c: string, n: string)
    requires Decoded(credentials)
    ensures KeyOf(g, c, n) in Lookup(credentials) <==>
      exists i: nat :: i < |credentials| && credentials[i].gatewayId == g && credentials[i].credentialId == c
        && credentials[i].generation == n
    ensures forall i: nat | i < |credentials| && credentials[i].gatewayId == g && credentials[i].credentialId == c
      && credentials[i].generation == n ::
      KeyOf(g, c, n) in Lookup(credentials) && Lookup(credentials)[KeyOf(g, c, n)] == Assertion(c, credentials[i].proof)
  {
    if credentials != [] {
      var last := credentials[|credentials| - 1];
      LookupIsExact(credentials[..|credentials| - 1], g, c, n);
      WellFormedHasNoNul(last);
      if KeyOf(g, c, n) == KeyOf(last.gatewayId, last.credentialId, last.generation) {
        KeyIsInjective(g, c, n, last.gatewayId, last.credentialId, last.generation);
      }
    }
  }

  type Triple = (string, string, string)

  predicate IsTripleOf(requested: Triple, c: Credential) {
    requested == (c.gatewayId, c.credentialId, c.generation)
  }

  /** The configured resolver and its immutable lookup, built from the credentials it was given. */
  class ConfiguredCredentials {
    const lookup: map<string, Assertion>
    ghost const configured: seq<Credential>

    ghost predicate Valid() {
      lookup == Lookup(configured)
    }

    constructor (credentials: seq<Credential>)
      ensures Valid() && configured == credentials
    {
      var built := map[];
      for i := 0 to |credentials|
        invariant built == Lookup(credentials[..i])
      {
        var c := credentials[i];
        assert credentials[..i + 1][..i] == credentials[..i];
        built := built[KeyOf(c.gatewayId, c.credentialId, c.generation) := Assertion(c.credentialId, c.proof)];
      }
      assert credentials[..|credentials|] == credentials;
      lookup, configured := built, credentials;
    }

    /** With a decoded configuration a request is answered exactly when it is the triple of a
        configured credential, and then with that credential's own id and proof, whatever strings
        the request is made of. A request without the three string fields finds nothing. */
    method Execute(requested: Option<Triple>) returns (found: Option<Assertion>)
      requires Valid()
      ensures requested.None? ==> found.None?
      ensures Decoded(configured) && requested.Some? ==>
        && (found.Some? <==> exists i: nat :: i < |configured| && IsTripleOf(requested.value, configured[i]))
        && forall i: nat | i < |configured| && IsTripleOf(requested.value, configured[i]) ::
          found == Some(Assertion(configured[i].credentialId, configured[i].proof))
    {
      if requested.None? { return None; }
      var (gatewayId, credentialId, generation) := requested.value;
      if Decoded(configured) {
        LookupIsExact(configured, gatewayId, credentialId, generation);
      }
      var key := KeyOf(gatewayId, credentialId, generation);
      found := if key in lookup then Some(lookup[key]) else None;
    }
  }
}
