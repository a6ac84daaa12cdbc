/** The canonical JSON printer whose bytes are signed: object members sorted by key, strings and
    finite numbers as JSON.stringify prints them, no white space, encoded as UTF-8.

    Key order is the code-unit order of section 3.2.3 of RFC 8785; string escapes are those of
    section 7 of RFC 8259. */
module CanonicalJson {
  import opened Wrappers
  import opened JsonNumbers
  import opened Utf16

  /** A JSON value with its object members in insertion order. */
  datatype Json =
    | Null
    | Bool(bit: bool)
    | Num(value: Number)
    | Str(text: Text)
    | Arr(items: Items)
    | Obj(members: Members)
  datatype Items = NoItem | Item(head: Json, tail: Items)
  datatype Members = NoMember | Member(key: Text, value: Json, rest: Members)

  /** What a JSON value means: an object is a finite map, so member order is gone. */
  datatype Meaning =
    | NullMeaning
    | BoolMeaning(bit: bool)
    | NumberMeaning(value: Number)
    | TextMeaning(text: Text)
    | ListMeaning(items: seq<Meaning>)
    | RecordMeaning(fields: map<Text, Meaning>)

  function MeaningOf(v: Json): Meaning {
    match v
    case Null => NullMeaning
    case Bool(bit) => BoolMeaning(bit)
    case Num(value) => NumberMeaning(value)
    case Str(text) => TextMeaning(text)
    case Arr(items) => ListMeaning(MeaningOfItems(items))
    case Obj(members) => RecordMeaning(FieldsOf(members))
  }

  function MeaningOfItems(items: Items): seq<Meaning> {
    match items
    case NoItem => []
    case Item(head, tail) => [MeaningOf(head)] + MeaningOfItems(tail)
  }

  function FieldsOf(members: Members): map<Text, Meaning> {
    match members
    case NoMember => map[]
    case Member(key, value, rest) => FieldsOf(rest)[key := MeaningOf(value)]
  }

  /** An object never has two members with the same key. */
  predicate DistinctKeys(v: Json) {
    match v
    case Arr(items) => DistinctKeysItems(items)
    case Obj(members) => DistinctKeysMembers(members)
    case _ => true
  }

  predicate DistinctKeysItems(items: Items) {
    match items
    case NoItem => true
    case Item(head, tail) => DistinctKeys(head) && DistinctKeysItems(tail)
  }

  predicate DistinctKeysMembers(members: Members) {
    match members
    case NoMember => true
    case Member(key, value, rest) =>
      key !in FieldsOf(rest) && DistinctKeys(value) && DistinctKeysMembers(rest)
  }

  // ---------- key order and sorting ----------

  predicate TextLess(a: Text, b: Text) {
    if a == [] then b != []
    else b != [] && (a[0] < b[0] || (a[0] == b[0] && TextLess(a[1..], b[1..])))
  }

  lemma {:induction false} TextLessIsStrictOrder(a: Text, b: Text, c: Text)
    ensures !(TextLess(a, b) && TextLess(b, a)) && !TextLess(a, a)
    ensures TextLess(a, b) || a == b || TextLess(b, a)
    ensures TextLess(a, b) && TextLess(b, c) ==> TextLess(a, c)
    decreases |a|
  {
    if a != [] {
      var bs, cs := if b == [] then [] else b[1..], if c == [] then [] else c[1..];
      TextLessIsStrictOrder(a[1..], bs, cs);
      if b != [] && a[0] == b[0] && a[1..] == bs {
        assert a == [a[0]] + a[1..] && b == [b[0]] + b[1..];
      }
    }
  }

  /** The order is the code-unit order: at the first difference the smaller unit comes first, and a
      proper prefix comes before what it is a prefix of. */
  ghost predicate Before(a: Text, b: Text) {
    exists k: nat :: k <= |a| && k < |b| && a[..k] == b[..k] && (k == |a| || a[k] < b[k])
  }

  lemma {:induction false} TextLessExactly(a: Text, b: Text)
    ensures TextLess(a, b) <==> Before(a, b)
  {
    if a == [] {
      if b != [] {
        assert a[..0] == b[..0];
      }
    } else if b != [] && a[0] == b[0] {
      TextLessExactly(a[1..], b[1..]);
      if Before(a[1..], b[1..]) {
        var k: nat :| k <= |a[1..]| && k < |b[1..]| && a[1..][..k] == b[1..][..k]
          && (k == |a[1..]| || a[1..][k] < b[1..][k]);
        assert a[..k + 1] == [a[0]] + a[1..][..k] && b[..k + 1] == [b[0]] + b[1..][..k];
      }
      if Before(a, b) {
        var k: nat :| k <= |a| && k < |b| && a[..k] == b[..k] && (k == |a| || a[k] < b[k]);
        assert k > 0;
        assert a[1..][..k - 1] == a[..k][1..] && b[1..][..k - 1] == b[..k][1..];
      }
    } else if b != [] {
      assert a[..0] == b[..0];
      if Before(a, b) {
        var k: nat :| k <= |a| && k < |b| && a[..k] == b[..k] && (k == |a| || a[k] < b[k]);
        assert k > 0 ==> a[..k][0] == b[..k][0];
      }
    }
  }

  function Size(v: Json): nat {
    match v
    case Arr(items) => 1 + SizeOfItems(items)
    case Obj(members) => 1 + SizeOfMembers(members)
    case _ => 1
  }

  function SizeOfItems(items: Items): nat {
    match items
    case NoItem => 0
    case Item(head, tail) => 1 + Size(head) + SizeOfItems(tail)
  }

  function SizeOfMembers(members: Members): nat {
    match members
    case NoMember => 0
    case Member(_, value, rest) => 1 + Size(value) + SizeOfMembers(rest)
  }

  function Insert(key: Text, value: Json, members: Members): (r: Members)
    ensures SizeOfMembers(r) == 1 + Size(value) + SizeOfMembers(members)
  {
    match members
    case NoMember => Member(key, value, NoMember)
    case Member(k, v, rest) =>
      if TextLess(key, k) then Member(key, value, members) else Member(k, v, Insert(key, value, rest))
  }

  function SortMembers(members: Members): (r: Members)
    ensures SizeOfMembers(r) == SizeOfMembers(members)
  {
    match members
    case NoMember => NoMember
    case Member(key, value, rest) => Insert(key, value, SortMembers(rest))
  }

  predicate Sorted(members: Members) {
    match members
    case NoMember => true
    case Member(key, _, rest) => (forall k <- FieldsOf(rest) :: TextLess(key, k)) && Sorted(rest)
  }

  lemma {:induction false} InsertAddsField(key: Text, value: Json, members: Members)
    requires key !in FieldsOf(members)
    ensures FieldsOf(Insert(key, value, members)) == FieldsOf(members)[key := MeaningOf(value)]
  {
    if members.Member? && !TextLess(key, members.key) {
      InsertAddsField(key, value, members.rest);
    }
  }

  lemma {:induction false} InsertKeepsDistinct(key: Text, value: Json, members: Members)
    requires key !in FieldsOf(members) && DistinctKeys(value) && DistinctKeysMembers(members)
    ensures DistinctKeysMembers(Insert(key, value, members))
  {
    if members.Member? && !TextLess(key, members.key) {
      InsertAddsField(key, value, members.rest);
      InsertKeepsDistinct(key, value, members.rest);
    }
  }

  lemma {:induction false} InsertSorts(key: Text, value: Json, members: Members)
    requires Sorted(members) && key !in FieldsOf(members)
    ensures Sorted(Insert(key, value, members))
  {
    if members.Member? {
      TextLessIsStrictOrder(key, members.key, key);
      if TextLess(key, members.key) {
        forall other | other in FieldsOf(members.rest) ensures TextLess(key, other) {
          TextLessIsStrictOrder(key, members.key, other);
        }
      } else {
        InsertAddsField(key, value, members.rest);
        InsertSorts(key, value, members.rest);
      }
    }
  }

  lemma {:induction false} SortMembersSorts(members: Members)
    requires DistinctKeysMembers(members)
    ensures Sorted(SortMembers(members)) && DistinctKeysMembers(SortMembers(members))
    ensures FieldsOf(SortMembers(members)) == FieldsOf(members)
  {
    match members
    case NoMember =>
    case Member(key, value, rest) =>
      SortMembersSorts(rest);
      InsertAddsField(key, value, SortMembers(rest));
      InsertKeepsDistinct(key, value, SortMembers(rest));
      InsertSorts(key, value, SortMembers(rest));
  }

  // ---------- quoting ----------

  const QUOTE: Unit := 0x22
  const BACKSLASH: Unit := 0x5c
  const COMMA: Unit := 0x2c
  const COLON: Unit := 0x3a
  const OPEN_ARRAY: Unit := 0x5b
  const CLOSE_ARRAY: Unit := 0x5d
  const OPEN_OBJECT: Unit := 0x7b
  const CLOSE_OBJECT: Unit := 0x7d

  function HexDigit(d: int): Unit
    requires 0 <= d < 16
  {
    if d < 10 then 0x30 + d else 0x61 + d - 10
  }

  function HexEscape(u: Unit): Text {
    var code := u as int;
    [BACKSLASH, 0x75, HexDigit(code / 4096), HexDigit(code / 256 % 16), HexDigit(code / 16 % 16),
     HexDigit(code % 16)]
  }

  /** The letter of a two-unit escape, or 0 when the unit has none. */
  function ShortEscape(u: Unit): Unit {
    if u == QUOTE || u == BACKSLASH then u
    else if u == 0x08 then 0x62
    else if u == 0x09 then 0x74
    else if u == 0x0a then 0x6e
    else if u == 0x0c then 0x66
    else if u == 0x0d then 0x72
    else 0
  }

  /** A unit that is not part of a surrogate pair. */
  function EscapeUnit(u: Unit): Text {
    if ShortEscape(u) != 0 then [BACKSLASH, ShortEscape(u)]
    else if u < 0x20 || HighSurrogate(u) || LowSurrogate(u) then HexEscape(u)
    else [u]
  }

  /** How many units the next escape covers, and what it prints. */
  function TokenLength(s: Text): (n: nat)
    requires s != []
    ensures 1 <= n <= |s|
  {
    if StartsWithPair(s) then 2 else 1
  }

  function Token(s: Text): (t: Text)
    requires s != []
    ensures |t| >= 1
  {
    if StartsWithPair(s) then s[..2] else EscapeUnit(s[0])
  }

  function EscapeText(s: Text): Text {
    if s == [] then [] else Token(s) + EscapeText(s[TokenLength(s)..])
  }

  function Quote(s: Text): Text {
    [QUOTE] + EscapeText(s) + [QUOTE]
  }

  predicate LowerHex(u: Unit) {
    0x30 <= u <= 0x39 || 0x61 <= u <= 0x66
  }

  /** How a unit that is not in a pair is printed: by its two-unit escape if it has one, by four
      lower-case hexadecimal digits if it is another control character or a surrogate, and as
      itself otherwise. */
  lemma EscapeExactly(u: Unit)
    ensures var t := EscapeText([u]);
      && (u == 0x22 ==> t == [0x5c, 0x22]) && (u == 0x5c ==> t == [0x5c, 0x5c])
      && (u == 0x08 ==> t == [0x5c, 0x62]) && (u == 0x09 ==> t == [0x5c, 0x74])
      && (u == 0x0a ==> t == [0x5c, 0x6e]) && (u == 0x0c ==> t == [0x5c, 0x66])
      && (u == 0x0d ==> t == [0x5c, 0x72])
      && ((u < 0x20 && u !in {0x08, 0x09, 0x0a, 0x0c, 0x0d}) || 0xd800 <= u < 0xe000 ==>
        && |t| == 6 && t[0] == 0x5c && t[1] == 0x75 && (forall i: nat | 2 <= i < 6 :: LowerHex(t[i]))
        && u == 4096 * HexValue(t[2]) + 256 * HexValue(t[3]) + 16 * HexValue(t[4]) + HexValue(t[5]))
      && (u >= 0x20 && u != 0x22 && u != 0x5c && !(0xd800 <= u < 0xe000) ==> t == [u])
  {
    assert [u][1..] == [];
    assert EscapeText([u]) == EscapeUnit(u) + [] == EscapeUnit(u);
    var code := u as int;
    HexDigitsSum(code);
    HexValueOfDigit(code / 4096);
    HexValueOfDigit(code / 256 % 16);
    HexValueOfDigit(code / 16 % 16);
    HexValueOfDigit(code % 16);
  }

  lemma EscapePair(high: Unit, low: Unit)
    requires HighSurrogate(high) && LowSurrogate(low)
    ensures EscapeText([high, low]) == [high, low]
  {
    assert [high, low][..2] == [high, low] && [high, low][2..] == [];
  }

  lemma TokenJoins(a: Text, b: Text)
    requires a != [] && (b != [] ==> !(HighSurrogate(a[|a| - 1]) && LowSurrogate(b[0])))
    ensures TokenLength(a + b) == TokenLength(a) && Token(a + b) == Token(a)
    ensures (a + b)[TokenLength(a)..] == a[TokenLength(a)..] + b
  {
    assert StartsWithPair(a + b) <==> StartsWithPair(a);
    assert (a + b)[..TokenLength(a)] == a[..TokenLength(a)] && (a + b)[0] == a[0];
  }

  lemma JoinThree(a: Text, b: Text, c: Text)
    ensures a + (b + c) == (a + b) + c
  {
  }

  /** Text is escaped piece by piece, wherever no pair is cut. */
  lemma {:induction false} EscapeJoins(a: Text, b: Text)
    requires a != [] && b != [] ==> !(HighSurrogate(a[|a| - 1]) && LowSurrogate(b[0]))
    ensures EscapeText(a + b) == EscapeText(a) + EscapeText(b)
    decreases |a|
  {
    if a == [] {
      assert a + b == b;
    } else {
      var rest := a[TokenLength(a)..];
      TokenJoins(a, b);
      EscapeJoins(rest, b);
      JoinThree(Token(a), EscapeText(rest), EscapeText(b));
    }
  }

  // ---------- the printer ----------

  function Literal(v: Json): Text
    requires v.Null? || v.Bool?
  {
    match v
    case Null => [0x6e, 0x75, 0x6c, 0x6c]
    case Bool(bit) => if bit then [0x74, 0x72, 0x75, 0x65] else [0x66, 0x61, 0x6c, 0x73, 0x65]
  }

  function Canonical(v: Json): (r: Text)
    ensures |r| > 0
    decreases Size(v), 1
  {
    match v
    case Null => Literal(v)
    case Bool(_) => Literal(v)
    case Num(value) => NumberText(value)
    case Str(text) => Quote(text)
    case Arr(items) => [OPEN_ARRAY] + JoinItems(items) + [CLOSE_ARRAY]
    case Obj(members) => [OPEN_OBJECT] + JoinMembers(SortMembers(members)) + [CLOSE_OBJECT]
  }

  function JoinItems(items: Items): Text
    decreases SizeOfItems(items), 0
  {
    match items
    case NoItem => []
    case Item(head, NoItem) => Canonical(head)
    case Item(head, tail) => Canonical(head) + [COMMA] + JoinItems(tail)
  }

  function PrintMember(key: Text, value: Json): Text
    decreases Size(value), 2
  {
    Quote(key) + [COLON] + Canonical(value)
  }

  function JoinMembers(members: Members): Text
    decreases SizeOfMembers(members), 0
  {
    match members
    case NoMember => []
    case Member(key, value, NoMember) => PrintMember(key, value)
    case Member(key, value, rest) => PrintMember(key, value) + [COMMA] + JoinMembers(rest)
  }

  // ---------- what is printed, part by part ----------

  /** The parts with a comma between any two. */
  function Commas(parts: seq<Text>): Text {
    if parts == [] then []
    else if |parts| == 1 then parts[0]
    else parts[0] + [0x2c] + Commas(parts[1..])
  }

  function ItemList(items: Items): seq<Json> {
    match items
    case NoItem => []
    case Item(head, tail) => [head] + ItemList(tail)
  }

  function KeyList(members: Members): seq<Text> {
    match members
    case NoMember => []
    case Member(key, _, rest) => [key] + KeyList(rest)
  }

  /** The value stored under a key. */
  function ValueAt(members: Members, key: Text): Option<Json> {
    match members
    case NoMember => None
    case Member(k, value, rest) => if k == key then Some(value) else ValueAt(rest, key)
  }

  ghost predicate PrintsItems(items: seq<Json>, parts: seq<Text>) {
    |parts| == |items| && forall i: nat | i < |items| :: parts[i] == Canonical(items[i])
  }

  ghost predicate PrintsMembers(members: Members, keys: seq<Text>, parts: seq<Text>) {
    && |parts| == |keys|
    && forall i: nat | i < |keys| ::
      ValueAt(members, keys[i]).Some?
      && parts[i] == Quote(keys[i]) + [0x3a] + Canonical(ValueAt(members, keys[i]).value)
  }

  ghost predicate Increasing(keys: seq<Text>) {
    forall i: nat, j: nat | i < j < |keys| :: Before(keys[i], keys[j])
  }

  lemma {:induction false} JoinItemsExactly(items: Items) returns (parts: seq<Text>)
    ensures PrintsItems(ItemList(items), parts) && JoinItems(items) == Commas(parts)
  {
    match items
    case NoItem => parts := [];
    case Item(head, tail) =>
      var more := JoinItemsExactly(tail);
      parts := [Canonical(head)] + more;
      assert parts[1..] == more;
      assert tail.NoItem? <==> more == [];
  }

  /** The print of an array: its items' prints in order, with commas between them, in brackets. */
  lemma ArrayExactly(items: Items)
    ensures exists parts: seq<Text> ::
      PrintsItems(ItemList(items), parts) && Canonical(Arr(items)) == [0x5b] + Commas(parts) + [0x5d]
  {
    var parts := JoinItemsExactly(items);
  }

  lemma {:induction false} FieldsAreKeys(members: Members, key: Text)
    ensures key in FieldsOf(members) <==> key in KeyList(members)
    ensures key in FieldsOf(members) <==> ValueAt(members, key).Some?
  {
    if members.Member? {
      FieldsAreKeys(members.rest, key);
    }
  }

  lemma {:induction false} SortedIsIncreasing(members: Members)
    requires Sorted(members)
    ensures Increasing(KeyList(members))
  {
    if members.Member? {
      SortedIsIncreasing(members.rest);
      var keys := KeyList(members);
      forall i: nat, j: nat | i < j < |keys| ensures Before(keys[i], keys[j]) {
        if i == 0 {
          assert KeyList(members.rest)[j - 1] in KeyList(members.rest);
          FieldsAreKeys(members.rest, keys[j]);
          TextLessExactly(keys[0], keys[j]);
        } else {
          assert Before(KeyList(members.rest)[i - 1], KeyList(members.rest)[j - 1]);
        }
      }
    }
  }

  lemma {:induction false} InsertKeepsValues(key: Text, value: Json, members: Members, k: Text)
    requires key !in FieldsOf(members)
    ensures ValueAt(Insert(key, value, members), k) == if k == key then Some(value) else ValueAt(members, k)
  {
    if members.Member? && !TextLess(key, members.key) {
      InsertKeepsValues(key, value, members.rest, k);
    }
  }

  lemma {:induction false} SortKeepsValues(members: Members, k: Text)
    requires DistinctKeysMembers(members)
    ensures ValueAt(SortMembers(members), k) == ValueAt(members, k)
  {
    if members.Member? {
      SortKeepsValues(members.rest, k);
      SortMembersSorts(members.rest);
      InsertKeepsValues(members.key, members.value, SortMembers(members.rest), k);
    }
  }

  lemma {:induction false} JoinMembersExactly(members: Members) returns (parts: seq<Text>)
    requires DistinctKeysMembers(members)
    ensures PrintsMembers(members, KeyList(members), parts) && JoinMembers(members) == Commas(parts)
  {
    match members
    case NoMember => parts := [];
    case Member(key, value, rest) =>
      var more := JoinMembersExactly(rest);
      parts := [PrintMember(key, value)] + more;
      assert parts[1..] == more;
      forall i: nat | i < |KeyList(members)|
        ensures ValueAt(members, KeyList(members)[i]).Some?
        ensures parts[i] == Quote(KeyList(members)[i]) + [0x3a] + Canonical(ValueAt(members, KeyList(members)[i]).value)
      {
        if i > 0 {
          assert KeyList(members)[i] == KeyList(rest)[i - 1] && KeyList(rest)[i - 1] in KeyList(rest);
          FieldsAreKeys(rest, KeyList(rest)[i - 1]);
        }
      }
  }

  /** The print of an object: for each of its keys, in code-unit order, the quoted key, a colon and
      the print of the value under it, with commas between them, in braces. */
  lemma ObjectExactly(members: Members)
    requires DistinctKeysMembers(members)
    ensures exists keys: seq<Text>, parts: seq<Text> ::
      && Increasing(keys) && (forall key: Text :: key in keys <==> ValueAt(members, key).Some?)
      && PrintsMembers(members, keys, parts) && Canonical(Obj(members)) == [0x7b] + Commas(parts) + [0x7d]
  {
    var sorted := SortMembers(members);
    SortMembersSorts(members);
    SortedIsIncreasing(sorted);
    var keys := KeyList(sorted);
    var parts := JoinMembersExactly(sorted);
    forall key: Text ensures key in keys <==> ValueAt(members, key).Some? {
      FieldsAreKeys(sorted, key);
      SortKeepsValues(members, key);
    }
    forall i: nat | i < |keys| ensures ValueAt(members, keys[i]) == ValueAt(sorted, keys[i]) {
      SortKeepsValues(members, keys[i]);
    }
    assert PrintsMembers(members, keys, parts);
  }

  /** The print of the other values. */
  lemma ScalarsExactly(value: Number, text: Text)
    ensures Canonical(Null) == [0x6e, 0x75, 0x6c, 0x6c]
    ensures Canonical(Bool(true)) == [0x74, 0x72, 0x75, 0x65]
    ensures Canonical(Bool(false)) == [0x66, 0x61, 0x6c, 0x73, 0x65]
    ensures Canonical(Num(value)) == NumberText(value)
    ensures Canonical(Str(text)) == [0x22] + EscapeText(text) + [0x22] == Quote(text)
  {
  }

  // ---------- a reader, after sections 2 to 7 of RFC 8259 ----------

  datatype Read<T> = Fail | Got(value: T, rest: Text)

  function HexValue(u: Unit): int {
    if 0x30 <= u <= 0x39 then u as int - 0x30
    else if 0x61 <= u <= 0x66 then u as int - 0x61 + 10
    else if 0x41 <= u <= 0x46 then u as int - 0x41 + 10
    else -1
  }

  /** The unit that a two-unit escape stands for. */
  function Unescape(letter: Unit): Read<Unit> {
    if letter == QUOTE || letter == BACKSLASH || letter == 0x2f then Got(letter, [])
    else if letter == 0x62 then Got(0x08, [])
    else if letter == 0x74 then Got(0x09, [])
    else if letter == 0x6e then Got(0x0a, [])
    else if letter == 0x66 then Got(0x0c, [])
    else if letter == 0x72 then Got(0x0d, [])
    else Fail
  }

  /** Reads one unit of a quoted string: a raw unit or an escape. */
  function ReadUnit(t: Text): (r: Read<Unit>)
    ensures r.Got? ==> |r.rest| < |t|
  {
    if t == [] || t[0] < 0x20 || t[0] == QUOTE then Fail
    else if t[0] != BACKSLASH then Got(t[0], t[1..])
    else if |t| < 2 then Fail
    else if t[1] != 0x75 then
      match Unescape(t[1])
      case Fail => Fail
      case Got(u, _) => Got(u, t[2..])
    else if |t| < 6 then Fail
    else
      var d3, d2, d1, d0 := HexValue(t[2]), HexValue(t[3]), HexValue(t[4]), HexValue(t[5]);
      if d3 < 0 || d2 < 0 || d1 < 0 || d0 < 0 then Fail
      else Got(4096 * d3 + 256 * d2 + 16 * d1 + d0, t[6..])
  }

  /** Reads a string whose opening quotation mark is already read. */
  function ReadText(t: Text): (r: Read<Text>)
    ensures r.Got? ==> |r.rest| < |t|
    decreases |t|
  {
    if t == [] then Fail
    else if t[0] == QUOTE then Got([], t[1..])
    else match ReadUnit(t)
      case Fail => Fail
      case Got(u, rest) =>
        match ReadText(rest)
        case Fail => Fail
        case Got(s, end) => Got([u] + s, end)
  }

  function ReadValue(t: Text): (r: Read<Json>)
    ensures r.Got? ==> |r.rest| < |t|
    decreases |t|, 0
  {
    if Literal(Null) <= t then Got(Null, t[4..])
    else if Literal(Bool(true)) <= t then Got(Bool(true), t[4..])
    else if Literal(Bool(false)) <= t then Got(Bool(false), t[5..])
    else if t == [] then Fail
    else if t[0] == QUOTE then
      match ReadText(t[1..])
      case Fail => Fail
      case Got(s, rest) => Got(Str(s), rest)
    else if t[0] == OPEN_ARRAY then
      if |t| >= 2 && t[1] == CLOSE_ARRAY then Got(Arr(NoItem), t[2..])
      else match ReadItems(t[1..])
        case Fail => Fail
        case Got(items, rest) => Got(Arr(items), rest)
    else if t[0] == OPEN_OBJECT then
      if |t| >= 2 && t[1] == CLOSE_OBJECT then Got(Obj(NoMember), t[2..])
      else match ReadMembers(t[1..])
        case Fail => Fail
        case Got(members, rest) => Got(Obj(members), rest)
    else if NumberUnit(t[0]) then Got(Num(ReadNumber(t[..RunLength(t)])), t[RunLength(t)..])
    else Fail
  }

  /** Reads one or more items and the closing bracket. */
  function ReadItems(t: Text): (r: Read<Items>)
    ensures r.Got? ==> |r.rest| < |t|
    decreases |t|, 1
  {
    match ReadValue(t)
    case Fail => Fail
    case Got(head, rest) =>
      if rest == [] then Fail
      else if rest[0] == CLOSE_ARRAY then Got(Item(head, NoItem), rest[1..])
      else if rest[0] != COMMA then Fail
      else match ReadItems(rest[1..])
        case Fail => Fail
        case Got(tail, end) => Got(Item(head, tail), end)
  }

  /** Reads one or more members and the closing brace. */
  function ReadMembers(t: Text): (r: Read<Members>)
    ensures r.Got? ==> |r.rest| < |t|
    decreases |t|, 1
  {
    if t == [] || t[0] != QUOTE then Fail
    else match ReadText(t[1..])
      case Fail => Fail
      case Got(key, afterKey) =>
        if afterKey == [] || afterKey[0] != COLON then Fail
        else match ReadValue(afterKey[1..])
          case Fail => Fail
          case Got(value, rest) =>
            if rest == [] then Fail
            else if rest[0] == CLOSE_OBJECT then Got(Member(key, value, NoMember), rest[1..])
            else if rest[0] != COMMA then Fail
            else match ReadMembers(rest[1..])
              case Fail => Fail
              case Got(more, end) => Got(Member(key, value, more), end)
  }

  // ---------- what is printed reads back ----------

  lemma HexValueOfDigit(d: int)
    requires 0 <= d < 16
    ensures HexValue(HexDigit(d)) == d
  {
  }

  lemma HexDigitsSum(u: int)
    requires 0 <= u < 0x1_0000
    ensures u == 4096 * (u / 4096) + 256 * (u / 256 % 16) + 16 * (u / 16 % 16) + u % 16
  {
    assert u / 4096 == u / 256 / 16 && u / 256 == u / 16 / 16;
  }

  lemma ReadHexEscape(u: Unit, x: Text)
    ensures ReadUnit(HexEscape(u) + x) == Got(u, x)
  {
    var code, t := u as int, HexEscape(u) + x;
    HexValueOfDigit(code / 4096);
    HexValueOfDigit(code / 256 % 16);
    HexValueOfDigit(code / 16 % 16);
    HexValueOfDigit(code % 16);
    HexDigitsSum(code);
    assert t[6..] == x;
  }

  lemma ReadEscapedUnit(u: Unit, x: Text)
    ensures ReadUnit(EscapeUnit(u) + x) == Got(u, x)
  {
    if ShortEscape(u) != 0 {
      assert ([BACKSLASH, ShortEscape(u)] + x)[2..] == x;
    } else if u < 0x20 || HighSurrogate(u) || LowSurrogate(u) {
      ReadHexEscape(u, x);
    } else {
      assert ([u] + x)[1..] == x;
    }
  }

  /** Reading a first unit, then the rest. */
  lemma ReadTextStep(t: Text, u: Unit, rest: Text)
    requires ReadUnit(t) == Got(u, rest) && ReadText(rest).Got?
    ensures ReadText(t) == Got([u] + ReadText(rest).value, ReadText(rest).rest)
  {
  }

  lemma ConsTail(u: Unit, x: Text)
    ensures ([u] + x)[0] == u && ([u] + x)[1..] == x
  {
  }

  lemma Reassociate(a: Text, b: Text, c: Text, d: Text)
    ensures a + b + c + d == a + (b + (c + d))
  {
  }

  lemma EscapeTextStep(s: Text, end: Text)
    requires s != []
    ensures StartsWithPair(s) ==>
      EscapeText(s) + end == [s[0]] + ([s[1]] + (EscapeText(s[2..]) + end))
    ensures !StartsWithPair(s) ==> EscapeText(s) + end == EscapeUnit(s[0]) + (EscapeText(s[1..]) + end)
  {
    var more := EscapeText(s[TokenLength(s)..]);
    if StartsWithPair(s) {
      assert Token(s) == [s[0]] + [s[1]];
      Reassociate([s[0]], [s[1]], more, end);
    } else {
      Reassociate(EscapeUnit(s[0]), [], more, end);
      assert EscapeUnit(s[0]) + [] == EscapeUnit(s[0]) && [] + (more + end) == more + end;
    }
  }

  /** A surrogate is printed raw inside a pair and reads as itself. */
  lemma ReadRawUnit(u: Unit, x: Text)
    requires HighSurrogate(u) || LowSurrogate(u)
    ensures ReadUnit([u] + x) == Got(u, x)
  {
    ConsTail(u, x);
  }

  lemma {:induction false} ReadEscapedText(s: Text, x: Text)
    ensures ReadText(EscapeText(s) + ([QUOTE] + x)) == Got(s, x)
    decreases |s|
  {
    var end := [QUOTE] + x;
    if s == [] {
      assert EscapeText(s) + end == end;
      ConsTail(QUOTE, x);
    } else {
      EscapeTextStep(s, end);
      if StartsWithPair(s) {
        var rest := EscapeText(s[2..]) + end;
        ReadEscapedText(s[2..], x);
        ReadRawUnit(s[1], rest);
        ReadTextStep([s[1]] + rest, s[1], rest);
        ReadRawUnit(s[0], [s[1]] + rest);
        ReadTextStep([s[0]] + ([s[1]] + rest), s[0], [s[1]] + rest);
        assert s == [s[0]] + ([s[1]] + s[2..]);
      } else {
        var rest := EscapeText(s[1..]) + end;
        ReadEscapedText(s[1..], x);
        ReadEscapedUnit(s[0], rest);
        ReadTextStep(EscapeUnit(s[0]) + rest, s[0], rest);
        assert s == [s[0]] + s[1..];
      }
    }
  }

  lemma QuoteShape(a: Text, x: Text)
    ensures Quote(a) + x == [QUOTE] + (EscapeText(a) + ([QUOTE] + x))
  {
  }

  /** What follows a first item: the closing bracket, or a comma and the other items. */
  function AfterItem(items: Items, x: Text): Text {
    if items.NoItem? then [CLOSE_ARRAY] + x else [COMMA] + (JoinItems(items) + ([CLOSE_ARRAY] + x))
  }

  function AfterMember(members: Members, x: Text): Text {
    if members.NoMember? then [CLOSE_OBJECT] + x else [COMMA] + (JoinMembers(members) + ([CLOSE_OBJECT] + x))
  }

  lemma ItemsShape(items: Items, x: Text)
    requires items.Item?
    ensures JoinItems(items) + ([CLOSE_ARRAY] + x) == Canonical(items.head) + AfterItem(items.tail, x)
  {
    if items.tail.Item? {
      Reassociate(Canonical(items.head), [COMMA], JoinItems(items.tail), [CLOSE_ARRAY] + x);
    }
  }

  lemma MemberShape(key: Text, value: Json, z: Text)
    ensures PrintMember(key, value) + z == Quote(key) + ([COLON] + (Canonical(value) + z))
  {
  }

  lemma MembersShape(members: Members, x: Text)
    requires members.Member?
    ensures JoinMembers(members) + ([CLOSE_OBJECT] + x)
      == Quote(members.key) + ([COLON] + (Canonical(members.value) + AfterMember(members.rest, x)))
  {
    MemberShape(members.key, members.value, AfterMember(members.rest, x));
    if members.rest.Member? {
      Reassociate(PrintMember(members.key, members.value), [COMMA], JoinMembers(members.rest), [CLOSE_OBJECT] + x);
    }
  }

  /** No value begins with a closing bracket. */
  lemma CanonicalFirst(v: Json, x: Text)
    ensures (Canonical(v) + x)[0] != CLOSE_ARRAY
  {
  }

  lemma ReadLiteral(v: Json, x: Text)
    requires v.Null? || v.Bool?
    ensures ReadValue(Literal(v) + x) == Got(v, x)
  {
    var t := Literal(v) + x;
    assert t[0] == Literal(v)[0] && Literal(v) <= t;
    assert t[|Literal(v)|..] == x;
  }

  lemma ReadNumberRun(t: Text)
    requires t != [] && NumberUnit(t[0]) && t[0] != EXPONENT
    ensures ReadValue(t) == Got(Num(ReadNumber(t[..RunLength(t)])), t[RunLength(t)..])
  {
    assert Literal(Null)[0] != t[0] && Literal(Bool(true))[0] != t[0] && Literal(Bool(false))[0] != t[0];
  }

  lemma ReadNumberText(value: Number, x: Text)
    requires Ends(x)
    ensures ReadValue(NumberText(value) + x) == Got(Num(value), x)
  {
    var s := NumberText(value);
    NumberTextUnits(value);
    RunIsTheNumber(s, x);
    NumberReadsBack(value);
    ReadNumberRun(s + x);
  }

  lemma ReadValueStep(first: Unit, inner: Text)
    requires first == QUOTE || first == OPEN_ARRAY || first == OPEN_OBJECT
    ensures first == QUOTE && ReadText(inner).Got? ==>
      ReadValue([first] + inner) == Got(Str(ReadText(inner).value), ReadText(inner).rest)
    ensures first == OPEN_ARRAY && inner != [] && inner[0] != CLOSE_ARRAY && ReadItems(inner).Got? ==>
      ReadValue([first] + inner) == Got(Arr(ReadItems(inner).value), ReadItems(inner).rest)
    ensures first == OPEN_OBJECT && inner != [] && inner[0] == QUOTE && ReadMembers(inner).Got? ==>
      ReadValue([first] + inner) == Got(Obj(ReadMembers(inner).value), ReadMembers(inner).rest)
    ensures first == OPEN_ARRAY && inner != [] && inner[0] == CLOSE_ARRAY ==>
      ReadValue([first] + inner) == Got(Arr(NoItem), inner[1..])
    ensures first == OPEN_OBJECT && inner != [] && inner[0] == CLOSE_OBJECT ==>
      ReadValue([first] + inner) == Got(Obj(NoMember), inner[1..])
  {
    var t := [first] + inner;
    ConsTail(first, inner);
    assert Literal(Null)[0] != t[0] && Literal(Bool(true))[0] != t[0] && Literal(Bool(false))[0] != t[0];
    if inner != [] {
      assert t[2..] == inner[1..];
    }
  }

  /** Reading what was printed, with anything after it, gives a value of the same meaning and
      leaves exactly what came after; only a number must not be continued as a number. */
  lemma {:induction false} ReadsBack(v: Json, x: Text)
    requires DistinctKeys(v) && (v.Num? ==> Ends(x))
    ensures var r := ReadValue(Canonical(v) + x);
      r.Got? && MeaningOf(r.value) == MeaningOf(v) && r.rest == x
    decreases Size(v), 0
  {
    match v
    case Null => ReadLiteral(v, x);
    case Bool(_) => ReadLiteral(v, x);
    case Num(value) => ReadNumberText(value, x);
    case Str(text) =>
      QuoteShape(text, x);
      ReadEscapedText(text, x);
      ReadValueStep(QUOTE, EscapeText(text) + ([QUOTE] + x));
    case Arr(items) =>
      var inner := JoinItems(items) + ([CLOSE_ARRAY] + x);
      assert Canonical(v) + x == [OPEN_ARRAY] + inner;
      ReadValueStep(OPEN_ARRAY, inner);
      if items.NoItem? {
        assert inner == [CLOSE_ARRAY] + x;
        ConsTail(CLOSE_ARRAY, x);
      } else {
        ItemsShape(items, x);
        CanonicalFirst(items.head, AfterItem(items.tail, x));
        ReadsBackItems(items, x);
      }
    case Obj(members) => ReadsBackObject(members, x);
  }

  lemma {:induction false} ReadsBackObject(members: Members, x: Text)
    requires DistinctKeysMembers(members)
    ensures var r := ReadValue(Canonical(Obj(members)) + x);
      r.Got? && MeaningOf(r.value) == RecordMeaning(FieldsOf(members)) && r.rest == x
    decreases SizeOfMembers(members), 1
  {
    var sorted := SortMembers(members);
    SortMembersSorts(members);
    var inner := JoinMembers(sorted) + ([CLOSE_OBJECT] + x);
    assert Canonical(Obj(members)) + x == [OPEN_OBJECT] + inner;
    ReadValueStep(OPEN_OBJECT, inner);
    if sorted.NoMember? {
      assert inner == [CLOSE_OBJECT] + x;
      ConsTail(CLOSE_OBJECT, x);
    } else {
      MembersShape(sorted, x);
      QuoteShape(sorted.key, [COLON] + (Canonical(sorted.value) + AfterMember(sorted.rest, x)));
      ReadsBackMembers(sorted, x);
    }
  }

  lemma {:induction false} ReadsBackItems(items: Items, x: Text)
    requires items.Item? && DistinctKeysItems(items)
    ensures var r := ReadItems(JoinItems(items) + ([CLOSE_ARRAY] + x));
      r.Got? && MeaningOfItems(r.value) == MeaningOfItems(items) && r.rest == x
    decreases SizeOfItems(items), 0
  {
    ItemsShape(items, x);
    ReadsBack(items.head, AfterItem(items.tail, x));
    if items.tail.NoItem? {
      ConsTail(CLOSE_ARRAY, x);
    } else {
      ConsTail(COMMA, JoinItems(items.tail) + ([CLOSE_ARRAY] + x));
      ReadsBackItems(items.tail, x);
    }
  }

  lemma ReadMembersStep(key: Text, escaped: Text, afterColon: Text, value: Json, rest: Text)
    requires ReadText(escaped) == Got(key, [COLON] + afterColon)
    requires ReadValue(afterColon) == Got(value, rest) && rest != []
    ensures rest[0] == CLOSE_OBJECT ==>
      ReadMembers([QUOTE] + escaped) == Got(Member(key, value, NoMember), rest[1..])
    ensures rest[0] == COMMA && ReadMembers(rest[1..]).Got? ==>
      ReadMembers([QUOTE] + escaped)
        == Got(Member(key, value, ReadMembers(rest[1..]).value), ReadMembers(rest[1..]).rest)
  {
    ConsTail(QUOTE, escaped);
    ConsTail(COLON, afterColon);
  }

  lemma {:induction false} ReadsBackMembers(members: Members, x: Text)
    requires members.Member? && DistinctKeysMembers(members)
    ensures var r := ReadMembers(JoinMembers(members) + ([CLOSE_OBJECT] + x));
      r.Got? && FieldsOf(r.value) == FieldsOf(members) && r.rest == x
    decreases SizeOfMembers(members), 0
  {
    var rest := AfterMember(members.rest, x);
    var afterColon := Canonical(members.value) + rest;
    MembersShape(members, x);
    QuoteShape(members.key, [COLON] + afterColon);
    ReadEscapedText(members.key, [COLON] + afterColon);
    ReadsBack(members.value, rest);
    ReadMembersStep(members.key, EscapeText(members.key) + ([QUOTE] + ([COLON] + afterColon)), afterColon,
      ReadValue(afterColon).value, rest);
    if members.rest.NoMember? {
      ConsTail(CLOSE_OBJECT, x);
    } else {
      ConsTail(COMMA, JoinMembers(members.rest) + ([CLOSE_OBJECT] + x));
      ReadsBackMembers(members.rest, x);
    }
  }

  // ---------- member order does not matter ----------

  lemma {:induction false} SameMeaningPrintsAlike(a: Json, b: Json)
    requires DistinctKeys(a) && DistinctKeys(b) && MeaningOf(a) == MeaningOf(b)
    ensures Canonical(a) == Canonical(b)
    decreases Size(a), 1
  {
    match a
    case Arr(items) => SameItemsPrintAlike(items, b.items);
    case Obj(members) =>
      SortMembersSorts(members);
      SortMembersSorts(b.members);
      SameFieldsPrintAlike(SortMembers(members), SortMembers(b.members));
    case _ =>
  }

  lemma {:induction false} SameItemsPrintAlike(a: Items, b: Items)
    requires DistinctKeysItems(a) && DistinctKeysItems(b) && MeaningOfItems(a) == MeaningOfItems(b)
    ensures JoinItems(a) == JoinItems(b)
    decreases SizeOfItems(a), 0
  {
    if a.Item? && b.Item? {
      assert MeaningOfItems(a)[0] == MeaningOfItems(b)[0];
      assert MeaningOfItems(a)[1..] == MeaningOfItems(a.tail);
      assert MeaningOfItems(b)[1..] == MeaningOfItems(b.tail);
      SameMeaningPrintsAlike(a.head, b.head);
      SameItemsPrintAlike(a.tail, b.tail);
    }
  }

  lemma NoFieldsNoMembers(members: Members)
    ensures members.NoMember? <==> FieldsOf(members) == map[]
  {
    if members.Member? {
      assert members.key in FieldsOf(members);
    }
  }

  /** Two sorted member lists that mean the same record have the same keys in the same order. */
  lemma {:induction false} SameFieldsPrintAlike(a: Members, b: Members)
    requires Sorted(a) && Sorted(b) && DistinctKeysMembers(a) && DistinctKeysMembers(b)
    requires FieldsOf(a) == FieldsOf(b)
    ensures JoinMembers(a) == JoinMembers(b)
    decreases SizeOfMembers(a), 0
  {
    NoFieldsNoMembers(a);
    NoFieldsNoMembers(b);
    if a.Member? {
      assert a.key in FieldsOf(b) && b.key in FieldsOf(a);
      TextLessIsStrictOrder(a.key, b.key, a.key);
      assert a.key == b.key;
      assert FieldsOf(a.rest) == FieldsOf(a) - {a.key};
      assert FieldsOf(b.rest) == FieldsOf(b) - {b.key};
      SameMeaningPrintsAlike(a.value, b.value);
      SameFieldsPrintAlike(a.rest, b.rest);
    }
  }

  /** Two values print alike exactly when they are equal ignoring member order. */
  lemma CanonicalIffSameMeaning(a: Json, b: Json)
    requires DistinctKeys(a) && DistinctKeys(b)
    ensures Canonical(a) == Canonical(b) <==> MeaningOf(a) == MeaningOf(b)
  {
    if Canonical(a) == Canonical(b) {
      ReadsBack(a, []);
      ReadsBack(b, []);
    }
    if MeaningOf(a) == MeaningOf(b) {
      SameMeaningPrintsAlike(a, b);
    }
  }

  // ---------- the signed bytes ----------

  lemma {:induction false} EscapedIsWellFormed(s: Text)
    ensures WellFormed(EscapeText(s))
    decreases |s|
  {
    if s != [] {
      EscapedIsWellFormed(s[TokenLength(s)..]);
      TokenIsWellFormed(s);
      WellFormedJoin(Token(s), EscapeText(s[TokenLength(s)..]));
    }
  }

  lemma TokenIsWellFormed(s: Text)
    requires s != []
    ensures WellFormed(Token(s))
  {
    if StartsWithPair(s) {
      assert s[..2][2..] == [];
    } else if ShortEscape(s[0]) != 0 || s[0] < 0x20 || HighSurrogate(s[0]) || LowSurrogate(s[0]) {
      PlainIsWellFormed(EscapeUnit(s[0]));
    } else {
      assert [s[0]][1..] == [];
    }
  }

  /** Wrapped in two units below the surrogates. */
  lemma WrapIsWellFormed(first: Unit, s: Text, last: Unit)
    requires first < 0xd800 && last < 0xd800 && WellFormed(s)
    ensures WellFormed([first] + s + [last])
  {
    PlainIsWellFormed([first]);
    PlainIsWellFormed([last]);
    WellFormedJoin([first], s);
    WellFormedJoin([first] + s, [last]);
  }

  lemma {:induction false} QuoteIsWellFormed(s: Text)
    ensures WellFormed(Quote(s))
  {
    EscapedIsWellFormed(s);
    WrapIsWellFormed(QUOTE, EscapeText(s), QUOTE);
  }

  lemma JoinIsWellFormed(a: Text, separator: Unit, b: Text)
    requires WellFormed(a) && separator < 0xd800 && WellFormed(b)
    ensures WellFormed(a + [separator] + b)
  {
    PlainIsWellFormed([separator]);
    WellFormedJoin(a, [separator]);
    WellFormedJoin(a + [separator], b);
  }

  /** Lone surrogates are escaped, so the print loses nothing when it is encoded. */
  lemma {:induction false} CanonicalIsWellFormed(v: Json)
    ensures WellFormed(Canonical(v))
    decreases Size(v), 1
  {
    match v
    case Null => PlainIsWellFormed(Literal(v));
    case Bool(_) => PlainIsWellFormed(Literal(v));
    case Num(value) => NumberIsPlain(value);
    case Str(text) => QuoteIsWellFormed(text);
    case Arr(items) =>
      ItemsAreWellFormed(items);
      WrapIsWellFormed(OPEN_ARRAY, JoinItems(items), CLOSE_ARRAY);
    case Obj(members) =>
      MembersAreWellFormed(SortMembers(members));
      WrapIsWellFormed(OPEN_OBJECT, JoinMembers(SortMembers(members)), CLOSE_OBJECT);
  }

  lemma {:induction false} ItemsAreWellFormed(items: Items)
    ensures WellFormed(JoinItems(items))
    decreases SizeOfItems(items), 0
  {
    if items.Item? {
      CanonicalIsWellFormed(items.head);
      ItemsAreWellFormed(items.tail);
      JoinIsWellFormed(Canonical(items.head), COMMA, JoinItems(items.tail));
    }
  }

  lemma {:induction false} MembersAreWellFormed(members: Members)
    ensures WellFormed(JoinMembers(members))
    decreases SizeOfMembers(members), 0
  {
    if members.Member? {
      CanonicalIsWellFormed(members.value);
      MembersAreWellFormed(members.rest);
      QuoteIsWellFormed(members.key);
      JoinIsWellFormed(Quote(members.key), COLON, Canonical(members.value));
      JoinIsWellFormed(PrintMember(members.key, members.value), COMMA, JoinMembers(members.rest));
    }
  }

  function CanonicalBytes(v: Json): seq<Byte> {
    Utf8(Canonical(v))
  }

  /** Two values are signed over the same bytes exactly when they are equal ignoring member order. */
  lemma CanonicalBytesIffSameMeaning(a: Json, b: Json)
    requires DistinctKeys(a) && DistinctKeys(b)
    ensures CanonicalBytes(a) == CanonicalBytes(b) <==> MeaningOf(a) == MeaningOf(b)
  {
    CanonicalIsWellFormed(a);
    CanonicalIsWellFormed(b);
    Utf8IsInjective(Canonical(a), Canonical(b));
    CanonicalIffSameMeaning(a, b);
  }
}
