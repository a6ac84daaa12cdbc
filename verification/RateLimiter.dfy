/** The fixed-window limiter of enrollment claims, over an insertion-ordered map of bounded size. */
module RateLimiter {
  import opened Wrappers

  datatype Options = Options(maximumKeys: int, maximumAttempts: int, windowMilliseconds: int)

  datatype Window = Window(attempts: int, startedAt: int)

  /** An entry of the map; a map is the sequence of its entries in insertion order. */
  datatype Entry = Entry(key: string, window: Window)

  datatype Call = Call(key: string, now: int)

  function Max(a: int, b: int): int {
    if a < b then b else a
  }

  // ---------- the insertion-ordered map ----------

  /** The place of the key, or the number of entries when it is absent. */
  function PlaceOf(entries: seq<Entry>, key: string): (r: nat)
    ensures r <= |entries|
    ensures r < |entries| ==> entries[r].key == key
  {
    if entries == [] || entries[0].key == key then 0 else 1 + PlaceOf(entries[1..], key)
  }

  lemma {:induction false} PlaceIsFirst(entries: seq<Entry>, key: string)
    ensures forall i: nat | i < PlaceOf(entries, key) :: entries[i].key != key
  {
    if entries != [] && entries[0].key != key {
      PlaceIsFirst(entries[1..], key);
      assert forall i: nat | 0 < i < |entries| :: entries[i] == entries[1..][i - 1];
    }
  }

  function Get(entries: seq<Entry>, key: string): Option<Window> {
    var place := PlaceOf(entries, key);
    if place < |entries| then Some(entries[place].window) else None
  }

  function Delete(entries: seq<Entry>, key: string): seq<Entry> {
    var place := PlaceOf(entries, key);
    if place < |entries| then entries[..place] + entries[place + 1..] else entries
  }

  /** A key that is present keeps its place; a new one goes last. */
  function Set(entries: seq<Entry>, key: string, window: Window): seq<Entry> {
    var place := PlaceOf(entries, key);
    if place < |entries| then entries[place := Entry(key, window)] else entries + [Entry(key, window)]
  }

  function Keys(entries: seq<Entry>): set<string> {
    set i: nat | i < |entries| :: entries[i].key
  }

  ghost predicate Unique(entries: seq<Entry>) {
    forall i: nat, j: nat | i < j < |entries| :: entries[i].key != entries[j].key
  }

  lemma GetAt(entries: seq<Entry>, place: nat)
    requires Unique(entries) && place < |entries|
    ensures Get(entries, entries[place].key) == Some(entries[place].window)
  {
    PlaceIsFirst(entries, entries[place].key);
  }

  lemma GetAbsent(entries: seq<Entry>, key: string)
    ensures Get(entries, key).None? <==> key !in Keys(entries)
  {
    PlaceIsFirst(entries, key);
  }

  lemma DeleteUnique(entries: seq<Entry>, key: string)
    requires Unique(entries)
    ensures Unique(Delete(entries, key))
  {
    var place := PlaceOf(entries, key);
    var r := Delete(entries, key);
    assert place < |entries| ==> forall i: nat | i < |r| :: r[i] == entries[if i < place then i else i + 1];
  }

  lemma DeleteKeys(entries: seq<Entry>, key: string)
    requires Unique(entries)
    ensures var r := Delete(entries, key);
      && Unique(r) && Keys(r) == Keys(entries) - {key} && |r| == |entries| - (if key in Keys(entries) then 1 else 0)
  {
    DeleteUnique(entries, key);
    PlaceIsFirst(entries, key);
    var place := PlaceOf(entries, key);
    var r := Delete(entries, key);
    if place < |entries| {
      forall k | k in Keys(r) ensures k in Keys(entries) && k != key {
        var i: nat :| i < |r| && r[i].key == k;
        assert r[i] == entries[if i < place then i else i + 1];
      }
      forall k | k in Keys(entries) && k != key ensures k in Keys(r) {
        var i: nat :| i < |entries| && entries[i].key == k;
        assert entries[i] == r[if i < place then i else i - 1];
      }
    }
  }

  lemma DeleteGet(entries: seq<Entry>, key: string, k: string)
    requires Unique(entries)
    ensures Get(Delete(entries, key), k) == if k == key then None else Get(entries, k)
  {
    DeleteKeys(entries, key);
    var place, at := PlaceOf(entries, key), PlaceOf(entries, k);
    var r := Delete(entries, key);
    GetAbsent(r, k);
    GetAbsent(entries, k);
    if place < |entries| && k != key && at < |entries| {
      var moved := if at < place then at else at - 1;
      assert r[moved] == entries[at];
      GetAt(r, moved);
    }
  }

  lemma SetKeys(entries: seq<Entry>, key: string, window: Window)
    requires Unique(entries)
    ensures var r := Set(entries, key, window);
      && Unique(r) && Keys(r) == Keys(entries) + {key} && |r| == |entries| + (if key in Keys(entries) then 0 else 1)
  {
    PlaceIsFirst(entries, key);
    var place := PlaceOf(entries, key);
    var r := Set(entries, key, window);
    assert r[place] == Entry(key, window);
    assert forall i: nat | i < |entries| && i != place :: r[i] == entries[i];
  }

  lemma SetGet(entries: seq<Entry>, key: string, window: Window, k: string)
    requires Unique(entries)
    ensures Get(Set(entries, key, window), k) == if k == key then Some(window) else Get(entries, k)
  {
    SetKeys(entries, key, window);
    var r := Set(entries, key, window);
    var place, at := PlaceOf(entries, key), PlaceOf(entries, k);
    assert r[place] == Entry(key, window);
    GetAt(r, place);
    GetAbsent(r, k);
    GetAbsent(entries, k);
    if k != key && at < |entries| {
      assert r[at] == entries[at];
      GetAt(r, at);
    }
  }

  // ---------- the limiter ----------

  /** The number of entries the map may reach: it always has room for the calling key. */
  function Capacity(o: Options): nat {
    Max(1, o.maximumKeys)
  }

  predicate Restarts(o: Options, current: Option<Window>, now: int) {
    current.None? || now - current.value.startedAt >= o.windowMilliseconds
  }

  function EvictOldest(o: Options, entries: seq<Entry>, key: string): seq<Entry> {
    if Get(entries, key).None? && |entries| >= o.maximumKeys && entries != [] then Delete(entries, entries[0].key)
    else entries
  }

  /** One call of allow(): the answer and the map it leaves. */
  function Decide(o: Options, entries: seq<Entry>, call: Call): (bool, seq<Entry>) {
    var current := Get(entries, call.key);
    if Restarts(o, current, call.now) then (true, Set(EvictOldest(o, entries, call.key), call.key, Window(1, call.now)))
    else if current.value.attempts >= o.maximumAttempts then (false, entries)
    else (true, Set(Delete(entries, call.key), call.key, Window(current.value.attempts + 1, current.value.startedAt)))
  }

  /** The limiter of a single key, with no map and no bound. */
  function DecideAlone(o: Options, current: Option<Window>, now: int): (bool, Option<Window>) {
    if Restarts(o, current, now) then (true, Some(Window(1, now)))
    else if current.value.attempts >= o.maximumAttempts then (false, current)
    else (true, Some(Window(current.value.attempts + 1, current.value.startedAt)))
  }

  function After(o: Options, calls: seq<Call>): seq<Entry> {
    if calls == [] then [] else Decide(o, After(o, calls[..|calls| - 1]), calls[|calls| - 1]).1
  }

  function Answer(o: Options, calls: seq<Call>, i: nat): bool
    requires i < |calls|
  {
    Decide(o, After(o, calls[..i]), calls[i]).0
  }

  lemma EvictKeys(o: Options, entries: seq<Entry>, key: string)
    requires Unique(entries)
    ensures var r := EvictOldest(o, entries, key);
      && Unique(r) && Keys(r) <= Keys(entries) && |r| <= |entries|
      && (key !in Keys(entries) ==> |r| + 1 <= Max(|entries|, Capacity(o)))
      && (|entries| < Capacity(o) || key in Keys(entries) ==> r == entries)
  {
    GetAbsent(entries, key);
    if entries != [] {
      DeleteKeys(entries, entries[0].key);
      assert entries[0].key in Keys(entries);
    }
  }

  lemma EvictGet(o: Options, entries: seq<Entry>, key: string, k: string)
    requires Unique(entries) && k in Keys(EvictOldest(o, entries, key))
    ensures Get(EvictOldest(o, entries, key), k) == Get(entries, k)
  {
    if entries != [] {
      DeleteKeys(entries, entries[0].key);
      DeleteGet(entries, entries[0].key, k);
    }
  }

  lemma RestartKeys(o: Options, entries: seq<Entry>, key: string, window: Window)
    requires Unique(entries)
    ensures var r := Set(EvictOldest(o, entries, key), key, window);
      && Unique(r) && |r| <= Max(|entries|, Capacity(o))
      && Keys(r) <= Keys(entries) + {key} && key in Keys(r)
      && (|entries| < Capacity(o) || key in Keys(entries) ==> Keys(r) == Keys(entries) + {key})
  {
    EvictKeys(o, entries, key);
    SetKeys(EvictOldest(o, entries, key), key, window);
  }

  lemma CountKeys(entries: seq<Entry>, key: string, window: Window)
    requires Unique(entries) && key in Keys(entries)
    ensures var r := Set(Delete(entries, key), key, window);
      Unique(r) && |r| == |entries| && Keys(r) == Keys(entries)
  {
    DeleteKeys(entries, key);
    SetKeys(Delete(entries, key), key, window);
  }

  lemma DecideSize(o: Options, entries: seq<Entry>, call: Call)
    requires Unique(entries)
    ensures var r := Decide(o, entries, call).1; Unique(r) && |r| <= Max(|entries|, Capacity(o))
  {
    GetAbsent(entries, call.key);
    var current := Get(entries, call.key);
    if Restarts(o, current, call.now) {
      RestartKeys(o, entries, call.key, Window(1, call.now));
    } else {
      CountKeys(entries, call.key, Window(current.value.attempts + 1, current.value.startedAt));
    }
  }

  /** Whose entries one call leaves: a key only leaves when a new one finds the map full. */
  lemma DecideKeys(o: Options, entries: seq<Entry>, call: Call)
    requires Unique(entries)
    ensures var r := Decide(o, entries, call).1;
      && Keys(r) <= Keys(entries) + {call.key} && call.key in Keys(r)
      && (|entries| < Capacity(o) || call.key in Keys(entries) ==> Keys(r) == Keys(entries) + {call.key})
  {
    GetAbsent(entries, call.key);
    var current := Get(entries, call.key);
    if Restarts(o, current, call.now) {
      RestartKeys(o, entries, call.key, Window(1, call.now));
    } else {
      CountKeys(entries, call.key, Window(current.value.attempts + 1, current.value.startedAt));
    }
  }

  /** The calling key is answered from its own window, and the others keep theirs. */
  lemma DecideGet(o: Options, entries: seq<Entry>, call: Call, k: string)
    requires Unique(entries)
    ensures var (answer, r) := Decide(o, entries, call);
      && (answer, Get(r, call.key)) == DecideAlone(o, Get(entries, call.key), call.now)
      && (k != call.key && k in Keys(r) ==> Get(r, k) == Get(entries, k))
  {
    GetAbsent(entries, call.key);
    var current := Get(entries, call.key);
    if Restarts(o, current, call.now) {
      var kept := EvictOldest(o, entries, call.key);
      EvictKeys(o, entries, call.key);
      SetKeys(kept, call.key, Window(1, call.now));
      SetGet(kept, call.key, Window(1, call.now), call.key);
      SetGet(kept, call.key, Window(1, call.now), k);
      if k != call.key && k in Keys(kept) {
        EvictGet(o, entries, call.key, k);
      }
    } else if current.value.attempts < o.maximumAttempts {
      var window := Window(current.value.attempts + 1, current.value.startedAt);
      DeleteKeys(entries, call.key);
      DeleteGet(entries, call.key, k);
      SetGet(Delete(entries, call.key), call.key, window, call.key);
      SetGet(Delete(entries, call.key), call.key, window, k);
    }
  }

  /** The map never grows past its bound, and has one entry for a key. */
  lemma {:induction false} SizeIsBounded(o: Options, calls: seq<Call>)
    ensures Unique(After(o, calls)) && |After(o, calls)| <= Capacity(o)
  {
    if calls != [] {
      SizeIsBounded(o, calls[..|calls| - 1]);
      DecideSize(o, After(o, calls[..|calls| - 1]), calls[|calls| - 1]);
    }
  }

  /** The window of a key under the single-key limiter, which sees only the key's own calls. */
  function AloneAfter(o: Options, calls: seq<Call>, key: string): Option<Window> {
    if calls == [] then None
    else
      var last := calls[|calls| - 1];
      var before := AloneAfter(o, calls[..|calls| - 1], key);
      if last.key == key then DecideAlone(o, before, last.now).1 else before
  }

  function AloneAnswer(o: Options, calls: seq<Call>, i: nat): bool
    requires i < |calls|
  {
    DecideAlone(o, AloneAfter(o, calls[..i], calls[i].key), calls[i].now).0
  }

  /** No call of another key pushes the key out of the map. */
  ghost predicate NeverEvicted(o: Options, calls: seq<Call>, key: string) {
    forall i: nat | i < |calls| :: key in Keys(After(o, calls[..i])) ==> key in Keys(After(o, calls[..i + 1]))
  }

  lemma {:induction false} WindowIsItsOwn(o: Options, calls: seq<Call>, key: string)
    requires NeverEvicted(o, calls, key)
    ensures Get(After(o, calls), key) == AloneAfter(o, calls, key)
  {
    if calls != [] {
      var before, last := calls[..|calls| - 1], calls[|calls| - 1];
      forall i: nat | i < |before|
        ensures key in Keys(After(o, before[..i])) ==> key in Keys(After(o, before[..i + 1]))
      {
        assert before[..i] == calls[..i] && before[..i + 1] == calls[..i + 1];
      }
      WindowIsItsOwn(o, before, key);
      SizeIsBounded(o, before);
      SizeIsBounded(o, calls);
      DecideKeys(o, After(o, before), last);
      DecideGet(o, After(o, before), last, key);
      assert calls[..|before|] == before && calls[..|before| + 1] == calls;
      GetAbsent(After(o, before), key);
      GetAbsent(After(o, calls), key);
    }
  }

  /** A key that is never evicted is answered exactly as if it had a limiter of its own. */
  lemma AnswersAsAlone(o: Options, calls: seq<Call>, i: nat)
    requires i < |calls| && NeverEvicted(o, calls[..i], calls[i].key)
    ensures Answer(o, calls, i) == AloneAnswer(o, calls, i)
  {
    WindowIsItsOwn(o, calls[..i], calls[i].key);
    SizeIsBounded(o, calls[..i]);
    DecideGet(o, After(o, calls[..i]), calls[i], calls[i].key);
  }

  function CalledKeys(calls: seq<Call>): set<string> {
    set call | call in calls :: call.key
  }

  lemma {:induction false} EntriesAreUnique(entries: seq<Entry>)
    requires Unique(entries)
    ensures |Keys(entries)| == |entries|
  {
    if entries != [] {
      var rest := entries[..|entries| - 1];
      EntriesAreUnique(rest);
      assert Keys(entries) == Keys(rest) + {entries[|entries| - 1].key};
      assert entries[|entries| - 1].key !in Keys(rest);
    }
  }

  lemma SubsetIsNotLarger(a: set<string>, b: set<string>)
    requires a <= b
    ensures |a| <= |b|
  {
    assert b == a + (b - a);
  }

  lemma {:induction false} EveryKeyStays(o: Options, calls: seq<Call>)
    requires |CalledKeys(calls)| <= Capacity(o)
    ensures Keys(After(o, calls)) == CalledKeys(calls)
  {
    if calls != [] {
      var before, last := calls[..|calls| - 1], calls[|calls| - 1];
      assert calls == before + [last];
      assert CalledKeys(calls) == CalledKeys(before) + {last.key};
      SubsetIsNotLarger(CalledKeys(before), CalledKeys(calls));
      EveryKeyStays(o, before);
      SizeIsBounded(o, before);
      EntriesAreUnique(After(o, before));
      if last.key !in CalledKeys(before) {
        assert |CalledKeys(calls)| == |CalledKeys(before)| + 1;
      }
      DecideKeys(o, After(o, before), last);
    }
  }

  /** With at most maximumKeys distinct keys the bounded, reordering map answers every call as
      unbounded single-key limiters would; a map of no keys still holds one. */
  lemma FewKeysAnswerAsAlone(o: Options, calls: seq<Call>, i: nat)
    requires |CalledKeys(calls)| <= Capacity(o) && i < |calls|
    ensures Answer(o, calls, i) == AloneAnswer(o, calls, i)
  {
    var key := calls[i].key;
    forall j: nat | j < i
      ensures key in Keys(After(o, calls[..i][..j])) ==> key in Keys(After(o, calls[..i][..j + 1]))
    {
      assert calls[..i][..j] == calls[..j] && calls[..i][..j + 1] == calls[..j + 1];
      SubsetIsNotLarger(CalledKeys(calls[..j]), CalledKeys(calls));
      SubsetIsNotLarger(CalledKeys(calls[..j + 1]), CalledKeys(calls));
      EveryKeyStays(o, calls[..j]);
      EveryKeyStays(o, calls[..j + 1]);
    }
    AnswersAsAlone(o, calls, i);
  }

  // ---------- what eviction forgets ----------

  /** The keys of the map, in its order. */
  ghost predicate HasKeys(entries: seq<Entry>, keys: seq<string>) {
    |entries| == |keys| && forall i: nat | i < |entries| :: entries[i].key == keys[i]
  }

  function KeysOf(calls: seq<Call>): (keys: seq<string>)
    ensures |keys| == |calls| && forall i: nat | i < |calls| :: keys[i] == calls[i].key
  {
    seq(|calls|, i requires 0 <= i < |calls| => calls[i].key)
  }

  /** The last n elements, or all of them. */
  function Last(keys: seq<string>, n: nat): seq<string> {
    if |keys| <= n then keys else keys[|keys| - n..]
  }

  lemma EvictFirst(o: Options, entries: seq<Entry>, keys: seq<string>, key: string)
    requires HasKeys(entries, keys) && key !in keys && |keys| <= Capacity(o)
    ensures Get(entries, key).None?
    ensures EvictOldest(o, entries, key) == if |keys| == Capacity(o) then entries[1..] else entries
  {
    assert forall i: nat | i < |keys| :: keys[i] in keys;
    assert Get(entries, key).None?;
    if |keys| == Capacity(o) {
      assert PlaceOf(entries, entries[0].key) == 0;
    }
  }

  lemma SetNew(entries: seq<Entry>, keys: seq<string>, key: string, window: Window)
    requires HasKeys(entries, keys) && key !in keys
    ensures HasKeys(Set(entries, key, window), keys + [key])
  {
    assert forall i: nat | i < |keys| :: keys[i] in keys;
    assert PlaceOf(entries, key) == |entries|;
  }

  /** A new key is granted and goes last, and pushes the first one out of a full map. */
  lemma NewKeyGoesLast(o: Options, entries: seq<Entry>, keys: seq<string>, call: Call)
    requires HasKeys(entries, keys) && call.key !in keys && |keys| <= Capacity(o)
    ensures Decide(o, entries, call).0
    ensures HasKeys(Decide(o, entries, call).1, (if |keys| == Capacity(o) then keys[1..] else keys) + [call.key])
  {
    var kept := if |keys| == Capacity(o) then entries[1..] else entries;
    EvictFirst(o, entries, keys, call.key);
    SetNew(kept, if |keys| == Capacity(o) then keys[1..] else keys, call.key, Window(1, call.now));
  }

  /** Every call's key differs from the keys of the calls just before it, as many as the map holds. */
  ghost predicate Spaced(o: Options, calls: seq<Call>) {
    forall i: nat, j: nat | i < j < |calls| && j - i <= Capacity(o) :: calls[i].key != calls[j].key
  }

  lemma LastExtends(keys: seq<string>, key: string, n: nat)
    requires n > 0
    ensures Last(keys + [key], n) == (if |keys| >= n then Last(keys, n)[1..] else keys) + [key]
  {
  }

  lemma SpacedKeyIsNew(o: Options, before: seq<Call>, last: Call)
    requires Spaced(o, before + [last])
    ensures last.key !in Last(KeysOf(before), Capacity(o))
  {
    var calls, keys := before + [last], KeysOf(before);
    assert calls[|before|] == last;
    forall i: nat | i < |keys| && |keys| - i <= Capacity(o) ensures keys[i] != last.key {
      assert calls[i] == before[i];
    }
  }

  /** Then the map is exactly the last keys called, in order. */
  lemma {:induction false} SpacedKeysRotate(o: Options, calls: seq<Call>)
    requires Spaced(o, calls)
    ensures HasKeys(After(o, calls), Last(KeysOf(calls), Capacity(o)))
  {
    if calls != [] {
      var before, last := calls[..|calls| - 1], calls[|calls| - 1];
      assert calls == before + [last];
      SpacedKeysRotate(o, before);
      SpacedKeyIsNew(o, before, last);
      LastExtends(KeysOf(before), last.key, Capacity(o));
      assert KeysOf(calls) == KeysOf(before) + [last.key];
      NewKeyGoesLast(o, After(o, before), Last(KeysOf(before), Capacity(o)), last);
    }
  }

  /** Keys that evict each other are never refused, however many the map holds, whatever the limit
      and however close the calls. */
  lemma EvictionForgetsAttempts(o: Options, calls: seq<Call>, i: nat)
    requires Spaced(o, calls) && i < |calls|
    ensures Answer(o, calls, i)
  {
    var before := calls[..i];
    assert calls[..i + 1] == before + [calls[i]];
    SpacedKeysRotate(o, before);
    SpacedKeyIsNew(o, before, calls[i]);
    NewKeyGoesLast(o, After(o, before), Last(KeysOf(before), Capacity(o)), calls[i]);
  }

  // ---------- when the map answers as single-key limiters ----------

  ghost predicate AnsweredAsAlone(o: Options, calls: seq<Call>) {
    forall i: nat | i < |calls| :: Answer(o, calls, i) == AloneAnswer(o, calls, i)
  }

  ghost predicate Nondecreasing(calls: seq<Call>) {
    forall i: nat, j: nat | i < j < |calls| :: calls[i].now <= calls[j].now
  }

  ghost predicate Distinct(keys: seq<string>) {
    forall i: nat, j: nat | i < j < |keys| :: keys[i] != keys[j]
  }

  function Burst(key: string, now: int, count: nat): seq<Call> {
    seq(count, i => Call(key, now))
  }

  /** One call of each key, all at once. */
  function Each(keys: seq<string>): seq<Call> {
    seq(|keys|, i requires 0 <= i < |keys| => Call(keys[i], 0))
  }

  /** The first key uses up its window, all others are called, and the first one again. */
  function Overflow(o: Options, keys: seq<string>): seq<Call>
    requires keys != []
  {
    Burst(keys[0], 0, Max(1, o.maximumAttempts)) + Each(keys[1..]) + [Call(keys[0], 0)]
  }

  lemma {:induction false} BurstFillsWindow(o: Options, key: string, count: nat)
    requires 0 < count <= Max(1, o.maximumAttempts) && o.windowMilliseconds > 0
    ensures After(o, Burst(key, 0, count)) == [Entry(key, Window(count, 0))]
    ensures AloneAfter(o, Burst(key, 0, count), key) == Some(Window(count, 0))
  {
    var calls := Burst(key, 0, count);
    assert calls[..count - 1] == Burst(key, 0, count - 1);
    if count > 1 {
      BurstFillsWindow(o, key, count - 1);
    } else {
      assert Burst(key, 0, 0) == [];
    }
  }

  lemma EachEndsWith(calls: seq<Call>, others: seq<string>)
    requires others != []
    ensures calls + Each(others) == calls + Each(others[..|others| - 1]) + [Call(others[|others| - 1], 0)]
  {
  }

  lemma DistinctLast(first: string, others: seq<string>)
    requires others != [] && Distinct([first] + others)
    ensures Distinct([first] + others[..|others| - 1]) && others[|others| - 1] !in [first] + others[..|others| - 1]
  {
    var all, fewer := [first] + others, [first] + others[..|others| - 1];
    assert forall i: nat | i < |fewer| :: fewer[i] == all[i];
    assert all[|fewer|] == others[|others| - 1];
  }

  lemma AfterOne(o: Options, calls: seq<Call>, call: Call)
    ensures After(o, calls + [call]) == Decide(o, After(o, calls), call).1
    ensures Answer(o, calls + [call], |calls|) == Decide(o, After(o, calls), call).0
  {
    assert (calls + [call])[..|calls|] == calls;
  }

  lemma NewCallGoesLast(o: Options, calls: seq<Call>, keys: seq<string>, call: Call)
    requires HasKeys(After(o, calls), keys) && call.key !in keys && |keys| <= Capacity(o)
    ensures Answer(o, calls + [call], |calls|)
    ensures HasKeys(After(o, calls + [call]), (if |keys| == Capacity(o) then keys[1..] else keys) + [call.key])
  {
    AfterOne(o, calls, call);
    NewKeyGoesLast(o, After(o, calls), keys, call);
  }

  /** The keys held after the first one and then the others were called. */
  function Held(o: Options, first: string, others: seq<string>): seq<string> {
    if |others| < Capacity(o) then [first] + others else others
  }

  lemma HeldGrows(o: Options, first: string, others: seq<string>)
    requires others != [] && |others| <= Capacity(o)
    ensures var keys := Held(o, first, others[..|others| - 1]);
      && keys == [first] + others[..|others| - 1]
      && Held(o, first, others) == (if |keys| == Capacity(o) then keys[1..] else keys) + [others[|others| - 1]]
  {
    assert others[..|others| - 1] + [others[|others| - 1]] == others;
    assert ([first] + others[..|others| - 1])[1..] == others[..|others| - 1];
  }

  lemma {:induction false} OthersGoLast(o: Options, first: string, others: seq<string>, calls: seq<Call>)
    requires HasKeys(After(o, calls), [first]) && Distinct([first] + others) && |others| <= Capacity(o)
    ensures HasKeys(After(o, calls + Each(others)), Held(o, first, others))
    decreases |others|
  {
    if others == [] {
      assert calls + Each(others) == calls && [first] + others == [first];
    } else {
      var fewer, key := others[..|others| - 1], others[|others| - 1];
      DistinctLast(first, others);
      OthersGoLast(o, first, fewer, calls);
      EachEndsWith(calls, others);
      HeldGrows(o, first, others);
      NewCallGoesLast(o, calls + Each(fewer), Held(o, first, fewer), Call(key, 0));
    }
  }

  lemma {:induction false} OthersLeaveAlone(o: Options, key: string, others: seq<string>, calls: seq<Call>)
    requires key !in others
    ensures AloneAfter(o, calls + Each(others), key) == AloneAfter(o, calls, key)
    decreases |others|
  {
    if others == [] {
      assert calls + Each(others) == calls;
    } else {
      var all := calls + Each(others);
      assert all[..|all| - 1] == calls + Each(others[..|others| - 1]);
      OthersLeaveAlone(o, key, others[..|others| - 1], calls);
    }
  }

  lemma OverflowIsGranted(o: Options, keys: seq<string>)
    requires Distinct(keys) && |keys| == Capacity(o) + 1 && o.windowMilliseconds > 0
    ensures var calls := Overflow(o, keys); Answer(o, calls, |calls| - 1)
  {
    var burst, others := Burst(keys[0], 0, Max(1, o.maximumAttempts)), keys[1..];
    assert [keys[0]] + others == keys;
    BurstFillsWindow(o, keys[0], Max(1, o.maximumAttempts));
    OthersGoLast(o, keys[0], others, burst);
    NewCallGoesLast(o, burst + Each(others), others, Call(keys[0], 0));
  }

  lemma OverflowIsRefusedAlone(o: Options, keys: seq<string>)
    requires Distinct(keys) && keys != [] && o.windowMilliseconds > 0
    ensures var calls := Overflow(o, keys); !AloneAnswer(o, calls, |calls| - 1)
  {
    var burst, others := Burst(keys[0], 0, Max(1, o.maximumAttempts)), keys[1..];
    var calls := Overflow(o, keys);
    assert calls[..|calls| - 1] == burst + Each(others);
    BurstFillsWindow(o, keys[0], Max(1, o.maximumAttempts));
    OthersLeaveAlone(o, keys[0], others, burst);
  }

  lemma {:induction false} PickKeys(keys: set<string>, n: nat) returns (picked: seq<string>)
    requires n <= |keys|
    ensures |picked| == n && Distinct(picked) && forall key <- picked :: key in keys
  {
    if n == 0 {
      picked := [];
    } else {
      var key :| key in keys;
      assert |keys - {key}| == |keys| - 1;
      var rest := PickKeys(keys - {key}, n - 1);
      picked := [key] + rest;
    }
  }

  lemma OverflowIsAtOnce(o: Options, keys: seq<string>)
    requires keys != []
    ensures Nondecreasing(Overflow(o, keys))
  {
    assert forall call <- Overflow(o, keys) :: call.now == 0;
  }

  lemma OverflowIsOver(o: Options, keys: seq<string>, from: set<string>)
    requires keys != [] && forall key <- keys :: key in from
    ensures CalledKeys(Overflow(o, keys)) <= from
  {
    var calls := Overflow(o, keys);
    forall call | call in calls ensures call.key in from {
      var i: nat :| i < |calls| && calls[i] == call;
      assert call.key in keys;
    }
  }

  /** For callers from a set of keys, the map answers every sequence of calls as single-key
      limiters would exactly when it has room for all of the keys; clocks that never go back make
      no difference to that. */
  lemma AnsweredAsAloneExactly(o: Options, keys: set<string>)
    requires o.windowMilliseconds > 0
    ensures (forall calls: seq<Call> | CalledKeys(calls) <= keys :: AnsweredAsAlone(o, calls))
      <==> |keys| <= Capacity(o)
    ensures (forall calls: seq<Call> | CalledKeys(calls) <= keys && Nondecreasing(calls) :: AnsweredAsAlone(o, calls))
      <==> |keys| <= Capacity(o)
  {
    if |keys| <= Capacity(o) {
      forall calls: seq<Call>, i: nat | CalledKeys(calls) <= keys && i < |calls|
        ensures Answer(o, calls, i) == AloneAnswer(o, calls, i)
      {
        SubsetIsNotLarger(CalledKeys(calls), keys);
        FewKeysAnswerAsAlone(o, calls, i);
      }
    } else {
      var picked := PickKeys(keys, Capacity(o) + 1);
      var calls := Overflow(o, picked);
      OverflowIsOver(o, picked, keys);
      OverflowIsGranted(o, picked);
      OverflowIsRefusedAlone(o, picked);
      OverflowIsAtOnce(o, picked);
      assert !AnsweredAsAlone(o, calls);
    }
  }

  // ---------- how many attempts are granted ----------

  /** The attempts of the key that the map granted from t until one window length later. */
  function Granted(o: Options, calls: seq<Call>, key: string, t: int): nat {
    if calls == [] then 0
    else
      var before, last := calls[..|calls| - 1], calls[|calls| - 1];
      var counts := last.key == key && t <= last.now < t + o.windowMilliseconds && Decide(o, After(o, before), last).0;
      Granted(o, before, key, t) + if counts then 1 else 0
  }

  /** The same for a limiter of the key's own. */
  function GrantedAlone(o: Options, calls: seq<Call>, key: string, t: int): nat {
    if calls == [] then 0
    else
      var before, last := calls[..|calls| - 1], calls[|calls| - 1];
      var counts := last.key == key && t <= last.now < t + o.windowMilliseconds
        && DecideAlone(o, AloneAfter(o, before, key), last.now).0;
      GrantedAlone(o, before, key, t) + if counts then 1 else 0
  }

  lemma NeverEvictedBefore(o: Options, calls: seq<Call>, n: nat, key: string)
    requires NeverEvicted(o, calls, key) && n <= |calls|
    ensures NeverEvicted(o, calls[..n], key)
  {
    forall i: nat | i < n
      ensures key in Keys(After(o, calls[..n][..i])) ==> key in Keys(After(o, calls[..n][..i + 1]))
    {
      assert calls[..n][..i] == calls[..i] && calls[..n][..i + 1] == calls[..i + 1];
    }
  }

  lemma DecidedAsAlone(o: Options, calls: seq<Call>, call: Call)
    requires NeverEvicted(o, calls, call.key)
    ensures Decide(o, After(o, calls), call).0 == DecideAlone(o, AloneAfter(o, calls, call.key), call.now).0
  {
    SizeIsBounded(o, calls);
    WindowIsItsOwn(o, calls, call.key);
    DecideGet(o, After(o, calls), call, call.key);
  }

  /** A key that is never evicted is granted what its own limiter would grant. */
  lemma {:induction false} GrantedAsAlone(o: Options, calls: seq<Call>, key: string, t: int)
    requires NeverEvicted(o, calls, key)
    ensures Granted(o, calls, key, t) == GrantedAlone(o, calls, key, t)
  {
    if calls != [] {
      NeverEvictedBefore(o, calls, |calls| - 1, key);
      GrantedAsAlone(o, calls[..|calls| - 1], key, t);
      if calls[|calls| - 1].key == key {
        DecidedAsAlone(o, calls[..|calls| - 1], calls[|calls| - 1]);
      }
    }
  }

  /** How the attempts granted around t depend on where t lies relative to the current window. */
  ghost predicate GrantsFit(o: Options, current: Option<Window>, granted: nat, t: int) {
    var most := Max(1, o.maximumAttempts);
    match current
    case None => granted == 0
    case Some(Window(attempts, startedAt)) =>
      && 1 <= attempts <= most
      && (if startedAt < t then granted <= attempts - 1
          else if startedAt < t + o.windowMilliseconds then granted <= most - 1 + attempts
          else granted <= 2 * most - 1)
      && (o.windowMilliseconds > 0 && t >= startedAt + o.windowMilliseconds ==> granted == 0)
      && (o.windowMilliseconds > 0 && t == startedAt ==> granted == attempts)
  }

  lemma {:induction false} GrantsAlwaysFit(o: Options, calls: seq<Call>, key: string, t: int)
    requires Nondecreasing(calls)
    ensures var current := AloneAfter(o, calls, key);
      && GrantsFit(o, current, GrantedAlone(o, calls, key, t), t)
      && (calls != [] && calls[|calls| - 1].now < t ==> GrantedAlone(o, calls, key, t) == 0)
      && (current.Some? ==> calls != [] && current.value.startedAt <= calls[|calls| - 1].now)
  {
    if calls != [] {
      var before, last := calls[..|calls| - 1], calls[|calls| - 1];
      GrantsAlwaysFit(o, before, key, t);
      assert before != [] ==> before[|before| - 1].now <= last.now;
    }
  }

  /** While the key is not evicted, a window grants exactly as many attempts as its counter says,
      and never more than allowed. */
  lemma WindowGrantsAtMost(o: Options, calls: seq<Call>, key: string)
    requires Nondecreasing(calls) && NeverEvicted(o, calls, key)
    requires o.windowMilliseconds > 0 && Get(After(o, calls), key).Some?
    ensures var current := Get(After(o, calls), key).value;
      Granted(o, calls, key, current.startedAt) == current.attempts <= Max(1, o.maximumAttempts)
  {
    WindowIsItsOwn(o, calls, key);
    var t := AloneAfter(o, calls, key).value.startedAt;
    GrantedAsAlone(o, calls, key, t);
    GrantsAlwaysFit(o, calls, key, t);
  }

  /** While the key is not evicted, any interval of one window length sees fewer than twice the
      allowed attempts granted. */
  lemma IntervalGrantsAtMost(o: Options, calls: seq<Call>, key: string, t: int)
    requires Nondecreasing(calls) && NeverEvicted(o, calls, key)
    ensures Granted(o, calls, key, t) <= 2 * Max(1, o.maximumAttempts) - 1
  {
    GrantedAsAlone(o, calls, key, t);
    GrantsAlwaysFit(o, calls, key, t);
  }

  lemma OneMoreGranted(o: Options, calls: seq<Call>, key: string, now: int, t: int)
    ensures var all := calls + [Call(key, now)];
      var decision := DecideAlone(o, AloneAfter(o, calls, key), now);
      && AloneAfter(o, all, key) == decision.1
      && GrantedAlone(o, all, key, t) == GrantedAlone(o, calls, key, t)
        + if decision.0 && t <= now < t + o.windowMilliseconds then 1 else 0
  {
    assert (calls + [Call(key, now)])[..|calls|] == calls;
  }

  /** A burst that fits into the current window is granted and counted there. */
  lemma {:induction false} BurstIsGranted(
      o: Options, calls: seq<Call>, key: string, now: int, count: nat, t: int, current: Window)
    requires AloneAfter(o, calls, key) == Some(current) && now - current.startedAt < o.windowMilliseconds
    requires current.attempts + count <= o.maximumAttempts && t <= now < t + o.windowMilliseconds
    ensures var all := calls + Burst(key, now, count);
      && AloneAfter(o, all, key) == Some(Window(current.attempts + count, current.startedAt))
      && GrantedAlone(o, all, key, t) == GrantedAlone(o, calls, key, t) + count
    decreases count
  {
    if count == 0 {
      assert calls + Burst(key, now, 0) == calls;
    } else {
      var next := calls + [Call(key, now)];
      OneMoreGranted(o, calls, key, now, t);
      BurstIsGranted(o, next, key, now, count - 1, t, current.(attempts := current.attempts + 1));
      assert calls + Burst(key, now, count) == next + Burst(key, now, count - 1);
    }
  }

  lemma OwnCallIsKept(o: Options, calls: seq<Call>, call: Call)
    ensures call.key in Keys(After(o, calls + [call]))
  {
    SizeIsBounded(o, calls);
    AfterOne(o, calls, call);
    DecideKeys(o, After(o, calls), call);
  }

  lemma OwnCallsNeverEvict(o: Options, calls: seq<Call>, key: string)
    requires forall call <- calls :: call.key == key
    ensures NeverEvicted(o, calls, key)
  {
    forall i: nat | i < |calls|
      ensures key in Keys(After(o, calls[..i])) ==> key in Keys(After(o, calls[..i + 1]))
    {
      assert calls[i] in calls && calls[..i + 1] == calls[..i] + [calls[i]];
      OwnCallIsKept(o, calls[..i], calls[i]);
    }
  }

  /** One attempt, a burst at the end of its window, and a full burst right after it. */
  lemma TwoBursts(o: Options, key: string, start: int) returns (calls: seq<Call>)
    requires o.maximumAttempts > 1 && o.windowMilliseconds > 1
    ensures Nondecreasing(calls) && forall call <- calls :: call.key == key
    ensures GrantedAlone(o, calls, key, start + o.windowMilliseconds - 1) == 2 * o.maximumAttempts - 1
  {
    var end, more := start + o.windowMilliseconds, o.maximumAttempts - 1;
    var first := [Call(key, start)];
    assert [] + first == first;
    OneMoreGranted(o, [], key, start, end - 1);
    BurstIsGranted(o, first, key, end - 1, more, end - 1, Window(1, start));
    var full := first + Burst(key, end - 1, more);
    OneMoreGranted(o, full, key, end, end - 1);
    BurstIsGranted(o, full + [Call(key, end)], key, end, more, end - 1, Window(1, end));
    calls := full + [Call(key, end)] + Burst(key, end, more);
  }

  lemma OwnCallsGrantedAsAlone(o: Options, calls: seq<Call>, key: string, t: int)
    requires forall call <- calls :: call.key == key
    ensures NeverEvicted(o, calls, key) && Granted(o, calls, key, t) == GrantedAlone(o, calls, key, t)
  {
    OwnCallsNeverEvict(o, calls, key);
    GrantedAsAlone(o, calls, key, t);
  }

  /** The bound of `IntervalGrantsAtMost` is attained whenever windows last longer than one
      millisecond, by a key that is never evicted. */
  lemma IntervalBoundIsAttained(o: Options, key: string, t: int)
    requires o.maximumAttempts > 1 && o.windowMilliseconds > 1
    ensures exists calls: seq<Call> ::
      Nondecreasing(calls) && NeverEvicted(o, calls, key) && Granted(o, calls, key, t) == 2 * o.maximumAttempts - 1
  {
    var calls := TwoBursts(o, key, t + 1 - o.windowMilliseconds);
    OwnCallsGrantedAsAlone(o, calls, key, t);
  }

  // ---------- the running limiter ----------

  class FixedWindowLimiter {
    const options: Options
    var windows: seq<Entry>
    ghost var calls: seq<Call>

    /** The map is what the calls so far have left, so all results about calls hold of it. */
    ghost predicate Valid()
      reads this
    {
      windows == After(options, calls)
    }

    constructor (options: Options)
      ensures Valid() && this.options == options && calls == []
    {
      this.options := options;
      windows, calls := [], [];
    }

    method Allow(key: string, now: int) returns (allowed: bool)
      requires Valid()
      modifies this
      ensures Valid() && calls == old(calls) + [Call(key, now)]
      ensures allowed == Answer(options, calls, |old(calls)|)
      ensures windows == Decide(options, old(windows), Call(key, now)).1
    {
      AfterOne(options, calls, Call(key, now));
      calls := calls + [Call(key, now)];
      var current := Get(windows, key);
      if current.None? || now - current.value.startedAt >= options.windowMilliseconds {
        if current.None? && |windows| >= options.maximumKeys {
          if windows != [] {
            windows := Delete(windows, windows[0].key);
          }
        }
        windows := Set(windows, key, Window(1, now));
        return true;
      }
      if current.value.attempts >= options.maximumAttempts { return false; }
      windows := Delete(windows, key);
      windows := Set(windows, key, Window(current.value.attempts + 1, current.value.startedAt));
      return true;
    }
  }
}
