/** The order of the keys in the limiter's map, and which key a new one pushes out: the one whose
    last insertion or counted attempt lies furthest back. */
module LimiterOrder {
  import opened Wrappers
  import opened RateLimiter

  /** The attempt is counted in the key's current window, which neither has run out nor is full. */
  predicate Counts(o: Options, current: Option<Window>, now: int) {
    && current.Some? && now < current.value.startedAt + o.windowMilliseconds
    && current.value.attempts < o.maximumAttempts
  }

  function Without(keys: seq<string>, key: string): seq<string> {
    if keys == [] then [] else (if keys[0] == key then [] else [keys[0]]) + Without(keys[1..], key)
  }

  /** The keys after a call: a counted attempt moves its key to the end, a refusal or the restart of
      a present key's window changes nothing, and a new key goes last and pushes the first one out
      of a full map. */
  function Reordered(o: Options, keys: seq<string>, key: string, counted: bool): seq<string> {
    if key !in keys then (if |keys| == Capacity(o) then keys[1..] else keys) + [key]
    else if counted then Without(keys, key) + [key]
    else keys
  }

  lemma {:induction false} WithoutAbsent(keys: seq<string>, key: string)
    requires key !in keys
    ensures Without(keys, key) == keys
  {
    if keys != [] {
      WithoutAbsent(keys[1..], key);
    }
  }

  lemma {:induction false} WithoutElements(keys: seq<string>, key: string, k: string)
    ensures k in Without(keys, key) <==> k in keys && k != key
  {
    if keys != [] {
      WithoutElements(keys[1..], key, k);
    }
  }

  lemma TailHasKeys(entries: seq<Entry>, keys: seq<string>)
    requires HasKeys(entries, keys) && Distinct(keys) && keys != []
    ensures HasKeys(entries[1..], keys[1..]) && Distinct(keys[1..]) && keys[0] !in keys[1..]
  {
  }

  lemma DeleteStep(entries: seq<Entry>, key: string)
    requires entries != []
    ensures Delete(entries, key) ==
      if entries[0].key == key then entries[1..] else [entries[0]] + Delete(entries[1..], key)
  {
  }

  lemma HasKeysCons(entry: Entry, entries: seq<Entry>, keys: seq<string>)
    requires HasKeys(entries, keys)
    ensures HasKeys([entry] + entries, [entry.key] + keys)
  {
  }

  lemma {:induction false} DeleteOrder(entries: seq<Entry>, keys: seq<string>, key: string)
    requires HasKeys(entries, keys) && Distinct(keys)
    ensures HasKeys(Delete(entries, key), Without(keys, key))
  {
    if keys != [] {
      TailHasKeys(entries, keys);
      DeleteStep(entries, key);
      if keys[0] == key {
        WithoutAbsent(keys[1..], key);
      } else {
        DeleteOrder(entries[1..], keys[1..], key);
        HasKeysCons(entries[0], Delete(entries[1..], key), Without(keys[1..], key));
      }
    }
  }

  lemma PresentHasWindow(entries: seq<Entry>, keys: seq<string>, key: string)
    requires HasKeys(entries, keys)
    ensures Get(entries, key).Some? <==> key in keys
  {
    GetAbsent(entries, key);
    if key in keys {
      var i: nat :| i < |keys| && keys[i] == key;
      assert entries[i].key == key;
    }
  }

  lemma SetOrder(entries: seq<Entry>, keys: seq<string>, key: string, window: Window)
    requires HasKeys(entries, keys)
    ensures HasKeys(Set(entries, key, window), if key in keys then keys else keys + [key])
  {
    PresentHasWindow(entries, keys, key);
  }

  /** The order law of one call. */
  lemma CallReorders(o: Options, entries: seq<Entry>, keys: seq<string>, call: Call)
    requires HasKeys(entries, keys) && Distinct(keys) && |keys| <= Capacity(o)
    ensures HasKeys(Decide(o, entries, call).1,
      Reordered(o, keys, call.key, Counts(o, Get(entries, call.key), call.now)))
  {
    var current := Get(entries, call.key);
    PresentHasWindow(entries, keys, call.key);
    if call.key !in keys {
      NewKeyGoesLast(o, entries, keys, call);
    } else if Counts(o, current, call.now) {
      var window := Window(current.value.attempts + 1, current.value.startedAt);
      DeleteOrder(entries, keys, call.key);
      WithoutElements(keys, call.key, call.key);
      SetOrder(Delete(entries, call.key), Without(keys, call.key), call.key, window);
    } else {
      SetOrder(entries, keys, call.key, Window(1, call.now));
    }
  }

  /** The answer and the key's window after a call, by its window before: an attempt is refused
      exactly when its window is running and full. */
  lemma CallAnsweredExactly(o: Options, entries: seq<Entry>, call: Call)
    requires Unique(entries)
    ensures var (answer, after) := Decide(o, entries, call);
      var current := Get(entries, call.key);
      var running := current.Some? && call.now < current.value.startedAt + o.windowMilliseconds;
      && (answer <==> !(running && current.value.attempts >= o.maximumAttempts))
      && (answer && !running ==> Get(after, call.key) == Some(Window(1, call.now)))
      && (answer && running ==>
        Get(after, call.key) == Some(Window(current.value.attempts + 1, current.value.startedAt)))
      && (!answer ==> after == entries)
  {
    DecideGet(o, entries, call, call.key);
  }

  // ---------- over runs ----------

  /** The window of the key that is called next. */
  function Current(o: Options, calls: seq<Call>, key: string): Option<Window> {
    Get(After(o, calls), key)
  }

  /** The number of the key's last call that inserted it or was counted, or -1. Refused calls and
      restarts of a present key's window are passed over. */
  function LastPlaced(o: Options, calls: seq<Call>, key: string): int {
    if calls == [] then -1
    else
      var before, last := calls[..|calls| - 1], calls[|calls| - 1];
      var current := Current(o, before, key);
      if last.key == key && (current.None? || Counts(o, current, last.now)) then |before|
      else LastPlaced(o, before, key)
  }

  lemma {:induction false} PlacedBefore(o: Options, calls: seq<Call>, key: string)
    ensures -1 <= LastPlaced(o, calls, key) < |calls| || calls == []
  {
    if calls != [] {
      PlacedBefore(o, calls[..|calls| - 1], key);
    }
  }

  lemma PlacedNext(o: Options, calls: seq<Call>, call: Call, key: string)
    ensures var placed := Current(o, calls, key).None? || Counts(o, Current(o, calls, key), call.now);
      LastPlaced(o, calls + [call], key) == if call.key == key && placed then |calls| else LastPlaced(o, calls, key)
  {
    assert (calls + [call])[..|calls|] == calls;
  }

  ghost predicate Ordered(keys: seq<string>, at: string -> int) {
    forall i: nat, j: nat | i < j < |keys| :: at(keys[i]) < at(keys[j])
  }

  lemma OrderedCons(key: string, keys: seq<string>, at: string -> int)
    requires Ordered(keys, at) && forall k <- keys :: at(key) < at(k)
    ensures Ordered([key] + keys, at)
  {
  }

  lemma {:induction false} WithoutOrdered(keys: seq<string>, key: string, at: string -> int)
    requires Ordered(keys, at)
    ensures Ordered(Without(keys, key), at)
  {
    if keys != [] {
      WithoutOrdered(keys[1..], key, at);
      assert forall k <- keys[1..] :: at(keys[0]) < at(k);
      forall k | k in Without(keys[1..], key) ensures at(keys[0]) < at(k) {
        WithoutElements(keys[1..], key, k);
      }
      OrderedCons(keys[0], Without(keys[1..], key), at);
    }
  }

  lemma OrderedAppend(keys: seq<string>, key: string, at: string -> int, later: string -> int)
    requires Ordered(keys, at) && key !in keys
    requires forall k <- keys :: later(k) == at(k) < later(key)
    ensures Ordered(keys + [key], later)
  {
  }

  /** Moving a key behind all others is what keeps the keys in the order of their last places. */
  lemma ReorderedOrdered(
      o: Options, keys: seq<string>, key: string, counted: bool, at: string -> int, later: string -> int, n: nat)
    requires Ordered(keys, at) && forall k <- keys :: at(k) < n
    requires forall k: string :: later(k) == if k == key && (key !in keys || counted) then n else at(k)
    ensures Ordered(Reordered(o, keys, key, counted), later)
    ensures forall k <- Reordered(o, keys, key, counted) :: later(k) < n + 1
  {
    if key !in keys {
      OrderedAppend(if |keys| == Capacity(o) then keys[1..] else keys, key, at, later);
    } else if counted {
      WithoutOrdered(keys, key, at);
      forall k | k in Without(keys, key) ensures k in keys && k != key {
        WithoutElements(keys, key, k);
      }
      WithoutElements(keys, key, key);
      OrderedAppend(Without(keys, key), key, at, later);
    } else {
      assert forall k <- keys :: later(k) == at(k);
    }
  }

  ghost predicate KeysAre(o: Options, calls: seq<Call>, keys: seq<string>) {
    && HasKeys(After(o, calls), keys) && |keys| <= Capacity(o)
    && Ordered(keys, k => LastPlaced(o, calls, k)) && forall k <- keys :: LastPlaced(o, calls, k) < |calls|
  }

  lemma KeysAreNext(o: Options, calls: seq<Call>, keys: seq<string>, call: Call)
    requires KeysAre(o, calls, keys)
    ensures KeysAre(o, calls + [call], Reordered(o, keys, call.key, Counts(o, Current(o, calls, call.key), call.now)))
  {
    var counted := Counts(o, Current(o, calls, call.key), call.now);
    var next := Reordered(o, keys, call.key, counted);
    AfterOne(o, calls, call);
    CallReorders(o, After(o, calls), keys, call);
    PresentHasWindow(After(o, calls), keys, call.key);
    forall k: string
      ensures LastPlaced(o, calls + [call], k)
        == if k == call.key && (call.key !in keys || counted) then |calls| else LastPlaced(o, calls, k)
    {
      PlacedNext(o, calls, call, k);
    }
    ReorderedOrdered(o, keys, call.key, counted, k => LastPlaced(o, calls, k), k => LastPlaced(o, calls + [call], k),
      |calls|);
    SizeIsBounded(o, calls + [call]);
    assert |next| == |After(o, calls + [call])|;
  }

  lemma {:induction false} KeysAreInOrder(o: Options, calls: seq<Call>) returns (keys: seq<string>)
    ensures KeysAre(o, calls, keys)
  {
    if calls == [] {
      keys := [];
    } else {
      var before, last := calls[..|calls| - 1], calls[|calls| - 1];
      var earlier := KeysAreInOrder(o, before);
      assert calls == before + [last];
      keys := Reordered(o, earlier, last.key, Counts(o, Current(o, before, last.key), last.now));
      KeysAreNext(o, before, earlier, last);
    }
  }

  lemma KeysDetermined(entries: seq<Entry>, keys: seq<string>, other: seq<string>)
    requires HasKeys(entries, keys) && HasKeys(entries, other)
    ensures keys == other
  {
  }

  lemma KeysListed(entries: seq<Entry>, keys: seq<string>, k: string)
    requires HasKeys(entries, keys)
    ensures k in Keys(entries) <==> k in keys
  {
  }

  /** In every run the keys stand in the order of their last insertion or counted attempt, and one
      more call reorders them as the order law says. */
  lemma KeysMoveExactly(o: Options, calls: seq<Call>, keys: seq<string>, call: Call)
    requires HasKeys(After(o, calls), keys)
    ensures forall i: nat, j: nat | i < j < |keys| :: LastPlaced(o, calls, keys[i]) < LastPlaced(o, calls, keys[j])
    ensures HasKeys(After(o, calls + [call]),
      Reordered(o, keys, call.key, Counts(o, Current(o, calls, call.key), call.now)))
  {
    var listed := KeysAreInOrder(o, calls);
    KeysDetermined(After(o, calls), keys, listed);
    KeysAreNext(o, calls, keys, call);
  }

  /** Of all keys in the map this one was inserted or counted longest ago. */
  ghost predicate Oldest(o: Options, calls: seq<Call>, key: string) {
    && key in Keys(After(o, calls))
    && forall k <- Keys(After(o, calls)) | k != key :: LastPlaced(o, calls, key) < LastPlaced(o, calls, k)
  }

  /** A call pushes a key out exactly if its own is new and the map is full, and then the one whose
      last insertion or counted attempt lies furthest back. */
  lemma EvictsExactly(o: Options, calls: seq<Call>, call: Call)
    ensures var before, after := Keys(After(o, calls)), Keys(After(o, calls + [call]));
      if call.key !in before && |before| == Capacity(o)
      then exists evicted: string :: Oldest(o, calls, evicted) && after == before - {evicted} + {call.key}
      else after == before + {call.key}
  {
    var entries := After(o, calls);
    var keys := KeysAreInOrder(o, calls);
    SizeIsBounded(o, calls);
    EntriesAreUnique(entries);
    AfterOne(o, calls, call);
    DecideKeys(o, entries, call);
    if call.key !in Keys(entries) && |Keys(entries)| == Capacity(o) {
      FirstIsOldest(o, calls, keys);
      KeysMoveExactly(o, calls, keys, call);
      KeysListed(entries, keys, call.key);
      FirstLeaves(entries, After(o, calls + [call]), keys, call.key);
    }
  }

  lemma FirstIsOldest(o: Options, calls: seq<Call>, keys: seq<string>)
    requires KeysAre(o, calls, keys) && keys != []
    ensures Oldest(o, calls, keys[0])
  {
    forall k | k in Keys(After(o, calls)) && k != keys[0]
      ensures LastPlaced(o, calls, keys[0]) < LastPlaced(o, calls, k)
    {
      KeysListed(After(o, calls), keys, k);
      var j: nat :| j < |keys| && keys[j] == k;
    }
    KeysListed(After(o, calls), keys, keys[0]);
  }

  lemma FirstLeaves(before: seq<Entry>, after: seq<Entry>, keys: seq<string>, key: string)
    requires HasKeys(before, keys) && keys != [] && Distinct(keys) && HasKeys(after, keys[1..] + [key])
    ensures Keys(after) == Keys(before) - {keys[0]} + {key}
  {
    forall k: string ensures k in Keys(after) <==> k in Keys(before) - {keys[0]} + {key} {
      KeysListed(before, keys, k);
      KeysListed(after, keys[1..] + [key], k);
      assert k in keys <==> k == keys[0] || k in keys[1..];
      assert keys[0] !in keys[1..];
    }
  }
}
