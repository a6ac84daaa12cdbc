/** The MQTT ingress: one promise chain per Gateway, drained before the transport closes.

    A delivery is handled by the bridge in asynchronous steps; this module models only when a
    handler may begin and end. Every interleaving of the event loop is a sequence of `Step`s. */
module Ingress {
  import opened Wrappers

  /** An MQTT delivery; `message` is what the codec makes of the payload. */
  datatype Event<M> = Event(topic: string, retain: bool, qos: nat, message: M)

  datatype Phase = Queued | Running | Settled

  /** One enqueued promise. `prior` is the tail it was chained behind, if any;
      `cleaned` says that its completion callback has run. */
  datatype Work<M> = Work(key: string, event: Event<M>, prior: Option<nat>, phase: Phase, cleaned: bool)

  /** A call of close(): awaiting the settlement of a snapshot, then of the transport. */
  datatype Closer = Draining(snapshot: set<nat>) | ClosingTransport | Returned

  /** `works` is the arrival order and `begun` the order in which handlers began. */
  datatype State<M> = State(
    works: seq<Work<M>>,
    tails: map<string, nat>,
    inFlight: set<nat>,
    closing: bool,
    closed: bool,
    closers: seq<Closer>,
    begun: seq<nat>)

  datatype Step<M> =
    | Deliver(event: Event<M>)
    | Begin(w: nat)
    | Settle(w: nat)
    | Cleanup(w: nat)
    | CallClose
    | DrainDone(c: nat)
    | TransportClosed(c: nat)

  // ---------- the queue key ----------

  function GatewaysPrefix(topicPrefix: string): string {
    topicPrefix + "/v1/gateways/"
  }

  function UplinkTopic(topicPrefix: string, gateway: string, route: string): string {
    GatewaysPrefix(topicPrefix) + gateway + "/up/" + route
  }

  /** Everything before the first '/' when there is one. */
  function UntilSlash(s: string): (r: Option<string>) {
    if s == "" then None
    else if s[0] == '/' then Some("")
    else match UntilSlash(s[1..])
      case None => None
      case Some(head) => Some([s[0]] + head)
  }

  function QueueKey(topicPrefix: string, topic: string): string {
    var prefix := GatewaysPrefix(topicPrefix);
    if !(prefix <= topic) then topic
    else match UntilSlash(topic[|prefix|..])
      case None => topic
      case Some(gateway) => gateway
  }

  lemma {:induction false} UntilSlashSplits(gateway: string, rest: string)
    requires '/' !in gateway
    ensures UntilSlash(gateway + ['/'] + rest) == Some(gateway)
  {
    var s := gateway + ['/'] + rest;
    if gateway == "" {
      assert s[0] == '/';
    } else {
      assert s[0] == gateway[0] && gateway[0] in gateway;
      assert s[1..] == gateway[1..] + ['/'] + rest;
      UntilSlashSplits(gateway[1..], rest);
      assert [gateway[0]] + gateway[1..] == gateway;
    }
  }

  /** Every uplink topic of a Gateway, whatever its route, has that Gateway as its queue key. */
  lemma UplinkTopicKey(topicPrefix: string, gateway: string, route: string)
    requires '/' !in gateway
    ensures QueueKey(topicPrefix, UplinkTopic(topicPrefix, gateway, route)) == gateway
  {
    var prefix := GatewaysPrefix(topicPrefix);
    var topic := UplinkTopic(topicPrefix, gateway, route);
    assert topic == prefix + (gateway + "/up/" + route);
    assert topic[|prefix|..] == gateway + ['/'] + ("up/" + route);
    UntilSlashSplits(gateway, "up/" + route);
  }

  lemma {:induction false} UntilSlashFinds(s: string) returns (route: string)
    ensures UntilSlash(s).Some? ==> '/' !in UntilSlash(s).value && s == UntilSlash(s).value + ['/'] + route
  {
    route := "";
    if s != "" && s[0] == '/' {
      route := s[1..];
    } else if s != "" {
      route := UntilSlashFinds(s[1..]);
      if UntilSlash(s).Some? {
        assert s == [s[0]] + s[1..];
      }
    }
  }

  /** The topic names a Gateway: it has the prefix, a Gateway without slash, and something below it. */
  ghost predicate NamesGateway(topicPrefix: string, topic: string, gateway: string) {
    '/' !in gateway && exists route: string :: topic == GatewaysPrefix(topicPrefix) + (gateway + ['/'] + route)
  }

  lemma NamedKey(topicPrefix: string, topic: string, gateway: string)
    requires NamesGateway(topicPrefix, topic, gateway)
    ensures QueueKey(topicPrefix, topic) == gateway
  {
    var prefix := GatewaysPrefix(topicPrefix);
    var route: string :| topic == prefix + (gateway + ['/'] + route);
    assert topic[|prefix|..] == gateway + ['/'] + route;
    UntilSlashSplits(gateway, route);
  }

  lemma OtherKey(topicPrefix: string, topic: string)
    requires QueueKey(topicPrefix, topic) != topic
    ensures NamesGateway(topicPrefix, topic, QueueKey(topicPrefix, topic))
  {
    var prefix := GatewaysPrefix(topicPrefix);
    var below := topic[|prefix|..];
    var route := UntilSlashFinds(below);
    assert topic == prefix + below;
  }

  /** The queue key of a topic is the Gateway it names, and of any other topic the topic itself. */
  lemma QueueKeyExactly(topicPrefix: string, topic: string)
    ensures forall gateway: string | NamesGateway(topicPrefix, topic, gateway) ::
      QueueKey(topicPrefix, topic) == gateway
    ensures (forall gateway: string :: !NamesGateway(topicPrefix, topic, gateway)) ==>
      QueueKey(topicPrefix, topic) == topic
  {
    forall gateway: string | NamesGateway(topicPrefix, topic, gateway)
      ensures QueueKey(topicPrefix, topic) == gateway
    {
      NamedKey(topicPrefix, topic, gateway);
    }
    if QueueKey(topicPrefix, topic) != topic {
      OtherKey(topicPrefix, topic);
    }
  }

  // ---------- the transitions ----------

  function Initial<M>(): State<M> {
    State([], map[], {}, false, false, [], [])
  }

  /** An accepted delivery is enqueued; a retained one, or one not at QoS 1, is only observed. */
  predicate Accepts<M>(s: State<M>, event: Event<M>) {
    !s.closing && !event.retain && event.qos == 1
  }

  predicate Unblocked<M>(s: State<M>, w: nat)
    requires w < |s.works|
  {
    match s.works[w].prior
    case None => true
    case Some(p) => p < |s.works| && s.works[p].phase == Settled
  }

  predicate Enabled<M>(s: State<M>, step: Step<M>) {
    match step
    case Deliver(_) => true
    case Begin(w) => w < |s.works| && s.works[w].phase == Queued && Unblocked(s, w)
    case Settle(w) => w < |s.works| && s.works[w].phase == Running
    case Cleanup(w) => w < |s.works| && s.works[w].phase == Settled && !s.works[w].cleaned
    case CallClose => true
    case DrainDone(c) =>
      && c < |s.closers| && s.closers[c].Draining?
      && (forall w <- s.closers[c].snapshot :: w < |s.works| && s.works[w].phase == Settled)
    case TransportClosed(c) => c < |s.closers| && s.closers[c] == ClosingTransport
  }

  function SetPhase<M>(s: State<M>, w: nat, phase: Phase): State<M>
    requires w < |s.works|
  {
    s.(works := s.works[w := s.works[w].(phase := phase)])
  }

  function Enqueue<M>(s: State<M>, key: string, event: Event<M>): State<M> {
    var work := |s.works|;
    var prior := if key in s.tails then Some(s.tails[key]) else None;
    s.(works := s.works + [Work(key, event, prior, Queued, false)],
       tails := s.tails[key := work],
       inFlight := s.inFlight + {work})
  }

  function Clean<M>(s: State<M>, w: nat): State<M>
    requires w < |s.works|
  {
    var key := s.works[w].key;
    s.(works := s.works[w := s.works[w].(cleaned := true)],
       inFlight := s.inFlight - {w},
       tails := if key in s.tails && s.tails[key] == w then s.tails - {key} else s.tails)
  }

  function Apply<M>(topicPrefix: string, s: State<M>, step: Step<M>): State<M>
    requires Enabled(s, step)
  {
    match step
    case Deliver(event) =>
      if Accepts(s, event) then Enqueue(s, QueueKey(topicPrefix, event.topic), event) else s
    case Begin(w) => SetPhase(s, w, Running).(begun := s.begun + [w])
    case Settle(w) => SetPhase(s, w, Settled)
    case Cleanup(w) => Clean(s, w)
    case CallClose =>
      if s.closed then s.(closers := s.closers + [Returned])
      else s.(closing := true, closers := s.closers + [Draining(s.inFlight)])
    case DrainDone(c) => s.(closers := s.closers[c := ClosingTransport])
    case TransportClosed(c) => s.(closers := s.closers[c := Returned], closed := true)
  }

  /** A step that is not enabled does nothing, so every sequence of steps is a run. */
  function Next<M>(topicPrefix: string, s: State<M>, step: Step<M>): State<M> {
    if Enabled(s, step) then Apply(topicPrefix, s, step) else s
  }

  function Run<M>(topicPrefix: string, steps: seq<Step<M>>): State<M> {
    if steps == [] then Initial()
    else Next(topicPrefix, Run(topicPrefix, steps[..|steps| - 1]), steps[|steps| - 1])
  }

  // ---------- the invariant ----------

  /** Handlers of one key begin in arrival order, each after the one before has settled. */
  ghost predicate Serial<M>(s: State<M>) {
    forall i: nat, j: nat | i < j < |s.works| && s.works[i].key == s.works[j].key ::
      s.works[j].phase != Queued ==> s.works[i].phase == Settled
  }

  /** A work waits for the newest earlier work of its key; without one, every earlier one has settled. */
  ghost predicate Chained<M>(s: State<M>) {
    && (forall w: nat | w < |s.works| && s.works[w].prior.Some? ::
      s.works[w].prior.value < w && s.works[s.works[w].prior.value].key == s.works[w].key)
    && (forall i: nat, w: nat | i < w < |s.works| && s.works[i].key == s.works[w].key ::
      if s.works[w].prior.Some? then i <= s.works[w].prior.value else s.works[i].phase == Settled)
  }

  /** The tail of a key is its newest work, and is there while the key has unsettled work. */
  ghost predicate TailsNewest<M>(s: State<M>) {
    && (forall k <- s.tails :: s.tails[k] < |s.works| && s.works[s.tails[k]].key == k)
    && (forall w: nat | w < |s.works| && s.works[w].key in s.tails :: w <= s.tails[s.works[w].key])
    && (forall w: nat | w < |s.works| && s.works[w].phase != Settled :: s.works[w].key in s.tails)
  }

  ghost predicate Tracked<M>(s: State<M>) {
    && (forall w: nat | w < |s.works| :: s.works[w].cleaned ==> s.works[w].phase == Settled)
    && (forall w: nat :: w in s.inFlight <==> w < |s.works| && !s.works[w].cleaned)
  }

  ghost predicate AllSettled<M>(s: State<M>) {
    forall w: nat | w < |s.works| :: s.works[w].phase == Settled
  }

  ghost predicate DrainsCover<M>(s: State<M>) {
    && (|s.closers| > 0 ==> s.closing)
    && (s.closed ==> s.closing && AllSettled(s))
    && (forall c: nat | c < |s.closers| ::
      match s.closers[c]
      case Draining(snapshot) =>
        forall w: nat | w < |s.works| && s.works[w].phase != Settled :: w in snapshot
      case _ => AllSettled(s))
  }

  ghost predicate BegunOnce<M>(s: State<M>) {
    && (forall w: nat :: w in s.begun <==> w < |s.works| && s.works[w].phase != Queued)
    && (forall a: nat, b: nat | a < b < |s.begun| :: s.begun[a] != s.begun[b])
    && (forall a: nat, b: nat | a < b < |s.begun| && s.begun[a] < |s.works| && s.begun[b] < |s.works|
      && s.works[s.begun[a]].key == s.works[s.begun[b]].key :: s.begun[a] < s.begun[b])
  }

  ghost predicate Inv<M>(s: State<M>) {
    Serial(s) && Chained(s) && TailsNewest(s) && Tracked(s) && DrainsCover(s) && BegunOnce(s)
  }

  lemma EnqueueKeepsSerial<M>(s: State<M>, key: string, event: Event<M>)
    requires Serial(s)
    ensures Serial(Enqueue(s, key, event))
  {
  }

  lemma EnqueueKeepsChains<M>(s: State<M>, key: string, event: Event<M>)
    requires Chained(s) && TailsNewest(s)
    ensures Chained(Enqueue(s, key, event))
  {
  }

  lemma EnqueueKeepsTails<M>(s: State<M>, key: string, event: Event<M>)
    requires TailsNewest(s) && Tracked(s)
    ensures TailsNewest(Enqueue(s, key, event)) && Tracked(Enqueue(s, key, event))
  {
  }

  lemma EnqueueKeepsLog<M>(s: State<M>, key: string, event: Event<M>)
    requires BegunOnce(s) && DrainsCover(s) && !s.closing
    ensures BegunOnce(Enqueue(s, key, event)) && DrainsCover(Enqueue(s, key, event))
  {
  }

  lemma BeginKeepsChains<M>(s: State<M>, w: nat)
    requires Serial(s) && Chained(s) && Enabled(s, Begin(w))
    ensures Serial(SetPhase(s, w, Running)) && Chained(SetPhase(s, w, Running))
  {
  }

  lemma BeginKeepsLog<M>(topicPrefix: string, s: State<M>, w: nat)
    requires Serial(s) && BegunOnce(s) && Enabled(s, Begin(w))
    ensures BegunOnce(Apply(topicPrefix, s, Begin(w)))
  {
  }

  lemma SettleKeepsChains<M>(s: State<M>, w: nat)
    requires Serial(s) && Chained(s) && Enabled(s, Settle(w))
    ensures Serial(SetPhase(s, w, Settled)) && Chained(SetPhase(s, w, Settled))
  {
  }

  lemma PhaseKeepsTails<M>(s: State<M>, w: nat, phase: Phase)
    requires TailsNewest(s) && Tracked(s) && w < |s.works|
    requires s.works[w].phase != Settled && phase != Queued
    ensures TailsNewest(SetPhase(s, w, phase)) && Tracked(SetPhase(s, w, phase))
  {
  }

  lemma PhaseKeepsDrains<M>(s: State<M>, w: nat, phase: Phase)
    requires DrainsCover(s) && w < |s.works| && s.works[w].phase != Settled
    ensures DrainsCover(SetPhase(s, w, phase))
  {
  }

  lemma SettleKeepsLog<M>(s: State<M>, w: nat)
    requires BegunOnce(s) && Enabled(s, Settle(w))
    ensures BegunOnce(SetPhase(s, w, Settled))
  {
  }

  lemma CleanKeepsChains<M>(s: State<M>, w: nat)
    requires Serial(s) && Chained(s) && Enabled(s, Cleanup(w))
    ensures Serial(Clean(s, w)) && Chained(Clean(s, w))
  {
  }

  lemma CleanKeepsTails<M>(s: State<M>, w: nat)
    requires Serial(s) && TailsNewest(s) && Tracked(s) && Enabled(s, Cleanup(w))
    ensures TailsNewest(Clean(s, w)) && Tracked(Clean(s, w))
  {
  }

  lemma CleanKeepsLog<M>(s: State<M>, w: nat)
    requires BegunOnce(s) && DrainsCover(s) && Enabled(s, Cleanup(w))
    ensures BegunOnce(Clean(s, w)) && DrainsCover(Clean(s, w))
  {
  }

  lemma CloseKeepsDrains<M>(topicPrefix: string, s: State<M>, step: Step<M>)
    requires Tracked(s) && DrainsCover(s)
    requires Enabled(s, step) && (step.CallClose? || step.DrainDone? || step.TransportClosed?)
    ensures DrainsCover(Apply(topicPrefix, s, step))
  {
  }

  lemma EnqueueKeepsInv<M>(s: State<M>, key: string, event: Event<M>)
    requires Inv(s) && !s.closing
    ensures Inv(Enqueue(s, key, event))
  {
    EnqueueKeepsSerial(s, key, event);
    EnqueueKeepsChains(s, key, event);
    EnqueueKeepsTails(s, key, event);
    EnqueueKeepsLog(s, key, event);
  }

  /** Only `BegunOnce` looks at the order in which handlers began. */
  lemma BegunIsApart<M>(s: State<M>, begun: seq<nat>)
    requires Serial(s) && Chained(s) && TailsNewest(s) && Tracked(s) && DrainsCover(s)
    ensures var t := s.(begun := begun); Serial(t) && Chained(t) && TailsNewest(t) && Tracked(t) && DrainsCover(t)
  {
  }

  lemma BeginKeepsInv<M>(topicPrefix: string, s: State<M>, w: nat)
    requires Inv(s) && Enabled(s, Begin(w))
    ensures Inv(Apply(topicPrefix, s, Begin(w)))
  {
    BeginKeepsChains(s, w);
    PhaseKeepsTails(s, w, Running);
    PhaseKeepsDrains(s, w, Running);
    BegunIsApart(SetPhase(s, w, Running), s.begun + [w]);
    BeginKeepsLog(topicPrefix, s, w);
  }

  lemma SettleKeepsInv<M>(s: State<M>, w: nat)
    requires Inv(s) && Enabled(s, Settle(w))
    ensures Inv(SetPhase(s, w, Settled))
  {
    SettleKeepsChains(s, w);
    PhaseKeepsTails(s, w, Settled);
    PhaseKeepsDrains(s, w, Settled);
    SettleKeepsLog(s, w);
  }

  lemma CleanKeepsInv<M>(s: State<M>, w: nat)
    requires Inv(s) && Enabled(s, Cleanup(w))
    ensures Inv(Clean(s, w))
  {
    CleanKeepsChains(s, w);
    CleanKeepsTails(s, w);
    CleanKeepsLog(s, w);
  }

  lemma NextKeepsInv<M>(topicPrefix: string, s: State<M>, step: Step<M>)
    requires Inv(s)
    ensures Inv(Next(topicPrefix, s, step))
  {
    if Enabled(s, step) {
      match step
      case Deliver(event) =>
        if Accepts(s, event) {
          EnqueueKeepsInv(s, QueueKey(topicPrefix, event.topic), event);
        }
      case Begin(w) => BeginKeepsInv(topicPrefix, s, w);
      case Settle(w) => SettleKeepsInv(s, w);
      case Cleanup(w) => CleanKeepsInv(s, w);
      case _ => CloseKeepsDrains(topicPrefix, s, step);
    }
  }

  lemma {:induction false} RunKeepsInv<M>(topicPrefix: string, steps: seq<Step<M>>)
    ensures Inv(Run(topicPrefix, steps))
  {
    if steps != [] {
      RunKeepsInv(topicPrefix, steps[..|steps| - 1]);
      NextKeepsInv(topicPrefix, Run(topicPrefix, steps[..|steps| - 1]), steps[|steps| - 1]);
    }
  }

  lemma RunDrains<M>(topicPrefix: string, steps: seq<Step<M>>)
    ensures DrainsCover(Run(topicPrefix, steps))
  {
    RunKeepsInv(topicPrefix, steps);
  }

  /** Works already enqueued are untouched apart from bookkeeping; new ones are queued. */
  ghost predicate Extends<M>(before: seq<Work<M>>, after: seq<Work<M>>) {
    && |before| <= |after|
    && (forall w: nat | w < |before| ::
      after[w].event == before[w].event && after[w].key == before[w].key && after[w].phase == before[w].phase)
    && (forall w: nat | |before| <= w < |after| :: after[w].phase == Queued)
  }

  /** Steps other than beginning and settling a handler only extend the work list. */
  lemma NetworkExtends<M>(topicPrefix: string, s: State<M>, step: Step<M>)
    requires Enabled(s, step) && !step.Begin? && !step.Settle?
    ensures var t := Apply(topicPrefix, s, step); Extends(s.works, t.works) && t.begun == s.begun
  {
  }

  // ---------- what every run guarantees ----------

  /** Two handlers that run at the same time serve different queue keys. */
  lemma OneHandlerPerKey<M>(topicPrefix: string, steps: seq<Step<M>>, i: nat, j: nat)
    ensures var s := Run(topicPrefix, steps);
      i < |s.works| && j < |s.works| && i != j && s.works[i].phase == s.works[j].phase == Running
      ==> s.works[i].key != s.works[j].key
  {
    RunKeepsInv(topicPrefix, steps);
  }

  /** Handlers of a key begin in arrival order without overlap: when a delivery has begun, every
      earlier one of its key began before it and has already settled. */
  lemma HandledInArrivalOrder<M>(topicPrefix: string, steps: seq<Step<M>>, i: nat, j: nat)
    requires var s := Run(topicPrefix, steps);
      i < j < |s.works| && s.works[i].key == s.works[j].key && s.works[j].phase != Queued
    ensures var s := Run(topicPrefix, steps);
      && s.works[i].phase == Settled
      && exists a: nat, b: nat :: a < b < |s.begun| && s.begun[a] == i && s.begun[b] == j
  {
    RunKeepsInv(topicPrefix, steps);
    BegunInArrivalOrder(Run(topicPrefix, steps), i, j);
  }

  lemma BegunInArrivalOrder<M>(s: State<M>, i: nat, j: nat)
    requires Serial(s) && BegunOnce(s)
    requires i < j < |s.works| && s.works[i].key == s.works[j].key && s.works[j].phase != Queued
    ensures s.works[i].phase == Settled
    ensures exists a: nat, b: nat :: a < b < |s.begun| && s.begun[a] == i && s.begun[b] == j
  {
    assert s.works[i].phase == Settled;
    assert i in s.begun && j in s.begun;
    var a: nat :| a < |s.begun| && s.begun[a] == i;
    var b: nat :| b < |s.begun| && s.begun[b] == j;
    assert a < b;
  }

  /** No delivery is handled twice, and one that has settled has been handled. */
  lemma HandledExactlyOnce<M>(topicPrefix: string, steps: seq<Step<M>>, w: nat)
    ensures var s := Run(topicPrefix, steps);
      && (forall a: nat, b: nat | a < b < |s.begun| :: s.begun[a] != s.begun[b])
      && (w in s.begun <==> w < |s.works| && s.works[w].phase != Queued)
  {
    RunKeepsInv(topicPrefix, steps);
  }

  /** While a key has unsettled work its tail entry is its most recently enqueued work. */
  lemma TailIsNewest<M>(topicPrefix: string, steps: seq<Step<M>>, w: nat)
    requires var s := Run(topicPrefix, steps); w < |s.works| && s.works[w].phase != Settled
    ensures var s := Run(topicPrefix, steps);
      var key := s.works[w].key;
      && key in s.tails && s.tails[key] < |s.works| && s.works[s.tails[key]].key == key
      && forall i: nat | i < |s.works| && s.works[i].key == key :: i <= s.tails[key]
  {
    RunKeepsInv(topicPrefix, steps);
  }

  /** The oldest unsettled work of any key is either running or able to begin, so no chain stalls. */
  lemma {:induction false} NeverStalls<M>(topicPrefix: string, steps: seq<Step<M>>, w: nat)
    requires var s := Run(topicPrefix, steps); w < |s.works| && s.works[w].phase != Settled
    ensures var s := Run(topicPrefix, steps);
      exists v: nat :: v <= w && s.works[v].key == s.works[w].key
        && (s.works[v].phase == Running || Enabled(s, Begin(v)))
    decreases w
  {
    RunKeepsInv(topicPrefix, steps);
    var s := Run(topicPrefix, steps);
    if s.works[w].phase == Queued && !Unblocked(s, w) {
      NeverStalls(topicPrefix, steps, s.works[w].prior.value);
    } else {
      assert s.works[w].phase == Running || Enabled(s, Begin(w));
    }
  }

  /** The deliveries a run must handle, read off its steps alone: non-retained QoS 1 deliveries
      that arrive before the first call of close(). */
  function AcceptedDeliveries<M>(steps: seq<Step<M>>): seq<Event<M>> {
    if steps == [] then []
    else
      var before := steps[..|steps| - 1];
      var last := steps[|steps| - 1];
      if last.Deliver? && !CloseCalled(before) && !last.event.retain && last.event.qos == 1
      then AcceptedDeliveries(before) + [last.event]
      else AcceptedDeliveries(before)
  }

  predicate CloseCalled<M>(steps: seq<Step<M>>) {
    exists i: nat :: i < |steps| && steps[i].CallClose?
  }

  function Events<M>(works: seq<Work<M>>): (r: seq<Event<M>>)
    ensures |r| == |works|
    ensures forall i: nat | i < |works| :: r[i] == works[i].event
  {
    seq(|works|, i requires 0 <= i < |works| => works[i].event)
  }

  ghost predicate KeyedByTopic<M>(topicPrefix: string, works: seq<Work<M>>) {
    forall w: nat | w < |works| :: works[w].key == QueueKey(topicPrefix, works[w].event.topic)
  }

  lemma NextRecordsDelivery<M>(topicPrefix: string, s: State<M>, step: Step<M>)
    requires DrainsCover(s) && KeyedByTopic(topicPrefix, s.works)
    ensures var t := Next(topicPrefix, s, step);
      && t.closing == (s.closing || step.CallClose?)
      && KeyedByTopic(topicPrefix, t.works)
      && Events(t.works) == Events(s.works)
        + (if step.Deliver? && Accepts(s, step.event) then [step.event] else [])
  {
    var t := Next(topicPrefix, s, step);
    if step.Deliver? && Accepts(s, step.event) {
      assert Events(t.works) == Events(s.works) + [step.event];
    } else {
      assert Events(t.works) == Events(s.works);
    }
  }

  lemma CloseCalledStep<M>(before: seq<Step<M>>, last: Step<M>)
    ensures CloseCalled(before + [last]) <==> CloseCalled(before) || last.CallClose?
  {
    var steps := before + [last];
    assert steps[|before|] == last && forall i: nat | i < |before| :: steps[i] == before[i];
  }

  /** The work list is exactly the accepted deliveries, in arrival order, and each is queued under
      the key of its topic. */
  lemma {:induction false} WorksAreAcceptedDeliveries<M>(topicPrefix: string, steps: seq<Step<M>>)
    ensures Run(topicPrefix, steps).closing <==> CloseCalled(steps)
    ensures Events(Run(topicPrefix, steps).works) == AcceptedDeliveries(steps)
    ensures KeyedByTopic(topicPrefix, Run(topicPrefix, steps).works)
  {
    if steps != [] {
      var before := steps[..|steps| - 1];
      var last := steps[|steps| - 1];
      WorksAreAcceptedDeliveries(topicPrefix, before);
      CloseCalledStep(before, last);
      assert steps == before + [last];
      RunDrains(topicPrefix, before);
      NextRecordsDelivery(topicPrefix, Run(topicPrefix, before), last);
    }
  }

  // ---------- what is forgotten, and how close calls go on ----------

  ghost predicate NewestOfItsKey<M>(works: seq<Work<M>>, w: nat) {
    w < |works| && forall v: nat | w < v < |works| :: works[v].key != works[w].key
  }

  /** Tails are kept for exactly the keys whose newest work is not cleaned up, drains wait only for
      works there are, and the ingress is closed exactly since a call of close() has returned. */
  ghost predicate Bookkept<M>(s: State<M>) {
    && (forall k <- s.tails :: s.tails[k] < |s.works| && !s.works[s.tails[k]].cleaned)
    && (forall w: nat | NewestOfItsKey(s.works, w) && !s.works[w].cleaned :: s.works[w].key in s.tails)
    && (forall c: nat | c < |s.closers| && s.closers[c].Draining? ::
      forall w <- s.closers[c].snapshot :: w < |s.works|)
    && (s.closed <==> exists c: nat :: c < |s.closers| && s.closers[c].Returned?)
  }

  lemma EnqueueKeepsBooks<M>(s: State<M>, key: string, event: Event<M>)
    requires Bookkept(s)
    ensures Bookkept(Enqueue(s, key, event))
  {
    var t := Enqueue(s, key, event);
    forall w: nat | NewestOfItsKey(t.works, w) && !t.works[w].cleaned ensures t.works[w].key in t.tails {
      if w < |s.works| {
        assert forall v: nat | w < v < |s.works| :: t.works[v].key == s.works[v].key;
        assert NewestOfItsKey(s.works, w);
      }
    }
  }

  lemma SameKeysKeepBooks<M>(s: State<M>, w: nat, phase: Phase)
    requires Bookkept(s) && w < |s.works|
    ensures Bookkept(SetPhase(s, w, phase))
  {
    var t := SetPhase(s, w, phase);
    forall v: nat | NewestOfItsKey(t.works, v) ensures NewestOfItsKey(s.works, v) {
      assert forall u: nat | v < u < |s.works| :: t.works[u].key == s.works[u].key;
    }
  }

  lemma CleanKeepsBooks<M>(s: State<M>, w: nat)
    requires Bookkept(s) && TailsNewest(s) && w < |s.works|
    ensures Bookkept(Clean(s, w))
  {
    var t := Clean(s, w);
    forall v: nat | NewestOfItsKey(t.works, v) && !t.works[v].cleaned ensures t.works[v].key in t.tails {
      assert forall u: nat | v < u < |s.works| :: t.works[u].key == s.works[u].key;
      assert NewestOfItsKey(s.works, v) && s.tails[s.works[v].key] == v;
    }
  }

  lemma CloseKeepsBooks<M>(topicPrefix: string, s: State<M>, step: Step<M>)
    requires Bookkept(s) && Tracked(s) && Enabled(s, step)
    requires step.CallClose? || step.DrainDone? || step.TransportClosed?
    ensures Bookkept(Apply(topicPrefix, s, step))
  {
    var t := Apply(topicPrefix, s, step);
    assert forall c: nat | c < |s.closers| && s.closers[c].Returned? :: t.closers[c].Returned?;
    if step.CallClose? && s.closed {
      assert t.closers[|s.closers|].Returned?;
    } else if step.TransportClosed? {
      assert t.closers[step.c].Returned?;
    }
  }

  lemma {:induction false} RunKeepsBooks<M>(topicPrefix: string, steps: seq<Step<M>>)
    ensures Bookkept(Run(topicPrefix, steps))
  {
    if steps != [] {
      var before, step := steps[..|steps| - 1], steps[|steps| - 1];
      RunKeepsBooks(topicPrefix, before);
      RunKeepsInv(topicPrefix, before);
      var s := Run(topicPrefix, before);
      if Enabled(s, step) {
        match step
        case Deliver(event) =>
          if Accepts(s, event) { EnqueueKeepsBooks(s, QueueKey(topicPrefix, event.topic), event); }
        case Begin(w) => SameKeysKeepBooks(s, w, Running);
        case Settle(w) => SameKeysKeepBooks(s, w, Settled);
        case Cleanup(w) => CleanKeepsBooks(s, w);
        case _ => CloseKeepsBooks(topicPrefix, s, step);
      }
    }
  }

  /** The map of tails never outgrows the unfinished work: a key has a tail exactly while its newest
      work has not been cleaned up, and that work is the tail. */
  lemma TailsExactly<M>(topicPrefix: string, steps: seq<Step<M>>, key: string)
    ensures var s := Run(topicPrefix, steps);
      && (key in s.tails <==>
        exists w: nat :: NewestOfItsKey(s.works, w) && s.works[w].key == key && !s.works[w].cleaned)
      && forall w: nat | NewestOfItsKey(s.works, w) && s.works[w].key == key && key in s.tails :: s.tails[key] == w
  {
    RunKeepsInv(topicPrefix, steps);
    RunKeepsBooks(topicPrefix, steps);
    var s := Run(topicPrefix, steps);
    if key in s.tails {
      assert NewestOfItsKey(s.works, s.tails[key]);
    }
  }

  /** A call of close() returns at once exactly if an earlier one has returned, and otherwise drains;
      a drain ends exactly when no work is queued or running; then the transport is closed. */
  lemma CloseGoesOnExactly<M>(topicPrefix: string, steps: seq<Step<M>>, c: nat)
    requires c < |Run(topicPrefix, steps).closers|
    ensures var s := Run(topicPrefix, steps);
      && (s.closers[c].Draining? ==>
        && (Enabled(s, DrainDone(c)) <==> AllSettled(s))
        && (AllSettled(s) ==> Next(topicPrefix, s, DrainDone(c)).closers == s.closers[c := ClosingTransport]))
      && (s.closers[c].ClosingTransport? ==>
        Next(topicPrefix, s, TransportClosed(c)).closers == s.closers[c := Returned])
  {
    RunDrains(topicPrefix, steps);
    RunKeepsBooks(topicPrefix, steps);
  }

  /** What a call of close() finds decides how it goes on. */
  lemma CloseCallExactly<M>(topicPrefix: string, steps: seq<Step<M>>)
    ensures var s, t := Run(topicPrefix, steps), Run(topicPrefix, steps + [CallClose]);
      && t.closing && |t.closers| == |s.closers| + 1 && t.closers[..|s.closers|] == s.closers
      && t.works == s.works && t.tails == s.tails && t.inFlight == s.inFlight
      && var closer := t.closers[|s.closers|];
      && (closer == Returned <==> exists c: nat :: c < |s.closers| && s.closers[c].Returned?)
      && (closer == Returned || closer.Draining?)
      && (closer.Draining? ==>
        forall w: nat :: w in closer.snapshot <==> w < |s.works| && !s.works[w].cleaned)
  {
    RunOneMore(topicPrefix, steps, CallClose);
    RunKeepsInv(topicPrefix, steps);
    RunKeepsBooks(topicPrefix, steps);
  }

  lemma NextKeepsIdle<M>(topicPrefix: string, s: State<M>, step: Step<M>, c: nat)
    requires c < |s.closers| && !s.closers[c].Draining?
    ensures var t := Next(topicPrefix, s, step); c < |t.closers| && !t.closers[c].Draining?
  {
  }

  /** Once some close() call has reached transport.close, or returned, no handler is queued or
      running, then or after any further steps. */
  lemma {:induction false} TransportClosesIdle<M>(
      topicPrefix: string, steps: seq<Step<M>>, more: seq<Step<M>>, c: nat)
    requires var s := Run(topicPrefix, steps); c < |s.closers| && !s.closers[c].Draining?
    ensures AllSettled(Run(topicPrefix, steps + more))
    ensures var s := Run(topicPrefix, steps + more); c < |s.closers| && !s.closers[c].Draining?
  {
    RunDrains(topicPrefix, steps + more);
    if more == [] {
      assert steps + more == steps;
    } else {
      var last := |more| - 1;
      assert (steps + more)[..|steps + more| - 1] == steps + more[..last];
      TransportClosesIdle(topicPrefix, steps, more[..last], c);
      NextKeepsIdle(topicPrefix, Run(topicPrefix, steps + more[..last]), more[last], c);
    }
  }

  lemma RunOneMore<M>(topicPrefix: string, steps: seq<Step<M>>, step: Step<M>)
    ensures Run(topicPrefix, steps + [step]) == Next(topicPrefix, Run(topicPrefix, steps), step)
  {
    assert (steps + [step])[..|steps|] == steps;
  }

  // ---------- the running ingress ----------

  /** The closure variables of a started ingress, with its promises as a table. Each method is
      one uninterrupted stretch of the event loop and is the `Apply` of one step. */
  class MqttIngress<M> {
    const topicPrefix: string
    var works: seq<Work<M>>
    var gatewayTails: map<string, nat>
    var inFlight: set<nat>
    var closing: bool
    var closed: bool
    var closers: seq<Closer>
    ghost var begun: seq<nat>
    ghost var steps: seq<Step<M>>

    ghost function View(): State<M>
      reads this
    {
      State(works, gatewayTails, inFlight, closing, closed, closers, begun)
    }

    /** What has happened so far is a run, so all results about runs hold of this object. */
    ghost predicate Valid()
      reads this
    {
      View() == Run(topicPrefix, steps)
    }

    constructor (topicPrefix: string)
      ensures Valid() && this.topicPrefix == topicPrefix && steps == []
    {
      steps := [];
      this.topicPrefix := topicPrefix;
      works, gatewayTails, inFlight, closing, closed, closers := [], map[], {}, false, false, [];
      begun := [];
    }

    method OnEvent(event: Event<M>)
      requires Valid()
      modifies this
      ensures Valid() && steps == old(steps) + [Deliver(event)]
      ensures View() == Apply(topicPrefix, old(View()), Deliver(event))
    {
      RunOneMore(topicPrefix, steps, Deliver(event));
      steps := steps + [Deliver(event)];
      if closing { return; }
      if event.retain || event.qos != 1 { return; }
      var queueKey := QueueKey(topicPrefix, event.topic);
      var prior := if queueKey in gatewayTails then Some(gatewayTails[queueKey]) else None;
      var work := |works|;
      works := works + [Work(queueKey, event, prior, Queued, false)];
      gatewayTails := gatewayTails[queueKey := work];
      inFlight := inFlight + {work};
    }

    method BeginHandler(w: nat)
      requires Valid()
      requires Enabled(View(), Begin(w))
      modifies this
      ensures Valid() && steps == old(steps) + [Begin(w)]
      ensures View() == Apply(topicPrefix, old(View()), Begin(w))
    {
      RunOneMore(topicPrefix, steps, Begin(w));
      steps := steps + [Begin(w)];
      works := works[w := works[w].(phase := Running)];
      begun := begun + [w];
    }

    method SettleHandler(w: nat)
      requires Valid()
      requires Enabled(View(), Settle(w))
      modifies this
      ensures Valid() && steps == old(steps) + [Settle(w)]
      ensures View() == Apply(topicPrefix, old(View()), Settle(w))
    {
      RunOneMore(topicPrefix, steps, Settle(w));
      steps := steps + [Settle(w)];
      works := works[w := works[w].(phase := Settled)];
    }

    method OnSettled(w: nat)
      requires Valid()
      requires Enabled(View(), Cleanup(w))
      modifies this
      ensures Valid() && steps == old(steps) + [Cleanup(w)]
      ensures View() == Apply(topicPrefix, old(View()), Cleanup(w))
    {
      RunOneMore(topicPrefix, steps, Cleanup(w));
      steps := steps + [Cleanup(w)];
      var queueKey := works[w].key;
      works := works[w := works[w].(cleaned := true)];
      inFlight := inFlight - {w};
      if queueKey in gatewayTails && gatewayTails[queueKey] == w {
        gatewayTails := gatewayTails - {queueKey};
      }
    }

    method Close()
      requires Valid()
      modifies this
      ensures Valid() && steps == old(steps) + [CallClose]
      ensures View() == Apply(topicPrefix, old(View()), CallClose)
    {
      RunOneMore(topicPrefix, steps, CallClose);
      steps := steps + [CallClose];
      if closed {
        closers := closers + [Returned];
        return;
      }
      closing := true;
      closers := closers + [Draining(inFlight)];
    }

    method CloseTransport(c: nat)
      requires Valid()
      requires Enabled(View(), DrainDone(c))
      modifies this
      ensures Valid() && steps == old(steps) + [DrainDone(c)]
      ensures View() == Apply(topicPrefix, old(View()), DrainDone(c))
    {
      RunOneMore(topicPrefix, steps, DrainDone(c));
      steps := steps + [DrainDone(c)];
      closers := closers[c := ClosingTransport];
    }

    method OnTransportClosed(c: nat)
      requires Valid()
      requires Enabled(View(), TransportClosed(c))
      modifies this
      ensures Valid() && steps == old(steps) + [TransportClosed(c)]
      ensures View() == Apply(topicPrefix, old(View()), TransportClosed(c))
    {
      RunOneMore(topicPrefix, steps, TransportClosed(c));
      steps := steps + [TransportClosed(c)];
      closers := closers[c := Returned];
      closed := true;
    }
  }
}
