/** The ingress and the bridge together: the queue decides when a handler begins, and from then on
    the stretches of all running handlers interleave freely. Everything here holds for every
    sequence of steps. */
module CloudLinkSystem {
  import opened Wrappers
  import opened CloudLinkMessages
  import Ingress
  import B = Bridge
  import O = BridgeOutcomes
  import U = UplinkAuthentication

  datatype State = State(ingress: Ingress.State<B.Inbound>, bridge: B.State)

  datatype Step =
    | Network(step: Ingress.Step<B.Inbound>)
    | BeginHandler(w: nat, now: nat)
    | ResumeHandler(w: nat, reply: B.Reply, now: nat)
    | FinishHandler(w: nat)

  /** The deployment: the topic prefix of the ingress and the composition of the bridge. */
  datatype Deployment = Deployment(topicPrefix: string, bridge: B.Config)

  /** The codec accepts a payload only on an uplink topic of the Gateway that the payload names. */
  ghost predicate CodecTies(topicPrefix: string, event: Ingress.Event<B.Inbound>) {
    match B.GatewayOf(event.message)
    case None => true
    case Some(gateway) =>
      '/' !in gateway && exists route :: event.topic == Ingress.UplinkTopic(topicPrefix, gateway, route)
  }

  function Initial(): State {
    State(Ingress.Initial(), B.State(map[], map[], map[], []))
  }

  ghost predicate Enabled(d: Deployment, s: State, step: Step) {
    match step
    case Network(n) =>
      && !n.Begin? && !n.Settle? && Ingress.Enabled(s.ingress, n)
      && (n.Deliver? ==> CodecTies(d.topicPrefix, n.event))
    case BeginHandler(w, _) => Ingress.Enabled(s.ingress, Ingress.Begin(w))
    case ResumeHandler(w, reply, _) => B.CanResume(s.bridge, w, reply)
    case FinishHandler(w) =>
      && Ingress.Enabled(s.ingress, Ingress.Settle(w))
      && w in s.bridge.handlers && s.bridge.handlers[w].at.Done?
  }

  ghost function Apply(d: Deployment, s: State, step: Step): State
    requires Enabled(d, s, step)
  {
    match step
    case Network(n) => s.(ingress := Ingress.Apply(d.topicPrefix, s.ingress, n))
    case BeginHandler(w, now) =>
      State(Ingress.Apply(d.topicPrefix, s.ingress, Ingress.Begin(w)),
        B.Begin(d.bridge, s.bridge, w, s.ingress.works[w].event.message, now))
    case ResumeHandler(w, reply, now) => s.(bridge := B.Resume(d.bridge, s.bridge, w, reply, now))
    case FinishHandler(w) =>
      State(Ingress.Apply(d.topicPrefix, s.ingress, Ingress.Settle(w)), B.Finish(s.bridge, w))
  }

  ghost function Next(d: Deployment, s: State, step: Step): State {
    if Enabled(d, s, step) then Apply(d, s, step) else s
  }

  ghost function Run(d: Deployment, steps: seq<Step>): State {
    if steps == [] then Initial() else Next(d, Run(d, steps[..|steps| - 1]), steps[|steps| - 1])
  }

  // ---------- the invariant ----------

  /** The bridge's handlers are the running works, each with the message it was enqueued with. */
  ghost predicate Linked(s: State) {
    && (forall w: nat :: w in s.bridge.handlers <==>
      w < |s.ingress.works| && s.ingress.works[w].phase == Ingress.Running)
    && (forall w <- s.bridge.handlers :: s.bridge.handlers[w].message == s.ingress.works[w].event.message)
  }

  /** A decodable delivery is queued under the Gateway it names. */
  ghost predicate QueuedByGateway(works: seq<Ingress.Work<B.Inbound>>) {
    forall w: nat | w < |works| ::
      B.GatewayOf(works[w].event.message).Some? ==> works[w].key == B.GatewayOf(works[w].event.message).value
  }

  ghost predicate Relied(d: Deployment, b: B.State) {
    B.Owned(b.sessions, b.owners)
    && forall w <- b.handlers :: B.Reliable(d.bridge, b.sessions, b.owners, b.handlers[w])
  }

  ghost predicate Acked(b: B.State, w: nat) {
    exists i: nat :: i < |b.acks| && b.acks[i].work == w
  }

  predicate IsDelivery(message: B.Inbound) {
    message.Up? && message.uplink.Delivery?
  }

  /** Every acknowledgement is for the message its handler was given, and is its only one. */
  ghost predicate AcksEarned(ingress: Ingress.State<B.Inbound>, acks: seq<B.AckEntry>) {
    && (forall i: nat | i < |acks| ::
      && acks[i].work in ingress.begun && acks[i].work < |ingress.works|
      && ingress.works[acks[i].work].event.message == B.Up(acks[i].uplink)
      && B.Rightful(acks[i].ack, acks[i].uplink, acks[i].value))
    && (forall i: nat, j: nat | i < j < |acks| :: acks[i].work != acks[j].work)
  }

  /** A manifest report awaits its cursor with an answer that has already earned the acknowledgement. */
  predicate CursorEarned(message: B.Inbound, value: B.Value) {
    message.Up? && B.Earned(message.uplink, value) && message.uplink.kind.ManifestReport?
  }

  /** How a handler ends whose acknowledgement was handed to the publisher. */
  predicate AfterAck(at: B.Await) {
    at == B.Done(B.Ended(B.Acknowledged)) || at == B.Done(B.Threw)
  }

  /** A handler has acknowledged only if it is publishing or done, and if its delivery is being
      acknowledged then it has. */
  ghost predicate HandlersAck(b: B.State) {
    forall w <- b.handlers ::
      var h := b.handlers[w];
      && (h.at.CursorCommand? ==> CursorEarned(h.message, h.at.value))
      && (Acked(b, w) ==> h.at == B.Publishing(B.Threw) || AfterAck(h.at))
      && (IsDelivery(h.message) && (h.at.Publishing? || h.at == B.Done(B.Ended(B.Acknowledged))) ==> Acked(b, w))
  }

  ghost predicate Inv(d: Deployment, s: State) {
    && Ingress.Inv(s.ingress) && Linked(s) && QueuedByGateway(s.ingress.works)
    && Relied(d, s.bridge) && AcksEarned(s.ingress, s.bridge.acks) && HandlersAck(s.bridge)
  }

  /** This is where the queue matters: two running handlers never serve the same Gateway. */
  lemma RunningApart(s: State, v: nat, w: nat)
    requires Ingress.Serial(s.ingress) && Linked(s) && QueuedByGateway(s.ingress.works)
    requires v in s.bridge.handlers && w in s.bridge.handlers && v != w
    ensures B.GatewayOf(s.bridge.handlers[v].message).Some? ==>
      B.GatewayOf(s.bridge.handlers[v].message) != B.GatewayOf(s.bridge.handlers[w].message)
  {
    assert s.ingress.works[v].phase == Ingress.Running && s.ingress.works[w].phase == Ingress.Running;
  }

  lemma NetworkKeepsInv(d: Deployment, s: State, n: Ingress.Step<B.Inbound>)
    requires Inv(d, s) && Enabled(d, s, Network(n))
    ensures Inv(d, Apply(d, s, Network(n)))
  {
    var t := Apply(d, s, Network(n));
    Ingress.NextKeepsInv(d.topicPrefix, s.ingress, n);
    Ingress.NetworkExtends(d.topicPrefix, s.ingress, n);
    ExtendsKeepsLinks(s, t);
    NetworkQueuesByGateway(d, s, n);
  }

  lemma ExtendsKeepsLinks(s: State, t: State)
    requires Linked(s) && AcksEarned(s.ingress, s.bridge.acks)
    requires Ingress.Extends(s.ingress.works, t.ingress.works) && t.ingress.begun == s.ingress.begun
      && t.bridge == s.bridge
    ensures Linked(t) && AcksEarned(t.ingress, t.bridge.acks)
  {
  }

  lemma NetworkQueuesByGateway(d: Deployment, s: State, n: Ingress.Step<B.Inbound>)
    requires QueuedByGateway(s.ingress.works) && Enabled(d, s, Network(n))
    ensures QueuedByGateway(Ingress.Apply(d.topicPrefix, s.ingress, n).works)
  {
    if n.Deliver? && B.GatewayOf(n.event.message).Some? {
      var gateway := B.GatewayOf(n.event.message).value;
      var route :| n.event.topic == Ingress.UplinkTopic(d.topicPrefix, gateway, route);
      Ingress.UplinkTopicKey(d.topicPrefix, gateway, route);
    }
  }

  lemma PerformAcks(b: B.State, w: nat, message: B.Inbound, owners: map<string, B.Owner>, e: B.Effect, v: nat)
    requires e.ack.Some? ==> message.Up?
    ensures Acked(B.Perform(b, w, message, owners, e), v) <==> Acked(b, v) || (v == w && e.ack.Some?)
  {
    var c := B.Perform(b, w, message, owners, e);
    assert forall i: nat | i < |b.acks| :: c.acks[i] == b.acks[i];
    assert e.ack.Some? ==> c.acks[|b.acks|].work == w;
  }

  lemma PerformKeepsEarned(
      ingress: Ingress.State<B.Inbound>, b: B.State, w: nat, message: B.Inbound,
      owners: map<string, B.Owner>, e: B.Effect)
    requires AcksEarned(ingress, b.acks)
    requires w < |ingress.works| && w in ingress.begun && ingress.works[w].event.message == message
    requires e.ack.Some? ==>
      message.Up? && !Acked(b, w) && B.Rightful(e.ack.value.1, message.uplink, e.ack.value.0)
    ensures AcksEarned(ingress, B.Perform(b, w, message, owners, e).acks)
  {
    var c := B.Perform(b, w, message, owners, e);
    assert forall i: nat | i < |b.acks| :: c.acks[i] == b.acks[i];
    if e.ack.Some? {
      assert forall i: nat | i < |b.acks| :: b.acks[i].work != w;
    }
  }

  /** The effect e of a stretch of handler w, whatever it is, keeps what handlers say of their
      acknowledgements. */
  lemma PerformKeepsHandlersAck(b: B.State, w: nat, message: B.Inbound, owners: map<string, B.Owner>, e: B.Effect)
    requires HandlersAck(b)
    requires e.ack.Some? ==> message.Up? && e.next == B.Publishing(B.Threw)
    requires e.next.CursorCommand? ==> CursorEarned(message, e.next.value)
    requires Acked(b, w) ==> AfterAck(e.next)
    requires IsDelivery(message) && (e.next.Publishing? || e.next == B.Done(B.Ended(B.Acknowledged)))
      ==> e.ack.Some? || Acked(b, w)
    ensures HandlersAck(B.Perform(b, w, message, owners, e))
  {
    var c := B.Perform(b, w, message, owners, e);
    forall v | v in c.handlers ensures Acked(c, v) <==> Acked(b, v) || (v == w && e.ack.Some?) {
      PerformAcks(b, w, message, owners, e, v);
    }
  }

  lemma BeginKeepsInv(d: Deployment, s: State, w: nat, now: nat)
    requires Inv(d, s) && Enabled(d, s, BeginHandler(w, now))
    ensures Inv(d, Apply(d, s, BeginHandler(w, now)))
  {
    var message := s.ingress.works[w].event.message;
    var t := Ingress.Apply(d.topicPrefix, s.ingress, Ingress.Begin(w));
    Ingress.NextKeepsInv(d.topicPrefix, s.ingress, Ingress.Begin(w));
    B.StartIsReliable(d.bridge, s.bridge.sessions, s.bridge.owners, message, now);
    B.StartAcknowledgesNothing(d.bridge, s.bridge.sessions, message, now);
    assert w !in s.ingress.begun && !Acked(s.bridge, w);
    var e := B.Start(d.bridge, s.bridge.sessions, message, now);
    BeginKeepsLinked(d, s, w, e);
    BeginKeepsRelied(d, s.bridge, w, message, e);
    BeginKeepsAcks(d, s, w, e);
  }

  lemma BeginKeepsLinked(d: Deployment, s: State, w: nat, e: B.Effect)
    requires Linked(s) && QueuedByGateway(s.ingress.works) && Ingress.Enabled(s.ingress, Ingress.Begin(w))
    ensures var t := State(Ingress.Apply(d.topicPrefix, s.ingress, Ingress.Begin(w)),
        B.Perform(s.bridge, w, s.ingress.works[w].event.message, s.bridge.owners, e));
      Linked(t) && QueuedByGateway(t.ingress.works)
  {
  }

  lemma BeginKeepsRelied(d: Deployment, b: B.State, w: nat, message: B.Inbound, e: B.Effect)
    requires Relied(d, b) && e.sessions == b.sessions
    requires B.Reliable(d.bridge, e.sessions, b.owners, B.Handler(message, e.next))
    ensures Relied(d, B.Perform(b, w, message, b.owners, e))
  {
  }

  lemma BeginKeepsAcks(d: Deployment, s: State, w: nat, e: B.Effect)
    requires AcksEarned(s.ingress, s.bridge.acks) && HandlersAck(s.bridge)
    requires Ingress.Enabled(s.ingress, Ingress.Begin(w)) && !Acked(s.bridge, w)
    requires e.ack.None? && e.next != B.Done(B.Ended(B.Acknowledged)) && !e.next.CursorCommand?
    requires e.next.Publishing? ==> !IsDelivery(s.ingress.works[w].event.message)
    ensures var c := B.Perform(s.bridge, w, s.ingress.works[w].event.message, s.bridge.owners, e);
      AcksEarned(Ingress.Apply(d.topicPrefix, s.ingress, Ingress.Begin(w)), c.acks) && HandlersAck(c)
  {
    var message := s.ingress.works[w].event.message;
    var ingress := Ingress.Apply(d.topicPrefix, s.ingress, Ingress.Begin(w));
    assert AcksEarned(ingress, s.bridge.acks);
    PerformKeepsEarned(ingress, s.bridge, w, message, s.bridge.owners, e);
    PerformKeepsHandlersAck(s.bridge, w, message, s.bridge.owners, e);
  }

  lemma ResumeKeepsRelied(d: Deployment, s: State, w: nat, reply: B.Reply, now: nat)
    requires Ingress.Serial(s.ingress) && Linked(s) && QueuedByGateway(s.ingress.works)
    requires Relied(d, s.bridge) && B.CanResume(s.bridge, w, reply)
    ensures Relied(d, B.Resume(d.bridge, s.bridge, w, reply, now))
  {
    B.ProceedIsReliable(d.bridge, s.bridge, w, reply, now);
    PerformKeepsRelied(d, s, w, B.OwnersAfter(s.bridge, reply),
      B.Proceed(d.bridge, s.bridge.sessions, s.bridge.handlers[w], reply, now));
  }

  lemma PerformKeepsRelied(d: Deployment, s: State, w: nat, owners: map<string, B.Owner>, e: B.Effect)
    requires Ingress.Serial(s.ingress) && Linked(s) && QueuedByGateway(s.ingress.works)
    requires Relied(d, s.bridge) && w in s.bridge.handlers
    requires s.bridge.owners.Keys <= owners.Keys && forall id <- s.bridge.owners :: owners[id] == s.bridge.owners[id]
    requires B.Owned(e.sessions, owners)
    requires B.Reliable(d.bridge, e.sessions, owners, B.Handler(s.bridge.handlers[w].message, e.next))
    requires B.TouchesOnly(s.bridge.sessions, e.sessions, owners, B.GatewayOf(s.bridge.handlers[w].message))
    ensures Relied(d, B.Perform(s.bridge, w, s.bridge.handlers[w].message, owners, e))
  {
    var b := s.bridge;
    var c := B.Perform(b, w, b.handlers[w].message, owners, e);
    forall v | v in c.handlers && v != w ensures B.Reliable(d.bridge, c.sessions, c.owners, c.handlers[v]) {
      RunningApart(s, v, w);
      B.ReliableFramed(d.bridge, b.sessions, c.sessions, b.owners, owners, B.GatewayOf(b.handlers[w].message),
        b.handlers[v]);
    }
  }

  lemma ResumeKeepsInv(d: Deployment, s: State, w: nat, reply: B.Reply, now: nat)
    requires Inv(d, s) && Enabled(d, s, ResumeHandler(w, reply, now))
    ensures Inv(d, Apply(d, s, ResumeHandler(w, reply, now)))
  {
    var b := s.bridge;
    ResumeKeepsRelied(d, s, w, reply, now);
    ResumeKeepsAcks(d, s, w, reply, now);
    ResumeKeepsLinked(s, w, B.OwnersAfter(b, reply), B.Proceed(d.bridge, b.sessions, b.handlers[w], reply, now));
  }

  lemma ResumeKeepsLinked(s: State, w: nat, owners: map<string, B.Owner>, e: B.Effect)
    requires Linked(s) && w in s.bridge.handlers
    ensures Linked(State(s.ingress, B.Perform(s.bridge, w, s.bridge.handlers[w].message, owners, e)))
  {
  }

  lemma EarnedEffectKeepsAcks(s: State, w: nat, owners: map<string, B.Owner>, e: B.Effect)
    requires Linked(s) && Ingress.BegunOnce(s.ingress) && AcksEarned(s.ingress, s.bridge.acks) && HandlersAck(s.bridge)
    requires w in s.bridge.handlers && !s.bridge.handlers[w].at.Done?
    requires var h := s.bridge.handlers[w];
      && (e.ack.Some? ==>
        && h.message.Up? && B.AwaitsBusiness(h.at)
        && B.Rightful(e.ack.value.1, h.message.uplink, e.ack.value.0) && e.next == B.Publishing(B.Threw))
      && (IsDelivery(h.message) && e.next.Publishing? ==> e.ack.Some?)
      && (e.next == B.Done(B.Ended(B.Acknowledged)) ==> h.at.Publishing?)
      && (h.at == B.Publishing(B.Threw) ==> AfterAck(e.next))
      && (e.next.CursorCommand? ==> CursorEarned(h.message, e.next.value))
    ensures var c := B.Perform(s.bridge, w, s.bridge.handlers[w].message, owners, e);
      AcksEarned(s.ingress, c.acks) && HandlersAck(c)
  {
    var b := s.bridge;
    assert w in s.ingress.begun;
    PerformKeepsEarned(s.ingress, b, w, b.handlers[w].message, owners, e);
    PerformKeepsHandlersAck(b, w, b.handlers[w].message, owners, e);
  }

  lemma ResumeKeepsAcks(d: Deployment, s: State, w: nat, reply: B.Reply, now: nat)
    requires Linked(s) && Ingress.BegunOnce(s.ingress) && AcksEarned(s.ingress, s.bridge.acks) && HandlersAck(s.bridge)
    requires B.CanResume(s.bridge, w, reply)
    ensures var c := B.Resume(d.bridge, s.bridge, w, reply, now);
      AcksEarned(s.ingress, c.acks) && HandlersAck(c)
  {
    var b := s.bridge;
    B.AcknowledgesOnlyEarned(d.bridge, b.sessions, b.handlers[w], reply, now);
    B.CursorIsForUplinks(d.bridge, b.sessions, b.handlers[w], reply, now);
    EarnedEffectKeepsAcks(s, w, B.OwnersAfter(b, reply), B.Proceed(d.bridge, b.sessions, b.handlers[w], reply, now));
  }

  lemma FinishKeepsInv(d: Deployment, s: State, w: nat)
    requires Inv(d, s) && Enabled(d, s, FinishHandler(w))
    ensures Inv(d, Apply(d, s, FinishHandler(w)))
  {
    Ingress.NextKeepsInv(d.topicPrefix, s.ingress, Ingress.Settle(w));
    FinishKeepsLinked(s, w);
    FinishKeepsBridge(d, s, w);
  }

  lemma FinishKeepsLinked(s: State, w: nat)
    requires Linked(s) && QueuedByGateway(s.ingress.works) && Ingress.Enabled(s.ingress, Ingress.Settle(w))
    ensures var t := State(Ingress.SetPhase(s.ingress, w, Ingress.Settled), B.Finish(s.bridge, w));
      Linked(t) && QueuedByGateway(t.ingress.works)
  {
  }

  lemma FinishKeepsBridge(d: Deployment, s: State, w: nat)
    requires Relied(d, s.bridge) && AcksEarned(s.ingress, s.bridge.acks) && HandlersAck(s.bridge)
    requires Ingress.Enabled(s.ingress, Ingress.Settle(w))
    ensures var b := B.Finish(s.bridge, w);
      Relied(d, b) && AcksEarned(Ingress.SetPhase(s.ingress, w, Ingress.Settled), b.acks) && HandlersAck(b)
  {
    assert forall v: nat :: Acked(B.Finish(s.bridge, w), v) <==> Acked(s.bridge, v);
  }

  lemma NextKeepsInv(d: Deployment, s: State, step: Step)
    requires Inv(d, s)
    ensures Inv(d, Next(d, s, step))
  {
    if Enabled(d, s, step) {
      match step
      case Network(n) => NetworkKeepsInv(d, s, n);
      case BeginHandler(w, now) => BeginKeepsInv(d, s, w, now);
      case ResumeHandler(w, reply, now) => ResumeKeepsInv(d, s, w, reply, now);
      case FinishHandler(w) => FinishKeepsInv(d, s, w);
    }
  }

  lemma {:induction false} RunKeepsInv(d: Deployment, steps: seq<Step>)
    ensures Inv(d, Run(d, steps))
  {
    if steps != [] {
      RunKeepsInv(d, steps[..|steps| - 1]);
      NextKeepsInv(d, Run(d, steps[..|steps| - 1]), steps[|steps| - 1]);
    }
  }

  // ---------- what every run guarantees ----------

  lemma CapturedIsStored(d: Deployment, b: B.State, w: nat)
    requires Relied(d, b) && w in b.handlers && B.Captures(b.handlers[w].at)
    ensures b.handlers[w].message.Up?
    ensures b.handlers[w].at.record.header == b.handlers[w].message.uplink.header
    ensures B.Lookup(b.sessions, b.handlers[w].at.record.header.session) == Some(b.handlers[w].at.record)
  {
    assert B.Reliable(d.bridge, b.sessions, b.owners, b.handlers[w]);
  }

  lemma RunAcks(d: Deployment, steps: seq<Step>)
    ensures AcksEarned(Run(d, steps).ingress, Run(d, steps).bridge.acks) && HandlersAck(Run(d, steps).bridge)
  {
    RunKeepsInv(d, steps);
  }

  lemma RunRelied(d: Deployment, steps: seq<Step>)
    ensures Relied(d, Run(d, steps).bridge)
  {
    RunKeepsInv(d, steps);
  }

  /** No update is lost: whatever other handlers did since, the record a suspended handler will
      write back is still the one in the map, so its write changes nothing but its own update. */
  lemma CapturedRecordIsCurrent(d: Deployment, steps: seq<Step>, w: nat)
    ensures var b := Run(d, steps).bridge;
      w in b.handlers && B.Captures(b.handlers[w].at) ==>
        && b.handlers[w].message.Up?
        && b.handlers[w].at.record.header == b.handlers[w].message.uplink.header
        && B.Lookup(b.sessions, b.handlers[w].at.record.header.session) == Some(b.handlers[w].at.record)
  {
    RunRelied(d, steps);
    var b := Run(d, steps).bridge;
    if w in b.handlers && B.Captures(b.handlers[w].at) {
      CapturedIsStored(d, b, w);
    }
  }

  lemma RunApart(d: Deployment, steps: seq<Step>, v: nat, w: nat)
    requires var b := Run(d, steps).bridge; v in b.handlers && w in b.handlers && v != w
    ensures var b := Run(d, steps).bridge;
      B.GatewayOf(b.handlers[v].message).Some? ==>
        B.GatewayOf(b.handlers[v].message) != B.GatewayOf(b.handlers[w].message)
  {
    RunKeepsInv(d, steps);
    RunningApart(Run(d, steps), v, w);
  }

  /** While a handler has a record captured, a hello of its Gateway is not being accepted and no
      session of its Gateway is being opened. */
  lemma CaptureExcludesOpening(d: Deployment, steps: seq<Step>, v: nat, w: nat)
    ensures var b := Run(d, steps).bridge;
      v in b.handlers && w in b.handlers && v != w && B.Captures(b.handlers[v].at)
        && B.GatewayOf(b.handlers[w].message).Some?
      ==> B.GatewayOf(b.handlers[w].message).value != b.handlers[v].at.record.header.gateway
  {
    var s := Run(d, steps);
    if v in s.bridge.handlers && w in s.bridge.handlers && v != w && B.Captures(s.bridge.handlers[v].at) {
      CapturedRecordIsCurrent(d, steps, v);
      RunApart(d, steps, v, w);
    }
  }

  /** Every entry of the session map changes only as `Evolves` allows, in every step of every run. */
  lemma SessionMapEvolves(d: Deployment, steps: seq<Step>, step: Step, id: string)
    ensures var s := Run(d, steps);
      var before, after := B.Lookup(s.bridge.sessions, id), B.Lookup(Run(d, steps + [step]).bridge.sessions, id);
      after != before ==>
        step.ResumeHandler? && step.w in s.bridge.handlers
          && B.Evolves(d.bridge, s.bridge.handlers[step.w], before, after)
  {
    RunRelied(d, steps);
    var s := Run(d, steps);
    assert (steps + [step])[..|steps|] == steps;
    if Enabled(d, s, step) {
      match step
      case ResumeHandler(w, reply, now) => B.StretchEvolves(d.bridge, s.bridge, w, reply, now, id);
      case BeginHandler(w, now) =>
        B.StartIsReliable(d.bridge, s.bridge.sessions, s.bridge.owners, s.ingress.works[w].event.message, now);
      case _ =>
    }
  }

  /** The session stays cached from one point of a run to a later one. */
  ghost predicate StaysCached(d: Deployment, steps: seq<Step>, more: seq<Step>, id: string) {
    forall k: nat | k <= |more| :: id in Run(d, steps + more[..k]).bridge.sessions
  }

  /** While a session stays cached its stream bindings only grow: none is dropped and none is ever
      bound to another message kind or Integration, whatever else is reported in between. */
  lemma {:induction false} BindingsAppendOnly(d: Deployment, steps: seq<Step>, more: seq<Step>, id: string)
    requires StaysCached(d, steps, more, id)
    ensures id in Run(d, steps).bridge.sessions && id in Run(d, steps + more).bridge.sessions
    ensures var before, after := Run(d, steps).bridge.sessions[id], Run(d, steps + more).bridge.sessions[id];
      && before.header == after.header && before.scope == after.scope && before.origin == after.origin
      && forall key <- before.bindings :: key in after.bindings && after.bindings[key] == before.bindings[key]
  {
    assert id in Run(d, steps + more[..|more|]).bridge.sessions && more[..|more|] == more;
    if more == [] {
      assert steps + more == steps;
    } else {
      var last := |more| - 1;
      var earlier := steps + more[..last];
      forall k: nat | k <= last ensures id in Run(d, steps + more[..last][..k]).bridge.sessions {
        assert more[..last][..k] == more[..k];
      }
      BindingsAppendOnly(d, steps, more[..last], id);
      SessionMapEvolves(d, earlier, more[last], id);
      assert earlier + [more[last]] == steps + more;
    }
  }

  /** A hello that was accepted and restored leaves its session as the only record of its Gateway. */
  lemma HelloLeavesOneRecord(d: Deployment, steps: seq<Step>, w: nat, protocols: set<string>, now: nat)
    requires var b := Run(d, steps).bridge;
      w in b.handlers && b.handlers[w].message.Hello? && b.handlers[w].at.HelloRestoration?
    ensures var h := Run(d, steps).bridge.handlers[w];
      var a := h.at.accepted;
      var t := Run(d, steps + [ResumeHandler(w, B.RestorationReply(Some(protocols)), now)]).bridge;
      && B.RecordsOf(t.sessions, a.scope, a.header.gateway) == {a.header.session}
      && t.sessions[a.header.session] == B.Record(a.scope, a.header, h.message.origin, protocols, map[])
  {
    var step := ResumeHandler(w, B.RestorationReply(Some(protocols)), now);
    RunRelied(d, steps);
    assert (steps + [step])[..|steps|] == steps;
    B.RestorationLeavesOneRecord(d.bridge, Run(d, steps).bridge, w, protocols, now);
  }

  /** A Gateway with at most one record keeps at most one, except exactly when a session that is
      not cached is restored for an authenticated uplink while another record is still there. */
  lemma OneRecordExactly(d: Deployment, steps: seq<Step>, step: Step, scope: Scope, gateway: string)
    requires |B.RecordsOf(Run(d, steps).bridge.sessions, scope, gateway)| <= 1
    ensures var b := Run(d, steps).bridge;
      |B.RecordsOf(Run(d, steps + [step]).bridge.sessions, scope, gateway)| <= 1 <==>
      !(step.ResumeHandler? && B.RestoresUplink(d.bridge, b, step.w, step.reply, scope, gateway)
        && B.RecordsOf(b.sessions, scope, gateway) != {})
  {
    RunRelied(d, steps);
    var s := Run(d, steps);
    assert (steps + [step])[..|steps|] == steps;
    if Enabled(d, s, step) {
      match step
      case ResumeHandler(w, reply, now) => B.RecordsEvolve(d.bridge, s.bridge, w, reply, now, scope, gateway);
      case BeginHandler(w, now) =>
        B.StartIsReliable(d.bridge, s.bridge.sessions, s.bridge.owners, s.ingress.works[w].event.message, now);
      case _ =>
    }
  }

  /** A business command runs only for a delivery its stored session is eligible for. */
  lemma BusinessIsEligible(d: Deployment, steps: seq<Step>, w: nat)
    ensures var b := Run(d, steps).bridge;
      w in b.handlers && b.handlers[w].at.BusinessCommand? ==>
        && b.handlers[w].message.Up?
        && var m := b.handlers[w].message.uplink;
        && m.header.session in b.sessions && b.sessions[m.header.session].header == m.header
        && B.Eligible(d.bridge, b.sessions[m.header.session], m)
  {
    RunRelied(d, steps);
    var b := Run(d, steps).bridge;
    if w in b.handlers && b.handlers[w].at.BusinessCommand? {
      CapturedIsStored(d, b, w);
    }
  }

  /** Somewhere in the run the message of work w was verified by its own signature. */
  ghost predicate Verified(d: Deployment, steps: seq<Step>, w: nat, message: B.Inbound) {
    exists k: nat :: k < |steps| && steps[k].ResumeHandler? && steps[k].w == w
      && Enabled(d, Run(d, steps[..k]), steps[k]) && B.Verifies(d.bridge, message, steps[k].reply)
  }

  lemma VerifiedStays(d: Deployment, steps: seq<Step>, step: Step, w: nat, message: B.Inbound)
    requires Verified(d, steps, w, message)
    ensures Verified(d, steps + [step], w, message)
  {
    var k: nat :| k < |steps| && steps[k].ResumeHandler? && steps[k].w == w
      && Enabled(d, Run(d, steps[..k]), steps[k]) && B.Verifies(d.bridge, message, steps[k].reply);
    assert (steps + [step])[..k] == steps[..k] && (steps + [step])[k] == steps[k];
  }

  lemma ProofPrecedesStep(d: Deployment, s: State, step: Step, w: nat)
    requires var b := Next(d, s, step).bridge; w in b.handlers && B.NeedsProof(b.handlers[w])
    ensures var message := Next(d, s, step).bridge.handlers[w].message;
      || (w in s.bridge.handlers && s.bridge.handlers[w].message == message && B.NeedsProof(s.bridge.handlers[w]))
      || (Enabled(d, s, step) && step.ResumeHandler? && step.w == w && B.Verifies(d.bridge, message, step.reply))
  {
    if Enabled(d, s, step) && step.ResumeHandler? && step.w == w {
      B.ProofComesFirst(d.bridge, s.bridge.sessions, s.bridge.handlers[w], step.reply, step.now);
    } else if Enabled(d, s, step) && step.BeginHandler? && step.w == w {
      B.StartNeedsNoProof(d.bridge, s.bridge.sessions, s.ingress.works[w].event.message, step.now);
    }
  }

  /** No handler ever works on a Gateway-signed session, or restores one, unless the signature of
      its own message was verified earlier in the same handling. */
  lemma {:induction false} SignedUplinksAreVerified(d: Deployment, steps: seq<Step>, w: nat)
    requires var b := Run(d, steps).bridge; w in b.handlers && B.NeedsProof(b.handlers[w])
    ensures Verified(d, steps, w, Run(d, steps).bridge.handlers[w].message)
  {
    if steps != [] {
      var before, step := steps[..|steps| - 1], steps[|steps| - 1];
      assert steps == before + [step];
      var s := Run(d, before);
      var message := Run(d, steps).bridge.handlers[w].message;
      ProofPrecedesStep(d, s, step, w);
      if w in s.bridge.handlers && s.bridge.handlers[w].message == message && B.NeedsProof(s.bridge.handlers[w]) {
        SignedUplinksAreVerified(d, before, w);
        VerifiedStays(d, before, step, w, message);
      }
    }
  }

  /** Every acknowledgement handed to the publisher, in any run, carries exactly the identity of
      the delivery its handler was given, rests on an answer that earned it, and is the only one
      of that delivery. */
  lemma AcksAreEarned(d: Deployment, steps: seq<Step>, i: nat)
    ensures var s := Run(d, steps);
      i < |s.bridge.acks| ==>
        var entry := s.bridge.acks[i];
        && entry.work < |s.ingress.works| && s.ingress.works[entry.work].event.message == B.Up(entry.uplink)
        && B.AckIsFor(entry.ack, entry.uplink) && B.Earned(entry.uplink, entry.value)
        && B.ReceiptIsFrom(entry.ack, entry.uplink, entry.value)
        && forall j: nat | j < |s.bridge.acks| && s.bridge.acks[j].work == entry.work :: j == i
  {
    RunAcks(d, steps);
  }

  /** Each step hands out at most one acknowledgement, and only the step in which a business
      command of a delivery has answered with success. */
  lemma AckFollowsBusinessSuccess(d: Deployment, steps: seq<Step>, step: Step)
    ensures var b, c := Run(d, steps).bridge, Run(d, steps + [step]).bridge;
      c.acks == b.acks
      || (&& step.ResumeHandler? && step.w in b.handlers
          && B.AwaitsBusiness(b.handlers[step.w].at) && step.reply.BusinessReply? && step.reply.answer.Succeeded?
          && |c.acks| == |b.acks| + 1 && c.acks[..|b.acks|] == b.acks
          && var entry := c.acks[|b.acks|];
          && entry.work == step.w && b.handlers[step.w].message == B.Up(entry.uplink)
          && entry.value == (if b.handlers[step.w].at.CursorCommand? then b.handlers[step.w].at.value
            else step.reply.answer.value))
  {
    RunAcks(d, steps);
    var s := Run(d, steps);
    assert (steps + [step])[..|steps|] == steps;
    if Enabled(d, s, step) {
      match step
      case ResumeHandler(w, reply, now) =>
        B.AcknowledgesOnlyEarned(d.bridge, s.bridge.sessions, s.bridge.handlers[w], reply, now);
      case BeginHandler(w, now) =>
        B.StartAcknowledgesNothing(d.bridge, s.bridge.sessions, s.ingress.works[w].event.message, now);
      case _ =>
    }
  }

  /** The step handed out one acknowledgement: the one that is due for this delivery and answer. */
  ghost predicate HandsOut(b: B.State, c: B.State, w: nat, m: Uplink, value: B.Value, now: nat)
    requires m.Delivery?
  {
    && |c.acks| == |b.acks| + 1 && c.acks[..|b.acks|] == b.acks
    && var last := c.acks[|b.acks|];
    last.work == w && last.uplink == m && last.value == value && O.Due(last.ack, m, value, now)
  }

  lemma BusinessStep(d: Deployment, steps: seq<Step>, w: nat, answer: B.Answer, now: nat)
    requires var b := Run(d, steps).bridge; w in b.handlers && b.handlers[w].at.BusinessCommand?
    ensures var b := Run(d, steps).bridge;
      var h := b.handlers[w];
      && h.message.Up? && B.Current(b.sessions, h.message.uplink, h.at.record)
      && Run(d, steps + [ResumeHandler(w, B.BusinessReply(answer), now)]).bridge
        == B.Perform(b, w, h.message, b.owners,
          B.Proceed(d.bridge, b.sessions, h, B.BusinessReply(answer), now))
  {
    RunRelied(d, steps);
    var step := ResumeHandler(w, B.BusinessReply(answer), now);
    assert (steps + [step])[..|steps|] == steps;
    assert B.Reliable(d.bridge, Run(d, steps).bridge.sessions, Run(d, steps).bridge.owners,
      Run(d, steps).bridge.handlers[w]);
  }

  /** When the business command of a delivery has answered, the delivery is acknowledged exactly if
      the answer is sufficient for its kind and for the session stored for it, and then with the
      one acknowledgement that is due; it is deferred exactly if the answer says so. */
  lemma AcknowledgedExactly(d: Deployment, steps: seq<Step>, w: nat, answer: B.Answer, now: nat)
    requires var b := Run(d, steps).bridge; w in b.handlers && b.handlers[w].at.BusinessCommand?
    ensures var b, c := Run(d, steps).bridge,
        Run(d, steps + [ResumeHandler(w, B.BusinessReply(answer), now)]).bridge;
      && b.handlers[w].message.Up?
      && var m := b.handlers[w].message.uplink;
      && m.header.session in b.sessions && w in c.handlers && c.handlers[w].message == B.Up(m)
      && c.handlers[w].at != B.Done(B.Ended(B.Acknowledged))
      && var stored := b.sessions[m.header.session];
      && (if O.AcknowledgedNow(d.bridge, m, stored.scope, answer)
          then HandsOut(b, c, w, m, answer.value, now) else c.acks == b.acks)
      && (c.handlers[w].at == B.Publishing(B.Threw) <==>
        O.AcknowledgedNow(d.bridge, m, stored.scope, answer) || (m.Heartbeat? && answer.Succeeded?))
      && (c.handlers[w].at == B.Done(B.Ended(B.Deferred)) <==> O.DeferredBy(m, answer))
      && (c.handlers[w].at.CursorCommand? <==> answer.Succeeded? && O.AwaitsCursor(d.bridge, m))
      && c.sessions == (if O.Stores(d.bridge, m, stored.scope, answer)
        then b.sessions[m.header.session := O.Traced(m, stored)] else b.sessions)
  {
    BusinessStep(d, steps, w, answer, now);
    var b := Run(d, steps).bridge;
    O.BusinessAnsweredExactly(d.bridge, b.sessions, b.handlers[w].message.uplink, b.handlers[w].at.record, answer, now);
  }

  lemma CursorStep(d: Deployment, steps: seq<Step>, w: nat, answer: B.Answer, now: nat)
    requires var b := Run(d, steps).bridge; w in b.handlers && b.handlers[w].at.CursorCommand?
    ensures var b := Run(d, steps).bridge;
      var h := b.handlers[w];
      && IsDelivery(h.message) && B.Current(b.sessions, h.message.uplink, h.at.record)
      && h.message.uplink.kind.ManifestReport? && h.message.uplink.payload.protocols.Some?
      && Run(d, steps + [ResumeHandler(w, B.BusinessReply(answer), now)]).bridge
        == B.Perform(b, w, h.message, b.owners,
          B.Proceed(d.bridge, b.sessions, h, B.BusinessReply(answer), now))
  {
    RunRelied(d, steps);
    RunShaped(d, steps);
    var step := ResumeHandler(w, B.BusinessReply(answer), now);
    assert (steps + [step])[..|steps|] == steps;
    var b := Run(d, steps).bridge;
    assert B.Reliable(d.bridge, b.sessions, b.owners, b.handlers[w]) && B.Shaped(b.handlers[w]);
  }

  /** A manifest report whose cursor was still to be recorded is acknowledged exactly if that
      succeeds, on the answer that its business command gave before. */
  lemma CursorAcknowledgedExactly(d: Deployment, steps: seq<Step>, w: nat, answer: B.Answer, now: nat)
    requires var b := Run(d, steps).bridge; w in b.handlers && b.handlers[w].at.CursorCommand?
    ensures var b, c := Run(d, steps).bridge,
        Run(d, steps + [ResumeHandler(w, B.BusinessReply(answer), now)]).bridge;
      && IsDelivery(b.handlers[w].message)
      && var m := b.handlers[w].message.uplink;
      && m.kind.ManifestReport? && m.payload.protocols.Some? && m.header.session in b.sessions
      && (if answer.Succeeded? then HandsOut(b, c, w, m, b.handlers[w].at.value, now) else c.acks == b.acks)
      && c.sessions == (if answer.Succeeded?
        then b.sessions[m.header.session := O.Traced(m, b.sessions[m.header.session])] else b.sessions)
  {
    CursorStep(d, steps, w, answer, now);
    var b := Run(d, steps).bridge;
    var h := b.handlers[w];
    O.CursorAnsweredExactly(d.bridge, b.sessions, h.message.uplink, h.at.record, h.at.value, answer, now);
  }

  /** Where a delivery goes first when its turn has come, exactly. */
  lemma BegunExactly(d: Deployment, steps: seq<Step>, w: nat, now: nat)
    requires Enabled(d, Run(d, steps), BeginHandler(w, now))
    ensures var s, t := Run(d, steps), Run(d, steps + [BeginHandler(w, now)]);
      var message := s.ingress.works[w].event.message;
      && w in t.bridge.handlers && t.bridge.handlers[w].message == message
      && O.Begins(d.bridge, s.bridge.sessions, message, now, t.bridge.handlers[w].at)
      && t.bridge.sessions == s.bridge.sessions && t.bridge.acks == s.bridge.acks
  {
    var s := Run(d, steps);
    assert (steps + [BeginHandler(w, now)])[..|steps|] == steps;
    O.BeginsExactly(d.bridge, s.bridge.sessions, s.ingress.works[w].event.message, now);
  }

  /** A delivery ends as acknowledged exactly if its acknowledgement was published. */
  lemma PublishedExactly(d: Deployment, steps: seq<Step>, w: nat, ok: bool, now: nat)
    requires var b := Run(d, steps).bridge; w in b.handlers && IsDelivery(b.handlers[w].message)
    requires Run(d, steps).bridge.handlers[w].at != B.Done(B.Ended(B.Acknowledged))
    ensures var b, c := Run(d, steps).bridge, Run(d, steps + [ResumeHandler(w, B.Published(ok), now)]).bridge;
      && w in c.handlers && c.acks == b.acks
      && (c.handlers[w].at == B.Done(B.Ended(B.Acknowledged)) <==> ok && b.handlers[w].at == B.Publishing(B.Threw))
  {
    RunAcks(d, steps);
    var s := Run(d, steps);
    var step := ResumeHandler(w, B.Published(ok), now);
    assert (steps + [step])[..|steps|] == steps;
    if Enabled(d, s, step) {
      O.OtherRepliesExactly(d.bridge, s.bridge.sessions, s.bridge.handlers[w], B.Published(ok), now);
    }
  }

  lemma QueuedIsNotAcked(s: State, w: nat)
    requires Ingress.Inv(s.ingress) && AcksEarned(s.ingress, s.bridge.acks)
    requires Ingress.Enabled(s.ingress, Ingress.Begin(w))
    ensures !Acked(s.bridge, w)
  {
    assert w !in s.ingress.begun;
  }

  lemma BegunIsNotAcked(d: Deployment, steps: seq<Step>, w: nat, now: nat)
    requires Enabled(d, Run(d, steps), BeginHandler(w, now))
    ensures !Acked(Run(d, steps).bridge, w)
  {
    RunKeepsInv(d, steps);
    QueuedIsNotAcked(Run(d, steps), w);
  }

  lemma HandedOutIsAcked(b: B.State, c: B.State, w: nat, m: Uplink, value: B.Value, now: nat)
    requires m.Delivery? && HandsOut(b, c, w, m, value, now)
    ensures Acked(c, w)
  {
    assert c.acks[|b.acks|].work == w;
  }

  /** An answer moves a delivery to publication exactly if its business command was awaited and the
      answer lets it be acknowledged. */
  lemma AnsweredDelivery(d: Deployment, steps: seq<Step>, w: nat, answer: B.Answer, now: nat)
    requires var b := Run(d, steps).bridge; w in b.handlers && IsDelivery(b.handlers[w].message) && !Acked(b, w)
    requires var at := Run(d, steps).bridge.handlers[w].at; !at.CursorCommand? && !at.Publishing?
    ensures var b, c := Run(d, steps).bridge,
        Run(d, steps + [ResumeHandler(w, B.BusinessReply(answer), now)]).bridge;
      var m := b.handlers[w].message.uplink;
      var acknowledged := b.handlers[w].at.BusinessCommand? && m.header.session in b.sessions
        && O.AcknowledgedNow(d.bridge, m, b.sessions[m.header.session].scope, answer);
      && w in c.handlers && c.handlers[w].message == b.handlers[w].message
      && (Acked(c, w) <==> acknowledged) && (c.handlers[w].at == B.Publishing(B.Threw) <==> acknowledged)
      && (c.handlers[w].at == B.Done(B.Ended(B.Acknowledged)) ==>
        b.handlers[w].at == B.Done(B.Ended(B.Acknowledged)))
      && (b.handlers[w].at.BusinessCommand? ==> m.header.session in b.sessions)
      && (!b.handlers[w].at.BusinessCommand? ==> c == b)
  {
    var b := Run(d, steps).bridge;
    if b.handlers[w].at.BusinessCommand? {
      var c := Run(d, steps + [ResumeHandler(w, B.BusinessReply(answer), now)]).bridge;
      AcknowledgedExactly(d, steps, w, answer, now);
      if c.acks != b.acks {
        HandedOutIsAcked(b, c, w, b.handlers[w].message.uplink, answer.value, now);
      }
    } else {
      assert (steps + [ResumeHandler(w, B.BusinessReply(answer), now)])[..|steps|] == steps;
    }
  }

  /** The whole way of a delivery that the cached session of its connector vouches for: from its
      turn in the queue, through the answer of its business command, to publication. It ends as
      acknowledged exactly if it is neither expired nor ineligible, the answer is sufficient, no
      cursor is to be recorded, and publication succeeds. */
  lemma VouchedDeliveryExactly(
      d: Deployment, steps: seq<Step>, w: nat, t0: nat, answer: B.Answer, t1: nat, ok: bool, t2: nat)
    requires Enabled(d, Run(d, steps), BeginHandler(w, t0))
    requires var message := Run(d, steps).ingress.works[w].event.message;
      IsDelivery(message) && O.Vouched(Run(d, steps).bridge.sessions, message.uplink)
    ensures var s := Run(d, steps);
      var m := s.ingress.works[w].event.message.uplink;
      var stored := s.bridge.sessions[m.header.session];
      var reached := B.Eligible(d.bridge, stored, m) && !O.Expired(m, t0)
        && (m.kind.ActionReceipt? ==> d.bridge.controlEnabled);
      var t := Run(d, steps + [BeginHandler(w, t0)] + [ResumeHandler(w, B.BusinessReply(answer), t1)]
        + [ResumeHandler(w, B.Published(ok), t2)]);
      && w in t.bridge.handlers
      && (t.bridge.handlers[w].at == B.Done(B.Ended(B.Acknowledged)) <==>
        reached && O.AcknowledgedNow(d.bridge, m, stored.scope, answer) && ok)
      && (Acked(t.bridge, w) <==> reached && O.AcknowledgedNow(d.bridge, m, stored.scope, answer))
  {
    var begun := steps + [BeginHandler(w, t0)];
    BegunExactly(d, steps, w, t0);
    BegunIsNotAcked(d, steps, w, t0);
    AnsweredDelivery(d, begun, w, answer, t1);
    PublishedExactly(d, begun + [ResumeHandler(w, B.BusinessReply(answer), t1)], w, ok, t2);
  }

  /** The step moves handler w to `at` and touches neither sessions nor acknowledgements. */
  ghost predicate OnlyMoves(b: B.State, c: B.State, w: nat, at: B.Await) {
    && w in b.handlers && w in c.handlers && c.handlers[w] == B.Handler(b.handlers[w].message, at)
    && c.sessions == b.sessions && c.acks == b.acks
  }

  /** The cached session is a Gateway-signed one of the deployment and of the message's identity. */
  predicate SignedCached(d: Deployment, sessions: B.Sessions, m: Uplink) {
    && m.header.session in sessions
    && var stored := sessions[m.header.session];
    stored.origin.GatewaySigned? && stored.scope == d.bridge.scope && stored.header == m.header
  }

  /** A verification of the message is never refused as dishonest. */
  lemma VerificationIsHonest(d: Deployment, b: B.State, m: Uplink, a: U.Authenticated)
    requires B.Owned(b.sessions, b.owners) && SignedCached(d, b.sessions, m)
    requires U.BridgeAccepts(m, d.bridge.scope, a)
    ensures B.AnswersHonestly(b, B.AuthenticationReply(Some(a)))
  {
    U.BridgeAcceptsExactly(m, d.bridge.scope, a);
  }

  lemma VerifiedStep(d: Deployment, steps: seq<Step>, w: nat, a: Option<U.Authenticated>, now: nat)
    requires var b := Run(d, steps).bridge; w in b.handlers && IsDelivery(b.handlers[w].message)
    requires SignedCached(d, Run(d, steps).bridge.sessions, Run(d, steps).bridge.handlers[w].message.uplink)
    ensures var b, c := Run(d, steps).bridge, Run(d, steps + [ResumeHandler(w, B.AuthenticationReply(a), now)]).bridge;
      var h := b.handlers[w];
      if h.at.Authentication? && a.Some? && U.BridgeAccepts(h.message.uplink, d.bridge.scope, a.value)
      then OnlyMoves(b, c, w, B.Dispatching(b.sessions[h.message.uplink.header.session], a.value.replayed))
      else OnlyMoves(b, c, w, h.at) || OnlyMoves(b, c, w, B.Done(B.Ended(B.Discarded)))
  {
    RunRelied(d, steps);
    var s := Run(d, steps);
    var b, h := s.bridge, s.bridge.handlers[w];
    var step := ResumeHandler(w, B.AuthenticationReply(a), now);
    assert (steps + [step])[..|steps|] == steps;
    if h.at.Authentication? {
      if a.Some? && U.BridgeAccepts(h.message.uplink, d.bridge.scope, a.value) {
        VerificationIsHonest(d, b, h.message.uplink, a.value);
      }
      if Enabled(d, s, step) {
        O.AuthenticationExactly(d.bridge, b.sessions, h.message.uplink, a, now);
      }
    }
  }

  lemma DispatchedStep(d: Deployment, steps: seq<Step>, w: nat, now: nat)
    requires var b := Run(d, steps).bridge; w in b.handlers && IsDelivery(b.handlers[w].message)
    ensures var b, c := Run(d, steps).bridge, Run(d, steps + [ResumeHandler(w, B.Continue, now)]).bridge;
      var h := b.handlers[w];
      if h.at.Dispatching? && B.Eligible(d.bridge, h.at.record, h.message.uplink)
      then OnlyMoves(b, c, w, B.BusinessCommand(h.at.record))
      else if h.at.Dispatching? then OnlyMoves(b, c, w, B.Done(B.Ended(B.Rejected)))
        || OnlyMoves(b, c, w, B.Done(B.Ended(B.Discarded)))
      else OnlyMoves(b, c, w, h.at)
  {
    var s := Run(d, steps);
    var h := s.bridge.handlers[w];
    var step := ResumeHandler(w, B.Continue, now);
    assert (steps + [step])[..|steps|] == steps;
    if h.at.Dispatching? {
      O.SignedDispatchExactly(d.bridge, s.bridge.sessions, h.message.uplink, h.at.record, h.at.replayed, now);
    }
  }

  /** The whole way of a delivery of a cached Gateway-signed session, through the verification of its
      own signature. It ends as acknowledged exactly if the bridge accepts the verification, the
      delivery is eligible, the answer is sufficient, no cursor is to be recorded, and publication
      succeeds. */
  lemma SignedDeliveryExactly(
      d: Deployment, steps: seq<Step>, w: nat, t0: nat, a: Option<U.Authenticated>, t1: nat, t2: nat,
      answer: B.Answer, t3: nat, ok: bool, t4: nat)
    requires Enabled(d, Run(d, steps), BeginHandler(w, t0))
    requires var message := Run(d, steps).ingress.works[w].event.message;
      IsDelivery(message) && SignedCached(d, Run(d, steps).bridge.sessions, message.uplink)
    ensures var s := Run(d, steps);
      var m := s.ingress.works[w].event.message.uplink;
      var stored := s.bridge.sessions[m.header.session];
      var reached := d.bridge.gatewaySigned && m.signature.Some?
        && (m.kind.ActionReceipt? ==> d.bridge.controlEnabled)
        && a.Some? && U.BridgeAccepts(m, d.bridge.scope, a.value) && B.Eligible(d.bridge, stored, m);
      var t := Run(d, steps + [BeginHandler(w, t0)] + [ResumeHandler(w, B.AuthenticationReply(a), t1)]
        + [ResumeHandler(w, B.Continue, t2)] + [ResumeHandler(w, B.BusinessReply(answer), t3)]
        + [ResumeHandler(w, B.Published(ok), t4)]);
      && w in t.bridge.handlers
      && (t.bridge.handlers[w].at == B.Done(B.Ended(B.Acknowledged)) <==>
        reached && O.AcknowledgedNow(d.bridge, m, stored.scope, answer) && ok)
      && (Acked(t.bridge, w) <==> reached && O.AcknowledgedNow(d.bridge, m, stored.scope, answer))
  {
    var begun := steps + [BeginHandler(w, t0)];
    var verified := begun + [ResumeHandler(w, B.AuthenticationReply(a), t1)];
    var dispatched := verified + [ResumeHandler(w, B.Continue, t2)];
    BegunExactly(d, steps, w, t0);
    BegunIsNotAcked(d, steps, w, t0);
    VerifiedStep(d, begun, w, a, t1);
    DispatchedStep(d, verified, w, t2);
    AnsweredDelivery(d, dispatched, w, answer, t3);
    PublishedExactly(d, dispatched + [ResumeHandler(w, B.BusinessReply(answer), t3)], w, ok, t4);
  }

  /** Somewhere in the run the business command of work w answered with success and this value. */
  ghost predicate Answered(d: Deployment, steps: seq<Step>, w: nat, value: B.Value) {
    exists k: nat :: k < |steps| && steps[k].ResumeHandler? && steps[k].w == w
      && Enabled(d, Run(d, steps[..k]), steps[k]) && steps[k].reply == B.BusinessReply(B.Succeeded(value))
      && Run(d, steps[..k]).bridge.handlers[w].at.BusinessCommand?
  }

  lemma AnsweredStays(d: Deployment, steps: seq<Step>, step: Step, w: nat, value: B.Value)
    requires Answered(d, steps, w, value)
    ensures Answered(d, steps + [step], w, value)
  {
    var k: nat :| k < |steps| && steps[k].ResumeHandler? && steps[k].w == w
      && Enabled(d, Run(d, steps[..k]), steps[k]) && steps[k].reply == B.BusinessReply(B.Succeeded(value))
      && Run(d, steps[..k]).bridge.handlers[w].at.BusinessCommand?;
    assert (steps + [step])[..k] == steps[..k] && (steps + [step])[k] == steps[k];
  }

  lemma AnsweredNow(d: Deployment, steps: seq<Step>, step: Step, value: B.Value)
    requires step.ResumeHandler? && Enabled(d, Run(d, steps), step)
    requires step.reply == B.BusinessReply(B.Succeeded(value))
    requires Run(d, steps).bridge.handlers[step.w].at.BusinessCommand?
    ensures Answered(d, steps + [step], step.w, value)
  {
    var all := steps + [step];
    assert all[..|steps|] == steps && all[|steps|] == step;
  }

  lemma CursorPrecedesStep(d: Deployment, s: State, step: Step, w: nat)
    requires var b := Next(d, s, step).bridge; w in b.handlers && b.handlers[w].at.CursorCommand?
    ensures var at := Next(d, s, step).bridge.handlers[w].at;
      || (w in s.bridge.handlers && s.bridge.handlers[w].at == at)
      || (Enabled(d, s, step) && step.ResumeHandler? && step.w == w && s.bridge.handlers[w].at.BusinessCommand?
        && step.reply == B.BusinessReply(B.Succeeded(at.value)))
  {
    if Enabled(d, s, step) && step.ResumeHandler? && step.w == w {
      B.CursorCarriesAnswer(d.bridge, s.bridge.sessions, s.bridge.handlers[w], step.reply, step.now);
    } else if Enabled(d, s, step) && step.BeginHandler? && step.w == w {
      B.StartAcknowledgesNothing(d.bridge, s.bridge.sessions, s.ingress.works[w].event.message, step.now);
    }
  }

  lemma {:induction false} CursorFollowsAnswer(d: Deployment, steps: seq<Step>, w: nat)
    requires var b := Run(d, steps).bridge; w in b.handlers && b.handlers[w].at.CursorCommand?
    ensures Answered(d, steps, w, Run(d, steps).bridge.handlers[w].at.value)
  {
    if steps != [] {
      var before, step := steps[..|steps| - 1], steps[|steps| - 1];
      assert steps == before + [step];
      var b, at := Run(d, before).bridge, Run(d, steps).bridge.handlers[w].at;
      CursorPrecedesStep(d, Run(d, before), step, w);
      if w in b.handlers && b.handlers[w].at == at {
        CursorFollowsAnswer(d, before, w);
        AnsweredStays(d, before, step, w, at.value);
      } else {
        AnsweredNow(d, before, step, at.value);
      }
    }
  }

  /** Every acknowledgement rests on the answer that the business command of its own delivery gave
      earlier in the run, also when a cursor command was awaited in between. */
  lemma {:induction false} AckRestsOnBusinessAnswer(d: Deployment, steps: seq<Step>, i: nat)
    requires i < |Run(d, steps).bridge.acks|
    ensures var entry := Run(d, steps).bridge.acks[i]; Answered(d, steps, entry.work, entry.value)
  {
    if steps != [] {
      var before, step := steps[..|steps| - 1], steps[|steps| - 1];
      assert steps == before + [step];
      var b, entry := Run(d, before).bridge, Run(d, steps).bridge.acks[i];
      AckFollowsBusinessSuccess(d, before, step);
      if i < |b.acks| {
        assert Run(d, steps).bridge.acks[..|b.acks|][i] == entry;
        AckRestsOnBusinessAnswer(d, before, i);
        AnsweredStays(d, before, step, entry.work, entry.value);
      } else if b.handlers[step.w].at.CursorCommand? {
        CursorFollowsAnswer(d, before, step.w);
        AnsweredStays(d, before, step, entry.work, entry.value);
      } else {
        AnsweredNow(d, before, step, entry.value);
      }
    }
  }

  /** A delivery whose handling ended as acknowledged was acknowledged, and one that ended as
      deferred, rejected or discarded was not. */
  lemma OutcomeTellsAck(d: Deployment, steps: seq<Step>, w: nat)
    requires var b := Run(d, steps).bridge;
      w in b.handlers && IsDelivery(b.handlers[w].message) && b.handlers[w].at.Done? && b.handlers[w].at.ending.Ended?
    ensures var b := Run(d, steps).bridge;
      b.handlers[w].at.ending.outcome == B.Acknowledged <==> Acked(b, w)
  {
    RunAcks(d, steps);
  }

  lemma IdleHasNoHandlers(s: State)
    requires Linked(s) && Ingress.AllSettled(s.ingress)
    ensures s.bridge.handlers == map[]
  {
    assert forall w: nat :: w !in s.bridge.handlers;
  }

  lemma NextKeepsIdle(d: Deployment, s: State, step: Step, c: nat)
    requires c < |s.ingress.closers| && !s.ingress.closers[c].Draining?
    ensures var closers := Next(d, s, step).ingress.closers; c < |closers| && !closers[c].Draining?
  {
    if Enabled(d, s, step) {
      match step
      case Network(n) => Ingress.NextKeepsIdle(d.topicPrefix, s.ingress, n, c);
      case _ =>
    }
  }

  /** Once a close() call has reached the transport, or has returned, there is no bridge handler at
      all, then or after any further steps, and none can begin. */
  lemma {:induction false} CloseLeavesNoHandler(d: Deployment, steps: seq<Step>, more: seq<Step>, c: nat)
    requires var closers := Run(d, steps).ingress.closers; c < |closers| && !closers[c].Draining?
    ensures var closers := Run(d, steps + more).ingress.closers; c < |closers| && !closers[c].Draining?
    ensures Run(d, steps + more).bridge.handlers == map[]
    ensures forall w: nat, now: nat :: !Enabled(d, Run(d, steps + more), BeginHandler(w, now))
  {
    if more == [] {
      assert steps + more == steps;
    } else {
      var last := |more| - 1;
      assert (steps + more)[..|steps + more| - 1] == steps + more[..last];
      CloseLeavesNoHandler(d, steps, more[..last], c);
      NextKeepsIdle(d, Run(d, steps + more[..last]), more[last], c);
    }
    ClosedIsIdle(d, steps + more, c);
  }

  lemma ClosedIsIdle(d: Deployment, steps: seq<Step>, c: nat)
    requires var closers := Run(d, steps).ingress.closers; c < |closers| && !closers[c].Draining?
    ensures Run(d, steps).bridge.handlers == map[]
    ensures forall w: nat, now: nat :: !Enabled(d, Run(d, steps), BeginHandler(w, now))
  {
    RunKeepsInv(d, steps);
    IdleHasNoHandlers(Run(d, steps));
  }

  // ---------- progress ----------

  ghost predicate AllShaped(b: B.State) {
    forall w <- b.handlers :: B.Shaped(b.handlers[w])
  }

  lemma NextKeepsShaped(d: Deployment, s: State, step: Step)
    requires AllShaped(s.bridge)
    ensures AllShaped(Next(d, s, step).bridge)
  {
    if Enabled(d, s, step) {
      match step
      case BeginHandler(w, now) =>
        B.StartIsShaped(d.bridge, s.bridge.sessions, s.ingress.works[w].event.message, now);
      case ResumeHandler(w, reply, now) =>
        B.ProceedIsShaped(d.bridge, s.bridge.sessions, s.bridge.handlers[w], reply, now);
      case _ =>
    }
  }

  lemma {:induction false} RunShaped(d: Deployment, steps: seq<Step>)
    ensures AllShaped(Run(d, steps).bridge)
  {
    if steps != [] {
      RunShaped(d, steps[..|steps| - 1]);
      NextKeepsShaped(d, Run(d, steps[..|steps| - 1]), steps[|steps| - 1]);
    }
  }

  /** The work that a step moves, if it moves one. */
  function Mover(step: Step): Option<nat> {
    match step
    case Network(_) => None
    case BeginHandler(w, _) => Some(w)
    case ResumeHandler(w, _, _) => Some(w)
    case FinishHandler(w) => Some(w)
  }

  lemma HandlerCanMove(d: Deployment, steps: seq<Step>, w: nat)
    requires w in Run(d, steps).bridge.handlers
    ensures exists step: Step :: Mover(step) == Some(w) && Enabled(d, Run(d, steps), step)
  {
    RunShaped(d, steps);
    RunLinked(d, steps);
    var s := Run(d, steps);
    var h := s.bridge.handlers[w];
    var step := if h.at.Done? then FinishHandler(w) else ResumeHandler(w, B.SomeReply(h), 0);
    if !h.at.Done? {
      B.SomeReplyFits(s.bridge, w);
    }
    assert Mover(step) == Some(w) && Enabled(d, s, step);
  }

  lemma RunLinked(d: Deployment, steps: seq<Step>)
    ensures Linked(Run(d, steps)) && Ingress.Chained(Run(d, steps).ingress)
  {
    RunKeepsInv(d, steps);
  }

  /** No delivery is ever stuck: some delivery of its key, itself or one before it, has a handler
      that can begin, go on or finish. */
  lemma {:induction false} DeliveriesNeverStall(d: Deployment, steps: seq<Step>, w: nat)
    requires var works := Run(d, steps).ingress.works; w < |works| && works[w].phase != Ingress.Settled
    ensures var s := Run(d, steps);
      exists step: Step :: Mover(step).Some? && Mover(step).value <= w
        && s.ingress.works[Mover(step).value].key == s.ingress.works[w].key && Enabled(d, s, step)
    decreases w
  {
    RunLinked(d, steps);
    var s := Run(d, steps);
    if s.ingress.works[w].phase == Ingress.Running {
      HandlerCanMove(d, steps, w);
    } else if Ingress.Unblocked(s.ingress, w) {
      assert Mover(BeginHandler(w, 0)) == Some(w) && Enabled(d, s, BeginHandler(w, 0));
    } else {
      DeliveriesNeverStall(d, steps, s.ingress.works[w].prior.value);
    }
  }

  /** The step takes handler w nearer to its end if it is its own reply, and else leaves it alone. */
  ghost predicate MovesHandler(d: Deployment, s: State, step: Step, w: nat) {
    var b, c := s.bridge.handlers, Next(d, s, step).bridge.handlers;
    && w in b && w in c && B.Remaining(b[w].at) <= 6
    && if step.ResumeHandler? && step.w == w then B.Remaining(c[w].at) < B.Remaining(b[w].at) else c[w] == b[w]
  }

  lemma StepMovesHandler(d: Deployment, s: State, step: Step, w: nat)
    requires Linked(s) && AllShaped(s.bridge) && w in s.bridge.handlers && !step.FinishHandler?
    requires Enabled(d, s, step)
    ensures MovesHandler(d, s, step, w)
  {
    if step.ResumeHandler? {
      B.ProceedIsShaped(d.bridge, s.bridge.sessions, s.bridge.handlers[step.w], step.reply, step.now);
    }
  }

  /** A handler ends after at most six replies: each brings it nearer to its end, and nothing else
      changes where it waits. */
  lemma RepliesBringHandlerNearer(d: Deployment, steps: seq<Step>, step: Step, w: nat)
    requires w in Run(d, steps).bridge.handlers && Enabled(d, Run(d, steps), step) && !step.FinishHandler?
    ensures MovesHandler(d, Run(d, steps), step, w)
  {
    RunShaped(d, steps);
    RunLinked(d, steps);
    StepMovesHandler(d, Run(d, steps), step, w);
  }
}
