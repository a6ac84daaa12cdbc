/** A run after which one Gateway has two records: uplinks of two of its sessions, both opened
    outside the run, are authenticated one after the other. */
module SecondRecord {
  import opened Wrappers
  import opened CloudLinkMessages
  import opened CloudLinkSystem
  import Ingress
  import B = Bridge
  import U = UplinkAuthentication

  const SCOPE := Scope("t", "p")
  const DEPLOYMENT := Deployment("a",
    B.Config(SCOPE, true, false, false, false, false, false, false, false))

  function SomeDigest(): (digest: string)
    ensures IsDigest(digest)
  {
    "sha256:" + seq(64, i => '0')
  }

  /** A signed heartbeat of Gateway "g" in the given session. */
  function Beat(session: string): Uplink {
    Heartbeat(Header("g", session, 1, 1), Some(Signature("k", "")), 5)
  }

  function Arrival(session: string): Ingress.Event<B.Inbound> {
    Ingress.Event(Ingress.UplinkTopic("a", "g", "heartbeat"), false, 1, B.Up(Beat(session)))
  }

  /** The authentication command's answer for it. */
  function Attested(session: string): U.Authenticated {
    var m := Beat(session);
    U.Authenticated(false, U.Fact(SCOPE, m.header, 1, "k", HeartbeatKind, SomeDigest(),
      U.ProjectUplink(U.CommandInput(m, SCOPE).value), true))
  }

  function RecordFor(session: string): B.Record {
    B.Record(SCOPE, Beat(session).header, B.GatewaySigned, {}, map[])
  }

  lemma AttestedIsAccepted(session: string)
    requires session != ""
    ensures U.BridgeAccepts(Beat(session), SCOPE, Attested(session))
  {
    U.ProjectionsAgree(Beat(session), SCOPE, Attested(session).fact.projection);
  }

  /** The heartbeat arrives as work w, is verified, and its session is restored. */
  function Arrive(w: nat, session: string): seq<Step> {
    [Network(Ingress.Deliver(Arrival(session))), BeginHandler(w, 0),
     ResumeHandler(w, B.AuthenticationReply(Some(Attested(session))), 0),
     ResumeHandler(w, B.RestorationReply(Some({})), 0)]
  }

  /** Its handler goes on, its business command throws, and it ends. */
  function Leave(w: nat): seq<Step> {
    [ResumeHandler(w, B.Continue, 0), ResumeHandler(w, B.CommandThrew, 0), FinishHandler(w)]
  }

  ghost function RunFrom(s: State, steps: seq<Step>): State
    decreases |steps|
  {
    if steps == [] then s else RunFrom(Next(DEPLOYMENT, s, steps[0]), steps[1..])
  }

  lemma {:induction false} RunSplits(first: seq<Step>, rest: seq<Step>)
    ensures Run(DEPLOYMENT, first + rest) == RunFrom(Run(DEPLOYMENT, first), rest)
    decreases |rest|
  {
    if rest == [] {
      assert first + rest == first;
    } else {
      var next := first + [rest[0]];
      assert next[..|next| - 1] == first && next + rest[1..] == first + rest;
      RunSplits(next, rest[1..]);
    }
  }

  lemma RunThree(s: State, a: Step, b: Step, c: Step)
    ensures RunFrom(s, [a, b, c]) == Next(DEPLOYMENT, Next(DEPLOYMENT, Next(DEPLOYMENT, s, a), b), c)
  {
    assert [a, b, c][1..] == [b, c] && [b, c][1..] == [c];
    var x := Next(DEPLOYMENT, Next(DEPLOYMENT, s, a), b);
    assert RunFrom(x, [c]) == RunFrom(Next(DEPLOYMENT, x, c), [c][1..]);
  }

  lemma RunFour(s: State, a: Step, b: Step, c: Step, d: Step)
    ensures RunFrom(s, [a, b, c, d])
      == Next(DEPLOYMENT, Next(DEPLOYMENT, Next(DEPLOYMENT, Next(DEPLOYMENT, s, a), b), c), d)
  {
    assert [a, b, c, d][1..] == [b, c, d];
    RunThree(Next(DEPLOYMENT, s, a), b, c, d);
  }

  /** Work w is there in the given phase, with its handler if it has one; nothing is being closed. */
  ghost predicate Placed(s: State, w: nat, session: string, phase: Ingress.Phase, at: Option<B.Await>) {
    && |s.ingress.works| == w + 1 && s.ingress.works[w].phase == phase && Ingress.Unblocked(s.ingress, w)
    && s.ingress.works[w].event.message == B.Up(Beat(session))
    && "g" in s.ingress.tails && s.ingress.tails["g"] == w && !s.ingress.closing
    && (at.Some? ==> w in s.bridge.handlers && s.bridge.handlers[w] == B.Handler(B.Up(Beat(session)), at.value))
  }

  /** Every work so far has settled, and nothing is being closed. */
  ghost predicate Ready(s: State, w: nat) {
    && w == |s.ingress.works| && !s.ingress.closing
    && ("g" in s.ingress.tails ==>
      s.ingress.tails["g"] < w && s.ingress.works[s.ingress.tails["g"]].phase == Ingress.Settled)
  }

  lemma DeliverPlaces(s: State, w: nat, session: string)
    requires Ready(s, w)
    ensures var t := Next(DEPLOYMENT, s, Network(Ingress.Deliver(Arrival(session))));
      Placed(t, w, session, Ingress.Queued, None) && t.bridge == s.bridge
  {
    Ingress.UplinkTopicKey("a", "g", "heartbeat");
    assert Arrival(session).topic == Ingress.UplinkTopic("a", "g", "heartbeat");
  }

  lemma BeginAwaitsVerification(s: State, w: nat, session: string)
    requires Placed(s, w, session, Ingress.Queued, None) && session !in s.bridge.sessions
    ensures var t := Next(DEPLOYMENT, s, BeginHandler(w, 0));
      && Placed(t, w, session, Ingress.Running, Some(B.Authentication))
      && t.bridge.sessions == s.bridge.sessions && t.bridge.owners == s.bridge.owners
  {
  }

  lemma VerificationAwaitsRestoration(s: State, w: nat, session: string)
    requires Placed(s, w, session, Ingress.Running, Some(B.Authentication)) && session != ""
    requires session !in s.bridge.sessions && session !in s.bridge.owners
    ensures var t := Next(DEPLOYMENT, s, ResumeHandler(w, B.AuthenticationReply(Some(Attested(session))), 0));
      && Placed(t, w, session, Ingress.Running, Some(B.UplinkRestoration(false)))
      && t.bridge.sessions == s.bridge.sessions
      && t.bridge.owners == s.bridge.owners[session := B.Owner(SCOPE, "g")]
  {
    AttestedIsAccepted(session);
  }

  lemma RestorationStores(s: State, w: nat, session: string)
    requires Placed(s, w, session, Ingress.Running, Some(B.UplinkRestoration(false)))
    ensures var t := Next(DEPLOYMENT, s, ResumeHandler(w, B.RestorationReply(Some({})), 0));
      && Placed(t, w, session, Ingress.Running, Some(B.Dispatching(RecordFor(session), false)))
      && t.bridge.sessions == s.bridge.sessions[session := RecordFor(session)]
      && t.bridge.owners == s.bridge.owners
  {
  }

  /** A heartbeat of a session that is not cached adds its record. */
  lemma ArriveAddsRecord(s: State, w: nat, session: string)
    requires Ready(s, w) && session != "" && session !in s.bridge.sessions && session !in s.bridge.owners
    ensures var t := RunFrom(s, Arrive(w, session));
      && Placed(t, w, session, Ingress.Running, Some(B.Dispatching(RecordFor(session), false)))
      && t.bridge.sessions == s.bridge.sessions[session := RecordFor(session)]
      && t.bridge.owners == s.bridge.owners[session := B.Owner(SCOPE, "g")]
  {
    var steps := Arrive(w, session);
    RunFour(s, steps[0], steps[1], steps[2], steps[3]);
    var s1 := Next(DEPLOYMENT, s, steps[0]);
    var s2 := Next(DEPLOYMENT, s1, steps[1]);
    var s3 := Next(DEPLOYMENT, s2, steps[2]);
    DeliverPlaces(s, w, session);
    BeginAwaitsVerification(s1, w, session);
    VerificationAwaitsRestoration(s2, w, session);
    RestorationStores(s3, w, session);
  }

  lemma ContinueAwaitsBusiness(s: State, w: nat, session: string)
    requires Placed(s, w, session, Ingress.Running, Some(B.Dispatching(RecordFor(session), false)))
    ensures var t := Next(DEPLOYMENT, s, ResumeHandler(w, B.Continue, 0));
      && Placed(t, w, session, Ingress.Running, Some(B.BusinessCommand(RecordFor(session))))
      && t.bridge.sessions == s.bridge.sessions && t.bridge.owners == s.bridge.owners
  {
  }

  lemma ThrowEnds(s: State, w: nat, session: string)
    requires Placed(s, w, session, Ingress.Running, Some(B.BusinessCommand(RecordFor(session))))
    ensures var t := Next(DEPLOYMENT, s, ResumeHandler(w, B.CommandThrew, 0));
      && Placed(t, w, session, Ingress.Running, Some(B.Done(B.Threw)))
      && t.bridge.sessions == s.bridge.sessions && t.bridge.owners == s.bridge.owners
  {
  }

  lemma LeaveKeepsRecords(s: State, w: nat, session: string)
    requires Placed(s, w, session, Ingress.Running, Some(B.Dispatching(RecordFor(session), false)))
    ensures var t := RunFrom(s, Leave(w));
      Ready(t, w + 1) && t.bridge.sessions == s.bridge.sessions && t.bridge.owners == s.bridge.owners
  {
    var steps := Leave(w);
    RunThree(s, steps[0], steps[1], steps[2]);
    ContinueAwaitsBusiness(s, w, session);
    ThrowEnds(Next(DEPLOYMENT, s, steps[0]), w, session);
  }

  /** Heartbeats of two sessions, one after the other. */
  function Steps(first: string, second: string): seq<Step> {
    Arrive(0, first) + Leave(0) + Arrive(1, second)
  }

  lemma ThreeParts(a: seq<Step>, b: seq<Step>, c: seq<Step>)
    ensures Run(DEPLOYMENT, a + b + c) == RunFrom(RunFrom(RunFrom(Initial(), a), b), c)
  {
    assert [] + a == a;
    RunSplits([], a);
    RunSplits(a, b);
    RunSplits(a + b, c);
  }

  lemma StepsStoreBoth(first: string, second: string)
    requires first != "" && second != "" && first != second
    ensures Run(DEPLOYMENT, Steps(first, second)).bridge.sessions
      == map[first := RecordFor(first), second := RecordFor(second)]
  {
    ThreeParts(Arrive(0, first), Leave(0), Arrive(1, second));
    var s1 := RunFrom(Initial(), Arrive(0, first));
    ArriveAddsRecord(Initial(), 0, first);
    LeaveKeepsRecords(s1, 0, first);
    ArriveAddsRecord(RunFrom(s1, Leave(0)), 1, second);
  }

  /** The Gateway ends with the records of both sessions. */
  lemma TwoRecordsExample(first: string, second: string)
    requires first != "" && second != "" && first != second
    ensures var records := B.RecordsOf(Run(DEPLOYMENT, Steps(first, second)).bridge.sessions, SCOPE, "g");
      records == {first, second} && |records| == 2
  {
    StepsStoreBoth(first, second);
  }
}
