/** The start and close protocol of the CloudLink runtime.

    Calls of start() and close() interleave with the completion of the Broker connect and with the
    closing of the ingress and of the projection pool, one stretch of the event loop per step. */
module RuntimeLifecycle {
  import opened Wrappers

  /** An attempt to connect, shared by the start() calls that join it. An attempt whose connect
      completes after close() was called closes the orphaned ingress itself. */
  datatype Attempt =
    | Connecting
    | ClosingOrphan(ingress: nat)
    | Started
    | ConnectFailed
    | ClosedDuringStart
    | OrphanCloseFailed

  datatype Ingress = Open | Closing | Closed | CloseFailed

  /** The single close promise: waiting for a pending start, closing the ingress, ending the pool. */
  datatype Closer = NotCalled | AwaitingStart | ClosingIngress | EndingPool(failed: bool) | Settled(rejected: bool)

  datatype Answer = AlreadyClosed | AlreadyRunning | Sharing(attempt: nat)

  /** `ingress`, `starting` and `closer` are the lifecycle record; `awaited` is the start attempt
      that close() found pending. The rest is the world: what was connected and what was ended. */
  datatype State = State(
    ingress: Option<nat>, starting: Option<nat>, closer: Closer, awaited: Option<nat>,
    attempts: seq<Attempt>, ingresses: seq<Ingress>, poolEnds: nat, poolFailed: bool)

  datatype Step =
    | CallStart
    | Connected(a: nat, ok: bool)
    | OrphanClosed(a: nat, ok: bool)
    | CallClose
    | StartAwaited
    | IngressClosed(ok: bool)
    | PoolEnded(ok: bool)

  function Initial(): State {
    State(None, None, NotCalled, None, [], [], 0, false)
  }

  predicate AttemptSettled(attempt: Attempt) {
    attempt.Started? || attempt.ConnectFailed? || attempt.ClosedDuringStart? || attempt.OrphanCloseFailed?
  }

  predicate Enabled(s: State, step: Step) {
    match step
    case CallStart => true
    case Connected(a, _) => a < |s.attempts| && s.attempts[a].Connecting?
    case OrphanClosed(a, _) =>
      a < |s.attempts| && s.attempts[a].ClosingOrphan? && s.attempts[a].ingress < |s.ingresses|
    case CallClose => true
    case StartAwaited =>
      s.closer.AwaitingStart?
        && (s.awaited.None? || (s.awaited.value < |s.attempts| && AttemptSettled(s.attempts[s.awaited.value])))
    case IngressClosed(_) => s.closer.ClosingIngress? && (s.ingress.None? || s.ingress.value < |s.ingresses|)
    case PoolEnded(_) => s.closer.EndingPool?
  }

  function StartAnswer(s: State): Answer {
    if !s.closer.NotCalled? then AlreadyClosed
    else if s.ingress.Some? then AlreadyRunning
    else if s.starting.Some? then Sharing(s.starting.value)
    else Sharing(|s.attempts|)
  }

  /** The finally block of close(): the runtime no longer runs, and the pool is ended. */
  function Release(s: State, failed: bool): State {
    s.(ingress := None, poolEnds := s.poolEnds + 1, closer := EndingPool(failed))
  }

  function Apply(s: State, step: Step): State
    requires Enabled(s, step)
  {
    match step
    case CallStart =>
      if StartAnswer(s) == Sharing(|s.attempts|) && s.starting.None?
      then s.(attempts := s.attempts + [Connecting], starting := Some(|s.attempts|)) else s
    case Connected(a, ok) =>
      if !ok then s.(attempts := s.attempts[a := ConnectFailed], starting := None)
      else if s.closer.NotCalled? then
        s.(attempts := s.attempts[a := Started], ingresses := s.ingresses + [Open],
          ingress := Some(|s.ingresses|), starting := None)
      else s.(attempts := s.attempts[a := ClosingOrphan(|s.ingresses|)], ingresses := s.ingresses + [Closing])
    case OrphanClosed(a, ok) =>
      s.(ingresses := s.ingresses[s.attempts[a].ingress := if ok then Closed else CloseFailed],
        attempts := s.attempts[a := if ok then ClosedDuringStart else OrphanCloseFailed], starting := None)
    case CallClose => if s.closer.NotCalled? then s.(closer := AwaitingStart, awaited := s.starting) else s
    case StartAwaited =>
      if s.awaited.Some?
        && (s.attempts[s.awaited.value].ConnectFailed? || s.attempts[s.awaited.value].OrphanCloseFailed?)
      then Release(s, true)
      else if s.ingress.Some? && s.ingress.value < |s.ingresses| then
        s.(closer := ClosingIngress, ingresses := s.ingresses[s.ingress.value := Closing])
      else s.(closer := ClosingIngress)
    case IngressClosed(ok) =>
      if s.ingress.None? then Release(s, false)
      else Release(s.(ingresses := s.ingresses[s.ingress.value := if ok then Closed else CloseFailed]), !ok)
    case PoolEnded(ok) => s.(closer := Settled(s.closer.failed || !ok), poolFailed := !ok)
  }

  function Next(s: State, step: Step): State {
    if Enabled(s, step) then Apply(s, step) else s
  }

  function Run(steps: seq<Step>): State {
    if steps == [] then Initial() else Next(Run(steps[..|steps| - 1]), steps[|steps| - 1])
  }

  // ---------- the invariant ----------

  predicate Pending(attempt: Attempt) {
    attempt.Connecting? || attempt.ClosingOrphan?
  }

  /** At most one ingress is ever connected, and the lifecycle record knows where it is. */
  ghost predicate Recorded(s: State) {
    && (s.starting.Some? ==> s.starting.value < |s.attempts| && Pending(s.attempts[s.starting.value]))
    && (forall a: nat | a < |s.attempts| && Pending(s.attempts[a]) :: s.starting == Some(a))
    && |s.ingresses| <= 1
    && (s.ingresses == [] ==> forall a: nat | a < |s.attempts| ::
      s.attempts[a].Connecting? || s.attempts[a].ConnectFailed?)
    && (s.ingresses != [] ==>
      && (forall a: nat | a < |s.attempts| :: !s.attempts[a].Connecting?)
      && (s.closer.NotCalled? ==> s.ingress == Some(0) && s.ingresses[0].Open?)
      && (s.ingresses[0].Open? || s.ingresses[0].Closing? ==>
        s.ingress == Some(0) || (s.starting.Some? && s.attempts[s.starting.value] == ClosingOrphan(0))))
    && (s.ingress.Some? ==>
      && s.ingress == Some(0) && |s.ingresses| == 1 && s.starting.None?
      && (s.closer.NotCalled? || s.closer.AwaitingStart? ==> s.ingresses[0].Open?)
      && (s.closer.ClosingIngress? ==> s.ingresses[0].Closing?)
      && !s.closer.EndingPool? && !s.closer.Settled?)
    && (s.starting.Some? && s.attempts[s.starting.value].ClosingOrphan? ==>
      s.attempts[s.starting.value] == ClosingOrphan(0) && |s.ingresses| == 1 && s.ingresses[0].Closing?)
  }

  /** How far close() has come, and what it has learnt on the way. */
  ghost predicate CloserKnows(s: State) {
    && (s.closer.NotCalled? ==> s.awaited.None?)
    && (s.awaited.Some? ==> s.ingress.None? && s.awaited.value < |s.attempts| && !s.attempts[s.awaited.value].Started?)
    && (!s.closer.NotCalled? && s.starting.Some? ==> s.closer.AwaitingStart? && s.awaited == s.starting)
    && s.poolEnds == (if s.closer.EndingPool? || s.closer.Settled? then 1 else 0)
    && (s.poolFailed ==> s.closer.Settled?)
    && (s.closer.AwaitingStart? || s.closer.ClosingIngress? ==>
      (s.ingresses != [] && s.ingresses[0].CloseFailed? ==>
        s.closer.AwaitingStart? && s.awaited.Some? && s.attempts[s.awaited.value].OrphanCloseFailed?))
    && (s.awaited.Some? && s.attempts[s.awaited.value].OrphanCloseFailed? ==>
      s.ingresses != [] && s.ingresses[0].CloseFailed?)
    && (s.closer.ClosingIngress? && s.awaited.Some? ==> !s.attempts[s.awaited.value].ConnectFailed?)
    && (s.closer.EndingPool? ==> (s.closer.failed <==> ClosingFailed(s)))
    && (s.closer.Settled? ==> (s.closer.rejected <==> ClosingFailed(s) || s.poolFailed))
  }

  /** The awaited connect failed, or the ingress could not be closed. */
  predicate ClosingFailed(s: State) {
    || (s.awaited.Some? && s.awaited.value < |s.attempts| && s.attempts[s.awaited.value].ConnectFailed?)
    || (exists i: nat :: i < |s.ingresses| && s.ingresses[i].CloseFailed?)
  }

  ghost predicate Inv(s: State) {
    Recorded(s) && CloserKnows(s)
  }

  lemma ConnectedKeepsRecorded(s: State, a: nat, ok: bool)
    requires Recorded(s) && CloserKnows(s) && Enabled(s, Connected(a, ok))
    ensures Recorded(Apply(s, Connected(a, ok)))
  {
  }

  lemma OrphanKeepsRecorded(s: State, a: nat, ok: bool)
    requires Recorded(s) && CloserKnows(s) && Enabled(s, OrphanClosed(a, ok))
    ensures Recorded(Apply(s, OrphanClosed(a, ok)))
  {
  }

  lemma CloserKeepsRecorded(s: State, step: Step)
    requires Recorded(s) && CloserKnows(s) && Enabled(s, step)
    requires step.StartAwaited? || step.IngressClosed? || step.PoolEnded?
    ensures Recorded(Apply(s, step))
  {
  }

  lemma CallKeepsRecorded(s: State, step: Step)
    requires Recorded(s) && CloserKnows(s) && (step.CallStart? || step.CallClose?)
    ensures Recorded(Apply(s, step))
  {
  }

  lemma NextKeepsRecorded(s: State, step: Step)
    requires Inv(s)
    ensures Recorded(Next(s, step))
  {
    if Enabled(s, step) {
      match step
      case Connected(a, ok) => ConnectedKeepsRecorded(s, a, ok);
      case OrphanClosed(a, ok) => OrphanKeepsRecorded(s, a, ok);
      case CallStart | CallClose => CallKeepsRecorded(s, step);
      case _ => CloserKeepsRecorded(s, step);
    }
  }

  lemma NextKeepsKnowledge(s: State, step: Step)
    requires Inv(s) && Recorded(Next(s, step))
    ensures CloserKnows(Next(s, step))
  {
    if Enabled(s, step) && s.ingresses != [] {
      var t := Next(s, step);
      assert t.ingresses != [] ==>
        (t.ingresses[0].CloseFailed? <==> exists i: nat :: i < |t.ingresses| && t.ingresses[i].CloseFailed?);
    }
  }

  lemma NextKeepsInv(s: State, step: Step)
    requires Inv(s)
    ensures Inv(Next(s, step))
  {
    NextKeepsRecorded(s, step);
    NextKeepsKnowledge(s, step);
  }

  lemma {:induction false} RunKeepsInv(steps: seq<Step>)
    ensures Inv(Run(steps))
  {
    if steps != [] {
      RunKeepsInv(steps[..|steps| - 1]);
      NextKeepsInv(Run(steps[..|steps| - 1]), steps[|steps| - 1]);
    }
  }

  // ---------- what every run guarantees ----------

  /** At most one ingress is ever connected in the life of a runtime. It runs from the completed
      connect until close() has drained it, and nothing else is reported as running. */
  lemma OneIngressEver(steps: seq<Step>)
    ensures var s := Run(steps);
      && |s.ingresses| <= 1
      && (s.ingress.Some? ==>
        s.ingress.value < |s.ingresses|
          && (s.ingresses[s.ingress.value].Open? || s.ingresses[s.ingress.value].Closing?))
      && forall i: nat | i < |s.ingresses| && s.ingresses[i].Open? :: s.ingress == Some(i)
  {
    RunKeepsInv(steps);
  }

  /** The pool is ended once, only by close(), and only when nothing is connecting and no ingress
      is left running or draining. */
  lemma PoolEndsOnce(steps: seq<Step>)
    ensures var s := Run(steps);
      && s.poolEnds <= 1
      && (s.closer.Settled? ==> s.poolEnds == 1)
      && (s.poolEnds == 1 ==>
        && (s.closer.EndingPool? || s.closer.Settled?) && s.ingress.None?
        && (forall a: nat | a < |s.attempts| :: AttemptSettled(s.attempts[a]))
        && forall i: nat | i < |s.ingresses| :: s.ingresses[i].Closed? || s.ingresses[i].CloseFailed?)
  {
    RunKeepsInv(steps);
  }

  lemma NextStaysClosed(s: State, step: Step)
    requires Inv(s) && s.closer.Settled?
    ensures Next(s, step) == s
  {
  }

  /** Once close() has fulfilled, every ingress is closed, and no later call changes anything: no
      start can ever connect again. */
  lemma {:induction false} FulfilledStaysClosed(steps: seq<Step>, more: seq<Step>)
    requires Run(steps).closer == Settled(false)
    ensures Run(steps + more) == Run(steps)
    ensures var s := Run(steps);
      && s.ingress.None? && StartAnswer(s) == AlreadyClosed
      && (forall a: nat | a < |s.attempts| :: AttemptSettled(s.attempts[a]))
      && forall i: nat | i < |s.ingresses| :: s.ingresses[i].Closed?
  {
    RunKeepsInv(steps);
    if more == [] {
      assert steps + more == steps;
    } else {
      var last := |more| - 1;
      assert (steps + more)[..|steps + more| - 1] == steps + more[..last];
      FulfilledStaysClosed(steps, more[..last]);
      NextStaysClosed(Run(steps), more[last]);
    }
  }

  /** close() rejects exactly when the start it found pending failed to connect, the ingress could
      not be closed, or the pool could not be ended. */
  lemma CloseRejectsExactly(steps: seq<Step>)
    requires Run(steps).closer.Settled?
    ensures var s := Run(steps);
      s.closer.rejected <==>
        || (s.awaited.Some? && s.awaited.value < |s.attempts| && s.attempts[s.awaited.value].ConnectFailed?)
        || (exists i: nat :: i < |s.ingresses| && s.ingresses[i].CloseFailed?)
        || s.poolFailed
  {
    RunKeepsInv(steps);
  }

  /** A start() call, then close(), and then the connect fails. */
  function FailingStart(): seq<Step> {
    [CallStart] + [CallClose] + [Connected(0, false)]
  }

  lemma FailingStartStates()
    ensures Next(Next(Next(Initial(), CallStart), CallClose), Connected(0, false))
      == State(None, None, AwaitingStart, Some(0), [ConnectFailed], [], 0, false)
  {
  }

  lemma FailingStartExample()
    ensures Run(FailingStart()) == State(None, None, AwaitingStart, Some(0), [ConnectFailed], [], 0, false)
  {
    FailingStartStates();
    assert [] + [CallStart] == [CallStart];
    RunOneMore([], CallStart);
    RunOneMore([CallStart], CallClose);
    RunOneMore([CallStart] + [CallClose], Connected(0, false));
  }

  /** A close() that lands during a connect which then fails rejects, with nothing left open. */
  lemma RejectsWithNothingOpenExample()
    ensures Run(FailingStart() + [StartAwaited] + [PoolEnded(true)])
      == State(None, None, Settled(true), Some(0), [ConnectFailed], [], 1, false)
  {
    FailingStartExample();
    RunOneMore(FailingStart(), StartAwaited);
    RunOneMore(FailingStart() + [StartAwaited], PoolEnded(true));
  }

  /** From the first call of close() on, no start connects: a pending one becomes an orphan that is
      closed, and the record never holds an ingress again that it did not hold then. */
  lemma NoStartAfterClose(steps: seq<Step>, step: Step)
    requires !Run(steps).closer.NotCalled?
    ensures var s, t := Run(steps), Next(Run(steps), step);
      && !t.closer.NotCalled? && StartAnswer(t) == AlreadyClosed && |t.attempts| == |s.attempts|
      && (t.ingress == s.ingress || t.ingress.None?)
      && (step.Connected? && step.ok && Enabled(s, step) ==>
        t.attempts[step.a] == ClosingOrphan(|s.ingresses|) && t.ingresses == s.ingresses + [Closing])
  {
  }

  /** Concurrent start() calls share one attempt: while one is pending, no second one connects. */
  lemma StartsShareOneAttempt(steps: seq<Step>, a: nat, b: nat)
    ensures var s := Run(steps);
      && (a < |s.attempts| && b < |s.attempts| && Pending(s.attempts[a]) && Pending(s.attempts[b]) ==> a == b)
      && (a < |s.attempts| && s.attempts[a].Connecting? && s.closer.NotCalled? ==>
        StartAnswer(s) == Sharing(a) && Next(s, CallStart) == s)
  {
    RunKeepsInv(steps);
  }

  /** A start() call begins an attempt exactly when the runtime was never closed, does not run and
      connects nothing; also after earlier attempts that failed. Otherwise it changes nothing. */
  lemma StartBeginsExactly(steps: seq<Step>)
    ensures var s, t := Run(steps), Run(steps + [CallStart]);
      var idle := s.closer.NotCalled? && s.ingresses == []
        && forall a: nat | a < |s.attempts| :: s.attempts[a].ConnectFailed?;
      && (idle ==>
        && StartAnswer(s) == Sharing(|s.attempts|) && t.starting == Some(|s.attempts|)
        && t.attempts == s.attempts + [Connecting])
      && (!idle ==> t == s)
      && (StartAnswer(s) == AlreadyClosed <==> !s.closer.NotCalled?)
      && (StartAnswer(s) == AlreadyRunning <==> s.closer.NotCalled? && s.ingresses != [])
  {
    RunKeepsInv(steps);
    RunOneMore(steps, CallStart);
  }

  /** How an attempt goes on when its connect completes: it fails, it makes the runtime run, or, if
      close() was called meanwhile, its ingress is closed again. */
  lemma ConnectEndsExactly(steps: seq<Step>, a: nat, ok: bool)
    requires var s := Run(steps); a < |s.attempts| && s.attempts[a].Connecting?
    ensures var s, t := Run(steps), Run(steps + [Connected(a, ok)]);
      && |t.attempts| == |s.attempts|
      && (forall b: nat | b < |s.attempts| && b != a :: t.attempts[b] == s.attempts[b])
      && (t.attempts[a] == ConnectFailed <==> !ok)
      && (t.attempts[a] == Started <==> ok && s.closer.NotCalled?)
      && (t.attempts[a] == ClosingOrphan(0) <==> ok && !s.closer.NotCalled?)
      && (t.attempts[a].ConnectFailed? || t.attempts[a].Started? || t.attempts[a].ClosingOrphan?)
      && (t.ingress.Some? <==> t.attempts[a].Started?)
      && t.ingresses == (if t.attempts[a].ConnectFailed? then []
        else if t.attempts[a].Started? then [Open] else [Closing])
      && t.starting == (if t.attempts[a].ClosingOrphan? then Some(a) else None)
      && t.closer == s.closer && t.poolEnds == s.poolEnds
  {
    RunKeepsInv(steps);
    RunOneMore(steps, Connected(a, ok));
  }

  /** An ingress connected too late is closed exactly once, and the attempt ends as that went. */
  lemma OrphanEndsExactly(steps: seq<Step>, a: nat, ok: bool)
    requires var s := Run(steps); a < |s.attempts| && s.attempts[a].ClosingOrphan?
    ensures var s, t := Run(steps), Run(steps + [OrphanClosed(a, ok)]);
      && s.ingresses == [Closing] && t.ingresses == [if ok then Closed else CloseFailed]
      && t.attempts == s.attempts[a := if ok then ClosedDuringStart else OrphanCloseFailed]
      && t.starting.None? && t.ingress.None? && t.closer == s.closer
  {
    RunKeepsInv(steps);
    RunOneMore(steps, OrphanClosed(a, ok));
  }

  /** What the first call of close() waits for: the attempt that is pending at that moment. */
  lemma CloseAwaitsExactly(steps: seq<Step>)
    ensures var s, t := Run(steps), Run(steps + [CallClose]);
      if s.closer.NotCalled? then
        && t.closer == AwaitingStart && t.attempts == s.attempts && t.ingresses == s.ingresses
        && t.ingress == s.ingress && t.poolEnds == 0
        && (forall a: nat :: t.awaited == Some(a) <==> a < |s.attempts| && Pending(s.attempts[a]))
      else t == s
  {
    RunKeepsInv(steps);
    RunOneMore(steps, CallClose);
  }

  /** How close() goes on once nothing is pending: it goes straight to the pool exactly if the
      awaited attempt failed otherwise than by the expected hand-off; and then closes what runs. */
  lemma CloseGoesOnExactly(steps: seq<Step>)
    requires var s := Run(steps); s.closer.AwaitingStart? && s.starting.None?
    ensures var s, t := Run(steps), Run(steps + [StartAwaited]);
      && (t.closer == EndingPool(true) <==>
        && s.awaited.Some? && s.awaited.value < |s.attempts|
        && s.attempts[s.awaited.value] != ClosedDuringStart)
      && (t.closer == ClosingIngress || t.closer == EndingPool(true))
      && t.ingresses == (if s.ingress.Some? then [Closing] else s.ingresses)
      && t.ingress == (if t.closer.ClosingIngress? then s.ingress else None)
      && t.attempts == s.attempts && t.poolEnds == (if t.closer.ClosingIngress? then 0 else 1)
  {
    RunKeepsInv(steps);
    RunOneMore(steps, StartAwaited);
  }

  /** The pool is ended after the ingress, however its closing went, and close() settles with it. */
  lemma CloseEndsExactly(steps: seq<Step>, ok: bool)
    ensures var s := Run(steps);
      && (s.closer.ClosingIngress? ==>
        var t := Run(steps + [IngressClosed(ok)]);
        && t.closer == EndingPool(s.ingress.Some? && !ok) && t.poolEnds == 1 && t.ingress.None?
        && t.ingresses == (if s.ingress.None? then s.ingresses else [if ok then Closed else CloseFailed]))
      && (s.closer.EndingPool? ==>
        var t := Run(steps + [PoolEnded(ok)]);
        t.closer == Settled(s.closer.failed || !ok) && t.ingresses == s.ingresses && t.poolEnds == 1)
  {
    RunKeepsInv(steps);
    RunOneMore(steps, IngressClosed(ok));
    RunOneMore(steps, PoolEnded(ok));
  }

  /** The completions close() may still have to wait for. */
  function Remaining(s: State): nat {
    match s.closer
    case NotCalled => 6
    case AwaitingStart =>
      if s.starting.None? || s.starting.value >= |s.attempts| then 3
      else if s.attempts[s.starting.value].Connecting? then 5
      else 4
    case ClosingIngress => 2
    case EndingPool(_) => 1
    case Settled(_) => 0
  }

  predicate IsCompletion(step: Step) {
    !step.CallStart? && !step.CallClose?
  }

  /** A close() that was called and has not settled always has something it waits for that can
      complete. */
  lemma CloseNeverStuck(steps: seq<Step>)
    requires !Run(steps).closer.NotCalled? && !Run(steps).closer.Settled?
    ensures exists next: Step :: Enabled(Run(steps), next) && IsCompletion(next)
  {
    RunKeepsInv(steps);
    var s := Run(steps);
    var next := match s.closer
      case AwaitingStart =>
        if s.starting.None? then StartAwaited
        else if s.attempts[s.starting.value].Connecting? then Connected(s.starting.value, true)
        else OrphanClosed(s.starting.value, true)
      case ClosingIngress => IngressClosed(true)
      case _ => PoolEnded(true);
    assert Enabled(s, next) && IsCompletion(next);
  }

  /** Every completion brings it nearer to settling, and new calls of start() or close() do not
      hold it up. */
  lemma CompletionsBringCloseNearer(steps: seq<Step>, step: Step)
    requires !Run(steps).closer.NotCalled? && !Run(steps).closer.Settled? && Enabled(Run(steps), step)
    ensures var s := Run(steps);
      if IsCompletion(step) then Remaining(Next(s, step)) < Remaining(s) else Next(s, step) == s
  {
    RunKeepsInv(steps);
  }

  lemma RunOneMore(steps: seq<Step>, step: Step)
    ensures Run(steps + [step]) == Next(Run(steps), step)
  {
    assert (steps + [step])[..|steps|] == steps;
  }

  // ---------- the running runtime ----------

  /** The lifecycle record of a runtime, with the connections and the pool it acts on. Each method
      is one uninterrupted stretch of start() or close(). */
  class CloudLinkRuntime {
    var ingress: Option<nat>
    var starting: Option<nat>
    var closing: Closer
    var awaited: Option<nat>
    var attempts: seq<Attempt>
    var ingresses: seq<Ingress>
    var poolEnds: nat
    var poolFailed: bool
    ghost var steps: seq<Step>

    ghost function View(): State
      reads this
    {
      State(ingress, starting, closing, awaited, attempts, ingresses, poolEnds, poolFailed)
    }

    /** What has happened so far is a run, so all results about runs hold of this object. */
    ghost predicate Valid()
      reads this
    {
      View() == Run(steps)
    }

    constructor ()
      ensures Valid() && steps == []
    {
      steps := [];
      ingress, starting, closing, awaited := None, None, NotCalled, None;
      attempts, ingresses, poolEnds, poolFailed := [], [], 0, false;
    }

    method Start() returns (answer: Answer)
      requires Valid()
      modifies this
      ensures Valid() && steps == old(steps) + [CallStart]
      ensures View() == Apply(old(View()), CallStart) && answer == StartAnswer(old(View()))
    {
      RunOneMore(steps, CallStart);
      steps := steps + [CallStart];
      if !closing.NotCalled? { return AlreadyClosed; }
      if ingress.Some? { return AlreadyRunning; }
      if starting.None? {
        starting := Some(|attempts|);
        attempts := attempts + [Connecting];
      }
      answer := Sharing(starting.value);
    }

    method OnConnected(a: nat, ok: bool)
      requires Valid()
      requires Enabled(View(), Connected(a, ok))
      modifies this
      ensures Valid() && steps == old(steps) + [Connected(a, ok)]
      ensures View() == Apply(old(View()), Connected(a, ok))
    {
      RunOneMore(steps, Connected(a, ok));
      steps := steps + [Connected(a, ok)];
      if !ok {
        attempts := attempts[a := ConnectFailed];
        starting := None;
        return;
      }
      var started := |ingresses|;
      if !closing.NotCalled? {
        ingresses := ingresses + [Closing];
        attempts := attempts[a := ClosingOrphan(started)];
        return;
      }
      ingresses := ingresses + [Open];
      ingress := Some(started);
      attempts := attempts[a := Started];
      starting := None;
    }

    method OnOrphanClosed(a: nat, ok: bool)
      requires Valid()
      requires Enabled(View(), OrphanClosed(a, ok))
      modifies this
      ensures Valid() && steps == old(steps) + [OrphanClosed(a, ok)]
      ensures View() == Apply(old(View()), OrphanClosed(a, ok))
    {
      RunOneMore(steps, OrphanClosed(a, ok));
      steps := steps + [OrphanClosed(a, ok)];
      ingresses := ingresses[attempts[a].ingress := if ok then Closed else CloseFailed];
      attempts := attempts[a := if ok then ClosedDuringStart else OrphanCloseFailed];
      starting := None;
    }

    method Close()
      requires Valid()
      modifies this
      ensures Valid() && steps == old(steps) + [CallClose]
      ensures View() == Apply(old(View()), CallClose)
    {
      RunOneMore(steps, CallClose);
      steps := steps + [CallClose];
      if closing.NotCalled? {
        closing := AwaitingStart;
        awaited := starting;
      }
    }

    method ReleasePool(failed: bool)
      modifies this
      ensures View() == Release(old(View()), failed) && steps == old(steps)
    {
      ingress := None;
      poolEnds := poolEnds + 1;
      closing := EndingPool(failed);
    }

    method OnStartAwaited()
      requires Valid()
      requires Enabled(View(), StartAwaited)
      modifies this
      ensures Valid() && steps == old(steps) + [StartAwaited]
      ensures View() == Apply(old(View()), StartAwaited)
    {
      RunOneMore(steps, StartAwaited);
      steps := steps + [StartAwaited];
      if awaited.Some? {
        var attempt := attempts[awaited.value];
        if attempt.ConnectFailed? || attempt.OrphanCloseFailed? {
          ReleasePool(true);
          return;
        }
      }
      closing := ClosingIngress;
      if ingress.Some? && ingress.value < |ingresses| {
        ingresses := ingresses[ingress.value := Closing];
      }
    }

    method OnIngressClosed(ok: bool)
      requires Valid()
      requires Enabled(View(), IngressClosed(ok))
      modifies this
      ensures Valid() && steps == old(steps) + [IngressClosed(ok)]
      ensures View() == Apply(old(View()), IngressClosed(ok))
    {
      RunOneMore(steps, IngressClosed(ok));
      steps := steps + [IngressClosed(ok)];
      var failed := ingress.Some? && !ok;
      if ingress.Some? {
        ingresses := ingresses[ingress.value := if ok then Closed else CloseFailed];
      }
      ReleasePool(failed);
    }

    method OnPoolEnded(ok: bool)
      requires Valid()
      requires Enabled(View(), PoolEnded(ok))
      modifies this
      ensures Valid() && steps == old(steps) + [PoolEnded(ok)]
      ensures View() == Apply(old(View()), PoolEnded(ok))
    {
      RunOneMore(steps, PoolEnded(ok));
      steps := steps + [PoolEnded(ok)];
      closing := Settled(closing.failed || !ok);
      poolFailed := !ok;
    }
  }
}
