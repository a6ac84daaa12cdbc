/** The scheduler of CloudLink health sweeps: a timer, a sweep in flight and a closing flag, under
    every interleaving of timer events, sweep completions and calls of close(). */
module HealthScheduler {
  import opened Wrappers

  /** A call of close(); the first one waits for the sweep that was in flight when it was made. */
  datatype Closer = Awaiting(sweep: Option<nat>) | Returned

  /** `running` holds the sweeps really in progress, `inFlight` what the scheduler remembers. */
  datatype State = State(
    armed: bool, inFlight: Option<nat>, closing: bool, running: set<nat>, started: nat, closers: seq<Closer>)

  datatype Step = TimerFires | SweepEnds(sweep: nat) | CallClose | CloseResumes(c: nat)

  function Schedule(s: State): State {
    if s.closing then s else s.(armed := true)
  }

  function RunSweep(s: State): State {
    if s.closing || s.inFlight.Some? then s
    else s.(inFlight := Some(s.started), running := s.running + {s.started}, started := s.started + 1)
  }

  function Initial(): State {
    RunSweep(State(false, None, false, {}, 0, []))
  }

  predicate Enabled(s: State, step: Step) {
    match step
    case TimerFires => s.armed
    case SweepEnds(sweep) => sweep in s.running
    case CallClose => true
    case CloseResumes(c) =>
      && c < |s.closers| && s.closers[c].Awaiting?
      && (s.closers[c].sweep.Some? ==> s.closers[c].sweep.value !in s.running)
  }

  function Apply(s: State, step: Step): State
    requires Enabled(s, step)
  {
    match step
    case TimerFires => RunSweep(s.(armed := false))
    case SweepEnds(sweep) => Schedule(s.(inFlight := None, running := s.running - {sweep}))
    case CallClose =>
      if s.closing then s.(closers := s.closers + [Returned])
      else s.(closing := true, armed := false, closers := s.closers + [Awaiting(s.inFlight)])
    case CloseResumes(c) => s.(closers := s.closers[c := Returned])
  }

  function Next(s: State, step: Step): State {
    if Enabled(s, step) then Apply(s, step) else s
  }

  function Run(steps: seq<Step>): State {
    if steps == [] then Initial() else Next(Run(steps[..|steps| - 1]), steps[|steps| - 1])
  }

  ghost predicate Inv(s: State) {
    && s.running == (if s.inFlight.Some? then {s.inFlight.value} else {})
    && (s.inFlight.Some? ==> s.inFlight.value < s.started)
    && (if s.closing then !s.armed else (s.armed <==> s.inFlight.None?))
    && (s.closing <==> |s.closers| > 0)
    && (|s.closers| > 0 ==>
      match s.closers[0]
      case Awaiting(sweep) => s.inFlight.Some? ==> sweep == s.inFlight
      case Returned => s.inFlight.None?)
  }

  lemma NextKeepsInv(s: State, step: Step)
    requires Inv(s)
    ensures Inv(Next(s, step))
  {
  }

  lemma {:induction false} RunKeepsInv(steps: seq<Step>)
    ensures Inv(Run(steps))
  {
    if steps != [] {
      RunKeepsInv(steps[..|steps| - 1]);
      NextKeepsInv(Run(steps[..|steps| - 1]), steps[|steps| - 1]);
    }
  }

  /** While the scheduler is open, either exactly one sweep runs or the timer is armed, not both. */
  lemma OneSweepOrTimer(steps: seq<Step>)
    ensures var s := Run(steps);
      && |s.running| <= 1
      && (!s.closing ==> (s.armed <==> s.running == {}))
      && (s.closing ==> !s.armed)
  {
    RunKeepsInv(steps);
  }

  /** So an open scheduler never stalls: a sweep can end, after which the timer is armed, or the
      timer can fire, after which a new sweep runs. */
  lemma NeverStalls(steps: seq<Step>)
    requires !Run(steps).closing
    ensures var s := Run(steps);
      || (exists sweep: nat :: s.running == {sweep} && Next(s, SweepEnds(sweep)).armed)
      || (s.armed && Next(s, TimerFires).running == {s.started} && Next(s, TimerFires).started == s.started + 1)
  {
    RunKeepsInv(steps);
    var s := Run(steps);
    if s.inFlight.Some? {
      assert s.running == {s.inFlight.value} && Next(s, SweepEnds(s.inFlight.value)).armed;
    }
  }

  lemma NextStaysClosed(s: State, step: Step)
    requires Inv(s) && |s.closers| > 0 && s.closers[0].Returned?
    ensures var t := Next(s, step);
      && |t.closers| > 0 && t.closers[0].Returned? && t.running == {} && t.started == s.started && !t.armed
  {
  }

  /** Once the first close() has resolved, no sweep is running and none will ever start. */
  lemma {:induction false} FirstCloseIsFinal(steps: seq<Step>, more: seq<Step>)
    requires var s := Run(steps); |s.closers| > 0 && s.closers[0].Returned?
    ensures var s, t := Run(steps), Run(steps + more);
      && |t.closers| > 0 && t.closers[0].Returned? && t.running == {} && t.started == s.started && !t.armed
  {
    RunKeepsInv(steps);
    RunKeepsInv(steps + more);
    if more == [] {
      assert steps + more == steps;
      NextStaysClosed(Run(steps), TimerFires);
    } else {
      var last := |more| - 1;
      assert (steps + more)[..|steps + more| - 1] == steps + more[..last];
      FirstCloseIsFinal(steps, more[..last]);
      RunKeepsInv(steps + more[..last]);
      NextStaysClosed(Run(steps + more[..last]), more[last]);
    }
  }

  /** The first close() waits for at most the sweep that was in flight, and nothing else. */
  lemma FirstCloseResolves(steps: seq<Step>)
    requires var s := Run(steps); |s.closers| > 0 && s.closers[0].Awaiting?
    ensures var s := Run(steps);
      if s.inFlight.None? then Next(s, CloseResumes(0)).closers[0].Returned?
      else
        && Next(s, CloseResumes(0)) == s && Enabled(s, SweepEnds(s.inFlight.value))
        && Next(Next(s, SweepEnds(s.inFlight.value)), CloseResumes(0)).closers[0].Returned?
  {
    RunKeepsInv(steps);
  }

  /** A call of close() resolves at once, with a sweep still running, exactly when an earlier call
      is still waiting for that sweep: only the first call waits. */
  lemma LaterCloseReturnsEarly(steps: seq<Step>)
    ensures var s := Run(steps);
      var t := Next(s, CallClose);
      t.closers[|s.closers|].Returned? && t.running != {}
      <==> |s.closers| > 0 && s.closers[0].Awaiting? && s.running != {}
  {
    RunKeepsInv(steps);
  }

  /** Two calls in a row, right after the scheduler has started, show it. */
  lemma SecondCloseExample()
    ensures Run([CallClose, CallClose]).closers[..] == [Awaiting(Some(0)), Returned]
    ensures Run([CallClose, CallClose]).running == {0}
  {
    assert [CallClose, CallClose][..1] == [CallClose];
    assert [CallClose][..0] == [];
    assert Run([]) == Initial();
    assert Run([CallClose]) == Next(Initial(), CallClose);
  }

  lemma RunOneMore(steps: seq<Step>, step: Step)
    ensures Run(steps + [step]) == Next(Run(steps), step)
  {
    assert (steps + [step])[..|steps|] == steps;
  }

  /** A started scheduler. Each method is one uninterrupted stretch of the event loop. */
  class CloudLinkHealthScheduler {
    var armed: bool
    var inFlight: Option<nat>
    var closing: bool
    var running: set<nat>
    var started: nat
    var closers: seq<Closer>
    ghost var steps: seq<Step>

    ghost function View(): State
      reads this
    {
      State(armed, inFlight, closing, running, started, closers)
    }

    /** What has happened so far is a run, so all results about runs hold of this object. */
    ghost predicate Valid()
      reads this
    {
      View() == Run(steps)
    }

    constructor ()
      ensures Valid() && steps == []
    {
      steps := [];
      armed, inFlight, closing, running, started, closers := false, None, false, {}, 0, [];
      new;
      Sweep();
    }

    method Sweep()
      modifies this
      ensures View() == RunSweep(old(View())) && steps == old(steps)
    {
      if closing || inFlight.Some? { return; }
      inFlight := Some(started);
      running := running + {started};
      started := started + 1;
    }

    method OnTimer()
      requires Valid()
      requires Enabled(View(), TimerFires)
      modifies this
      ensures Valid() && steps == old(steps) + [TimerFires]
      ensures View() == Apply(old(View()), TimerFires)
    {
      RunOneMore(steps, TimerFires);
      steps := steps + [TimerFires];
      armed := false;
      Sweep();
    }

    method OnSweepEnded(sweep: nat)
      requires Valid()
      requires Enabled(View(), SweepEnds(sweep))
      modifies this
      ensures Valid() && steps == old(steps) + [SweepEnds(sweep)]
      ensures View() == Apply(old(View()), SweepEnds(sweep))
    {
      RunOneMore(steps, SweepEnds(sweep));
      steps := steps + [SweepEnds(sweep)];
      running := running - {sweep};
      inFlight := None;
      if closing { return; }
      armed := true;
    }

    method Close()
      requires Valid()
      modifies this
      ensures Valid() && steps == old(steps) + [CallClose]
      ensures View() == Apply(old(View()), CallClose)
    {
      RunOneMore(steps, CallClose);
      steps := steps + [CallClose];
      if closing {
        closers := closers + [Returned];
        return;
      }
      closing := true;
      armed := false;
      closers := closers + [Awaiting(inFlight)];
    }

    method OnCloseResumed(c: nat)
      requires Valid()
      requires Enabled(View(), CloseResumes(c))
      modifies this
      ensures Valid() && steps == old(steps) + [CloseResumes(c)]
      ensures View() == Apply(old(View()), CloseResumes(c))
    {
      RunOneMore(steps, CloseResumes(c));
      steps := steps + [CloseResumes(c)];
      closers := closers[c := Returned];
    }
  }
}
