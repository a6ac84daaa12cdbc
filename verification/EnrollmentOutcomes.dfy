/** What one enrollment command does when no other comes between its steps: which stored identity
    and which command lead to success, to a replay and to each failure, and what is stored then. */
module EnrollmentOutcomes {
  import opened Wrappers
  import opened Enrollment

  // ---------- a command on its own ----------

  /** The steps of the next execution, from its submission to its last write; those that do not
      apply to the command do nothing. */
  function Undisturbed(s: State, command: Command, now: nat, reply: Option<IssuedToken>, report: Report): seq<Step> {
    var p := |s.processes|;
    [Submit(command, now), Find(p, true), IssueToken(p, reply), MatchToken(p), Write(p, report)]
  }

  function With(s: State, process: Process): State {
    s.(processes := s.processes + [process])
  }

  /** The state when the execution has returned `outcome`, with `stored` new values stored by it. */
  function Done(s: State, command: Command, now: nat, outcome: Outcome, stored: Option<Gateway>): State {
    var t := With(s, Process(command, now, Returned(outcome)));
    match stored
    case None => t
    case Some(g) => t.(history := s.history + [g], authors := s.authors + [|s.processes|])
  }

  lemma StepsJoin(digest: string -> string, s: State, a: Step, b: Step, c: Step, d: Step, e: Step)
    ensures Steps(digest, s, [a, b, c, d, e])
      == Next(digest, Next(digest, Next(digest, Next(digest, Next(digest, s, a), b), c), d), e)
  {
    assert [a, b, c, d, e] == [] + [a] + [b] + [c] + [d] + [e];
    StepsSplit(digest, s, [], a);
    StepsSplit(digest, s, [] + [a], b);
    StepsSplit(digest, s, [] + [a] + [b], c);
    StepsSplit(digest, s, [] + [a] + [b] + [c], d);
    StepsSplit(digest, s, [] + [a] + [b] + [c] + [d], e);
  }

  lemma MovedWith(s: State, process: Process, at: Await)
    ensures Moved(With(s, process), |s.processes|, at) == With(s, process.(at := at))
  {
  }

  lemma SubmitAlone(digest: string -> string, s: State, command: Command, now: nat)
    ensures Next(digest, s, Submit(command, now)) == With(s, Process(command, now, Submitted(command, now)))
  {
  }

  /** The execution after its own find, token and match steps, where they apply. */
  function AfterFind(process: Process, stored: Option<Gateway>): Process {
    if process.at.Finding? then process.(at := Found(process, stored))
    else if process.at.Refinding? then process.(at := Refound(process, stored))
    else process
  }

  function AfterToken(digest: string -> string, process: Process, reply: Option<IssuedToken>): Process {
    if process.at.IssuingToken? && process.command.Issue?
    then process.(at := TokenIssued(process, process.at.found, reply, digest)) else process
  }

  function AfterMatch(digest: string -> string, process: Process): Process {
    if process.at.Matching? && process.command.Claim? && !process.at.found.enrollment.Registered?
    then process.(at := Matched(process, process.at.found, digest)) else process
  }

  lemma FindAlone(digest: string -> string, s: State, process: Process)
    ensures Next(digest, With(s, process), Find(|s.processes|, true)) == With(s, AfterFind(process, Stored(s)))
  {
    assert Stored(With(s, process)) == Stored(s);
  }

  lemma TokenAlone(digest: string -> string, s: State, process: Process, reply: Option<IssuedToken>)
    ensures Next(digest, With(s, process), IssueToken(|s.processes|, reply))
      == With(s, AfterToken(digest, process, reply))
  {
  }

  lemma MatchAlone(digest: string -> string, s: State, process: Process)
    ensures Next(digest, With(s, process), MatchToken(|s.processes|)) == With(s, AfterMatch(digest, process))
  {
  }

  lemma WriteAlone(digest: string -> string, s: State, process: Process, report: Report)
    requires CanWrite(process.at) && WriteFits(Stored(s), process.at)
    ensures Next(digest, With(s, process), Write(|s.processes|, report)) == Done(s, process.command, process.now,
      if report.Faithful? then
        Success(false, ViewOf(process.at.next), if process.at.Inserting? then None else process.at.token)
      else Failed(StorageUnavailable),
      if report.Lost? then None else Some(process.at.next))
  {
    assert Stored(With(s, process)) == Stored(s);
  }

  lemma WriteIdle(digest: string -> string, s: State, process: Process, report: Report)
    requires process.at.Returned?
    ensures Next(digest, With(s, process), Write(|s.processes|, report))
      == Done(s, process.command, process.now, process.at.outcome, None)
  {
  }

  /** The execution before its last step. */
  function BeforeWrite(
      digest: string -> string, stored: Option<Gateway>, command: Command, now: nat, reply: Option<IssuedToken>)
    : Process
  {
    AfterMatch(digest, AfterToken(digest, AfterFind(Process(command, now, Submitted(command, now)), stored), reply))
  }

  lemma UndisturbedReachesWrite(
      digest: string -> string, s: State, command: Command, now: nat, reply: Option<IssuedToken>, report: Report)
    ensures Steps(digest, s, Undisturbed(s, command, now, reply, report)) == Next(digest,
      With(s, BeforeWrite(digest, Stored(s), command, now, reply)), Write(|s.processes|, report))
  {
    var p := |s.processes|;
    var submitted := Process(command, now, Submitted(command, now));
    var found := AfterFind(submitted, Stored(s));
    StepsJoin(digest, s, Submit(command, now), Find(p, true), IssueToken(p, reply), MatchToken(p), Write(p, report));
    SubmitAlone(digest, s, command, now);
    FindAlone(digest, s, submitted);
    TokenAlone(digest, s, found, reply);
    MatchAlone(digest, s, AfterToken(digest, found, reply));
  }

  // ---------- Claim ----------

  predicate InItsTime(context: Context, now: nat) {
    context.issuedAt <= now < context.expiresAt
  }

  predicate ClaimSubmitted(context: Context, token: string, now: nat) {
    IsText(token, 512) && InItsTime(context, now)
  }

  /** The token is the one that the stored claim, pending or already used, was issued with. */
  predicate TokenFits(digest: string -> string, stored: Option<Gateway>, token: string) {
    stored.Some? && !stored.value.enrollment.Registered? && digest(token) == stored.value.enrollment.tokenDigest
  }

  /** Every outcome of a Claim and what is stored after it, by what was stored before it. */
  ghost predicate ClaimEnds(
      digest: string -> string, before: Option<Gateway>, command: Command, now: nat,
      outcome: Outcome, after: Option<Gateway>)
    requires command.Claim?
  {
    var context := command.context;
    var submitted := ClaimSubmitted(context, command.token, now);
    var fits := TokenFits(digest, before, command.token);
    var pending := fits && before.value.enrollment.AwaitingClaim?;
    var used := fits && before.value.enrollment.Claimed?;
    var inWindow := pending && before.value.enrollment.issuedAt <= now < before.value.enrollment.expiresAt;
    var same := used && before.value.enrollment.request == context.request
      && before.value.enrollment.fingerprint == command.fingerprint;
    && (outcome.Success? && !outcome.replayed <==> submitted && inWindow)
    && (outcome.Success? && outcome.replayed <==> submitted && same)
    && (submitted && inWindow ==>
      var g := before.value;
      && outcome.view == View(g.displayName, "claimed", g.revision + 1, Some(g.enrollment.claimId), None, Some(now))
      && after == Some(Gateway(g.displayName, g.revision + 1,
        Claimed(g.enrollment.claimId, g.enrollment.tokenDigest, context.request, command.fingerprint, now))))
    && (submitted && same ==>
      var g := before.value;
      outcome.view == View(g.displayName, "claimed", g.revision, Some(g.enrollment.claimId), None,
        Some(g.enrollment.claimedAt)))
    && (outcome.Success? ==> outcome.token.None?)
    && (after == before || (submitted && inWindow))
    && (outcome == Failed(InvalidInput) <==>
      || !IsText(command.token, 512) || context.expiresAt <= context.issuedAt || now < context.issuedAt)
    && (outcome == Failed(CommandExpired) <==>
      IsText(command.token, 512) && context.issuedAt < context.expiresAt <= now)
    && (outcome == Failed(InvalidEnrollmentToken) <==> submitted && !fits)
    && (outcome == Failed(EnrollmentClaimExpired) <==> submitted && pending && !inWindow)
    && (outcome == Failed(InvalidTransition) <==> submitted && used && !same)
  }

  /** The state when the write that would have ended the execution so is reported as told: it ends
      as unavailable storage if it is not reported faithfully, and stores its value or does not. */
  function Reported(
      s: State, command: Command, now: nat, outcome: Outcome, stored: Option<Gateway>, report: Report): State
  {
    if report.Faithful? || stored.None? then Done(s, command, now, outcome, stored)
    else Done(s, command, now, Failed(StorageUnavailable), if report.Lost? then None else stored)
  }

  function OutcomeBefore(at: Await): Outcome
    requires at.Returned? || CanWrite(at)
  {
    if at.Returned? then at.outcome
    else Success(false, ViewOf(at.next), if at.Inserting? then None else at.token)
  }

  function StoredBy(at: Await): Option<Gateway>
    requires at.Returned? || CanWrite(at)
  {
    if at.Returned? then None else Some(at.next)
  }

  /** What an execution returns before its write is no first success. */
  predicate Ready(stored: Option<Gateway>, at: Await) {
    if at.Returned? then at.outcome.Success? ==> at.outcome.replayed else CanWrite(at) && WriteFits(stored, at)
  }

  lemma ReadyEndsAlone(
      digest: string -> string, s: State, command: Command, now: nat, reply: Option<IssuedToken>, report: Report,
      process: Process)
    requires process == BeforeWrite(digest, Stored(s), command, now, reply)
    requires process.command == command && process.now == now && Ready(Stored(s), process.at)
    ensures Steps(digest, s, Undisturbed(s, command, now, reply, report))
      == Reported(s, command, now, OutcomeBefore(process.at), StoredBy(process.at), report)
    ensures StoredBy(process.at).Some? <==>
      OutcomeBefore(process.at).Success? && !OutcomeBefore(process.at).replayed
  {
    UndisturbedReachesWrite(digest, s, command, now, reply, report);
    if process.at.Returned? {
      WriteIdle(digest, s, process, report);
    } else {
      WriteAlone(digest, s, process, report);
    }
  }

  function After(before: Option<Gateway>, stored: Option<Gateway>): Option<Gateway> {
    if stored.Some? then stored else before
  }

  lemma ClaimAlone(
      digest: string -> string, before: Option<Gateway>, command: Command, now: nat, reply: Option<IssuedToken>)
    requires command.Claim?
    ensures var process := BeforeWrite(digest, before, command, now, reply);
      && process.command == command && process.now == now && Ready(before, process.at)
      && ClaimEnds(digest, before, command, now, OutcomeBefore(process.at), After(before, StoredBy(process.at)))
  {
  }

  // ---------- Register ----------

  predicate RegisterSubmitted(command: Command, now: nat)
    requires command.Register?
  {
    IsText(command.displayName, 128) && command.permitted && InItsTime(command.context, now)
  }

  /** Every outcome of a Register and what is stored after it. */
  ghost predicate RegisterEnds(
      before: Option<Gateway>, command: Command, now: nat, outcome: Outcome, after: Option<Gateway>)
    requires command.Register?
  {
    var context := command.context;
    var name := Trim(command.displayName);
    var submitted := RegisterSubmitted(command, now);
    var mine := before.Some? && before.value.enrollment.Registered?
      && before.value.enrollment.request == context.request;
    && (outcome == Success(false, View(name, "registered", 1, None, None, None), None) <==> submitted && before.None?)
    && (outcome.Success? && outcome.replayed <==> submitted && mine && before.value.displayName == name)
    && (outcome.Success? && outcome.replayed ==>
      outcome == Success(true, View(name, "registered", before.value.revision, None, None, None), None))
    && after == (if submitted && before.None? then Some(Gateway(name, 1, Registered(context.request, now))) else before)
    && (outcome == Failed(InvalidInput) <==>
      || !IsText(command.displayName, 128)
      || (command.permitted && (context.expiresAt <= context.issuedAt || now < context.issuedAt)))
    && (outcome == Failed(PermissionDenied) <==> IsText(command.displayName, 128) && !command.permitted)
    && (outcome == Failed(CommandExpired) <==>
      IsText(command.displayName, 128) && command.permitted && context.issuedAt < context.expiresAt <= now)
    && (outcome == Failed(IdempotencyConflict) <==> submitted && mine && before.value.displayName != name)
    && (outcome == Failed(GatewayAlreadyExists) <==> submitted && before.Some? && !mine)
  }

  lemma RegisterAlone(
      digest: string -> string, before: Option<Gateway>, command: Command, now: nat, reply: Option<IssuedToken>)
    requires command.Register?
    ensures var process := BeforeWrite(digest, before, command, now, reply);
      && process.command == command && process.now == now && Ready(before, process.at)
      && RegisterEnds(before, command, now, OutcomeBefore(process.at), After(before, StoredBy(process.at)))
  {
  }

  // ---------- Issue ----------

  /** The command was confirmed in its own time. */
  predicate Confirmed(command: Command, now: nat)
    requires command.Issue?
  {
    command.confirmedAt.Some? && command.context.issuedAt <= command.confirmedAt.value <= now
  }

  predicate IssueSubmitted(command: Command, now: nat)
    requires command.Issue?
  {
    command.permitted && InItsTime(command.context, now) && Confirmed(command, now) && now < command.claimExpiresAt
  }

  /** Every outcome of an Issue, given the answer of the token service, and what is stored after it. */
  ghost predicate IssueEnds(
      digest: string -> string, before: Option<Gateway>, command: Command, now: nat, reply: Option<IssuedToken>,
      outcome: Outcome, after: Option<Gateway>)
    requires command.Issue?
  {
    var context, expiry := command.context, command.claimExpiresAt;
    var submitted := IssueSubmitted(command, now);
    var open := before.Some? && before.value.enrollment.Registered?;
    var pending := before.Some? && before.value.enrollment.AwaitingClaim?;
    var mine := pending && before.value.enrollment.request == context.request;
    && (outcome.Success? && !outcome.replayed <==> submitted && open && reply.Some?)
    && (submitted && open && reply.Some? ==>
      var g := before.value;
      && outcome == Success(false,
        View(g.displayName, "awaiting-claim", g.revision + 1, Some(reply.value.claimId), Some(expiry), None),
        Some(reply.value.token))
      && after == Some(Gateway(g.displayName, g.revision + 1,
        AwaitingClaim(context.request, reply.value.claimId, digest(reply.value.token), now, expiry))))
    && (outcome.Success? && outcome.replayed <==> submitted && mine && before.value.enrollment.expiresAt == expiry)
    && (outcome.Success? && outcome.replayed ==>
      var g := before.value;
      outcome == Success(true,
        View(g.displayName, "awaiting-claim", g.revision, Some(g.enrollment.claimId), Some(expiry), None), None))
    && (after == before || (submitted && open && reply.Some?))
    && (outcome == Failed(PermissionDenied) <==> !command.permitted)
    && (outcome == Failed(ConfirmationRequired) <==>
      command.permitted
      && (command.confirmedAt.None? || (InItsTime(context, now) && !Confirmed(command, now))))
    && (outcome == Failed(InvalidInput) <==>
      command.permitted && command.confirmedAt.Some?
      && (|| context.expiresAt <= context.issuedAt || now < context.issuedAt
          || (InItsTime(context, now) && Confirmed(command, now) && expiry <= now)))
    && (outcome == Failed(CommandExpired) <==>
      command.permitted && command.confirmedAt.Some? && context.issuedAt < context.expiresAt <= now)
    && (outcome == Failed(GatewayNotFound) <==> submitted && before.None?)
    && (outcome == Failed(IdempotencyConflict) <==>
      submitted && ((mine && before.value.enrollment.expiresAt != expiry) || (open && reply.None?)))
    && (outcome == Failed(InvalidTransition) <==> submitted && before.Some? && !open && !mine)
  }

  lemma IssueAlone(
      digest: string -> string, before: Option<Gateway>, command: Command, now: nat, reply: Option<IssuedToken>)
    requires command.Issue?
    ensures var process := BeforeWrite(digest, before, command, now, reply);
      && process.command == command && process.now == now && Ready(before, process.at)
      && IssueEnds(digest, before, command, now, reply, OutcomeBefore(process.at),
        After(before, StoredBy(process.at)))
  {
  }

  // ---------- over runs ----------

  lemma {:induction false} StepsAppend(digest: string -> string, s: State, first: seq<Step>, more: seq<Step>)
    ensures Steps(digest, s, first + more) == Steps(digest, Steps(digest, s, first), more)
  {
    if more == [] {
      assert first + more == first;
    } else {
      var last := |more| - 1;
      StepsAppend(digest, s, first, more[..last]);
      assert first + more == (first + more[..last]) + [more[last]];
      StepsSplit(digest, s, first + more[..last], more[last]);
    }
  }

  /** What the execution returns, and what is stored then. */
  ghost predicate Ends(
      digest: string -> string, before: Option<Gateway>, command: Command, now: nat, reply: Option<IssuedToken>,
      outcome: Outcome, after: Option<Gateway>)
  {
    match command
    case Register(_, _, _) => RegisterEnds(before, command, now, outcome, after)
    case Issue(_, _, _, _) => IssueEnds(digest, before, command, now, reply, outcome, after)
    case Claim(_, _, _) => ClaimEnds(digest, before, command, now, outcome, after)
  }

  lemma AloneEnds(
      digest: string -> string, before: Option<Gateway>, command: Command, now: nat, reply: Option<IssuedToken>)
    ensures var process := BeforeWrite(digest, before, command, now, reply);
      && process.command == command && process.now == now && Ready(before, process.at)
      && Ends(digest, before, command, now, reply, OutcomeBefore(process.at), After(before, StoredBy(process.at)))
  {
    match command
    case Register(_, _, _) => RegisterAlone(digest, before, command, now, reply);
    case Issue(_, _, _, _) => IssueAlone(digest, before, command, now, reply);
    case Claim(_, _, _) => ClaimAlone(digest, before, command, now, reply);
  }

  lemma DoneTells(s: State, command: Command, now: nat, outcome: Outcome, stored: Option<Gateway>)
    ensures var t := Done(s, command, now, outcome, stored);
      && OutcomeOf(t, |s.processes|) == Some(outcome) && Stored(t) == After(Stored(s), stored)
      && (forall p: nat | p < |s.processes| :: OutcomeOf(t, p) == OutcomeOf(s, p))
  {
  }

  /** From any run, a command that nothing disturbs returns, and exactly so. A write that storage
      does not report faithfully turns a first success, and nothing else, into unavailable storage;
      the value is then stored unless the write was lost. */
  lemma UndisturbedExactly(
      digest: string -> string, steps: seq<Step>, command: Command, now: nat, reply: Option<IssuedToken>,
      report: Report)
    ensures var s := Run(digest, steps);
      var t := Run(digest, steps + Undisturbed(s, command, now, reply, Faithful));
      var u := Run(digest, steps + Undisturbed(s, command, now, reply, report));
      && OutcomeOf(t, |s.processes|).Some?
      && var outcome := OutcomeOf(t, |s.processes|).value;
      && Ends(digest, Stored(s), command, now, reply, outcome, Stored(t))
      && (if outcome.Success? && !outcome.replayed && !report.Faithful?
          then OutcomeOf(u, |s.processes|) == Some(Failed(StorageUnavailable))
            && Stored(u) == (if report.Lost? then Stored(s) else Stored(t))
          else u == t)
  {
    var s := Run(digest, steps);
    var process := BeforeWrite(digest, Stored(s), command, now, reply);
    AloneEnds(digest, Stored(s), command, now, reply);
    ReadyEndsAlone(digest, s, command, now, reply, Faithful, process);
    ReadyEndsAlone(digest, s, command, now, reply, report, process);
    StepsAppend(digest, State([], [], []), steps, Undisturbed(s, command, now, reply, Faithful));
    StepsAppend(digest, State([], [], []), steps, Undisturbed(s, command, now, reply, report));
    var outcome, stored := OutcomeBefore(process.at), StoredBy(process.at);
    DoneTells(s, command, now, outcome, stored);
    DoneTells(s, command, now, Failed(StorageUnavailable), if report.Lost? then None else stored);
  }

  // ---------- storage that does not answer, and lost races ----------

  /** The stretch before the first find lets the command through. */
  predicate IsSubmitted(command: Command, now: nat) {
    match command
    case Register(_, _, _) => RegisterSubmitted(command, now)
    case Issue(_, _, _, _) => IssueSubmitted(command, now)
    case Claim(context, token, _) => ClaimSubmitted(context, token, now)
  }

  /** A find that storage does not answer ends exactly the commands that were let through. */
  lemma UnansweredFindExactly(digest: string -> string, steps: seq<Step>, command: Command, now: nat)
    ensures var s := Run(digest, steps);
      var t := Run(digest, steps + [Submit(command, now), Find(|s.processes|, false)]);
      && OutcomeOf(t, |s.processes|).Some? && t.history == s.history
      && (OutcomeOf(t, |s.processes|).value == Failed(StorageUnavailable) <==> IsSubmitted(command, now))
  {
    var s := Run(digest, steps);
    var p := |s.processes|;
    StepsAppend(digest, State([], [], []), steps, [Submit(command, now), Find(p, false)]);
    assert [Submit(command, now), Find(p, false)] == [] + [Submit(command, now)] + [Find(p, false)];
    StepsSplit(digest, s, [], Submit(command, now));
    StepsSplit(digest, s, [] + [Submit(command, now)], Find(p, false));
    SubmitAlone(digest, s, command, now);
  }

  /** The stored identity is what this command would have stored. */
  predicate StoredAlike(g: Gateway, command: Command) {
    match command
    case Register(context, _, displayName) =>
      g.enrollment.Registered? && g.enrollment.request == context.request && g.displayName == Trim(displayName)
    case Issue(context, _, _, claimExpiresAt) =>
      && g.enrollment.AwaitingClaim? && g.enrollment.request == context.request
      && g.enrollment.expiresAt == claimExpiresAt
    case Claim(context, _, fingerprint) =>
      && g.enrollment.Claimed? && g.enrollment.request == context.request && g.enrollment.fingerprint == fingerprint
  }

  /** How a lost race ends, by what is found stored afterwards. */
  ghost predicate RaceEnds(g: Gateway, command: Command, outcome: Outcome) {
    if StoredAlike(g, command) then outcome == Success(true, ViewOf(g), None)
    else if !command.Register? then outcome == Failed(ConcurrentModification)
    else if g.enrollment.Registered? && g.enrollment.request == command.context.request then
      outcome == Failed(IdempotencyConflict)
    else outcome == Failed(GatewayAlreadyExists)
  }

  lemma RefoundRace(process: Process, g: Gateway)
    ensures Refound(process, Some(g)).Returned? && RaceEnds(g, process.command, Refound(process, Some(g)).outcome)
  {
  }

  /** A write that comes too late stores nothing, and the execution returns what the winner stored
      as its own replay exactly if that is what it would have stored itself. */
  lemma LostRaceExactly(digest: string -> string, steps: seq<Step>, p: nat, available: bool)
    requires var s := Run(digest, steps);
      p < |s.processes| && CanWrite(s.processes[p].at) && !WriteFits(Stored(s), s.processes[p].at)
    ensures var s, t := Run(digest, steps), Run(digest, steps + [Write(p, Faithful), Find(p, available)]);
      && Stored(s).Some? && t.history == s.history && OutcomeOf(t, p).Some?
      && (if available then RaceEnds(Stored(s).value, s.processes[p].command, OutcomeOf(t, p).value)
          else OutcomeOf(t, p).value == Failed(StorageUnavailable))
  {
    var s := Run(digest, steps);
    RacedIsStored(digest, steps, p);
    StepsAppend(digest, State([], [], []), steps, [Write(p, Faithful), Find(p, available)]);
    assert [Write(p, Faithful), Find(p, available)] == [] + [Write(p, Faithful)] + [Find(p, available)];
    StepsSplit(digest, s, [], Write(p, Faithful));
    StepsSplit(digest, s, [] + [Write(p, Faithful)], Find(p, available));
    assert Next(digest, s, Write(p, Faithful)) == Moved(s, p, Refinding);
    RefoundRace(s.processes[p].(at := Refinding), Stored(s).value);
  }

  lemma RacedIsStored(digest: string -> string, steps: seq<Step>, p: nat)
    requires var s := Run(digest, steps);
      p < |s.processes| && CanWrite(s.processes[p].at) && !WriteFits(Stored(s), s.processes[p].at)
    ensures Stored(Run(digest, steps)).Some?
  {
    RunKeepsInv(digest, steps);
    var s := Run(digest, steps);
    assert Justified(digest, s, p, s.processes[p]);
  }

  // ---------- display names ----------

  predicate AllSpace(s: string) {
    forall c <- s :: IsSpace(c)
  }

  lemma {:induction false} TrimStartCuts(s: string)
    ensures exists a: string :: AllSpace(a) && s == a + TrimStart(s)
    ensures TrimStart(s) != "" ==> !IsSpace(TrimStart(s)[0])
  {
    if s != "" && IsSpace(s[0]) {
      TrimStartCuts(s[1..]);
      var a: string :| AllSpace(a) && s[1..] == a + TrimStart(s[1..]);
      assert AllSpace([s[0]] + a) && s == ([s[0]] + a) + TrimStart(s);
    } else {
      assert AllSpace("") && s == "" + TrimStart(s);
    }
  }

  lemma {:induction false} TrimEndCuts(s: string)
    ensures exists b: string :: AllSpace(b) && s == TrimEnd(s) + b
    ensures TrimEnd(s) != "" ==> !IsSpace(TrimEnd(s)[|TrimEnd(s)| - 1]) && TrimEnd(s)[0] == s[0]
  {
    if s != "" && IsSpace(s[|s| - 1]) {
      TrimEndCuts(s[..|s| - 1]);
      var b: string :| AllSpace(b) && s[..|s| - 1] == TrimEnd(s[..|s| - 1]) + b;
      assert AllSpace(b + [s[|s| - 1]]) && s == TrimEnd(s) + (b + [s[|s| - 1]]);
    } else {
      assert AllSpace("") && s == TrimEnd(s) + "";
    }
  }

  /** Trimming cuts off white space at both ends, all of it, and nothing else. */
  lemma TrimExactly(s: string)
    ensures exists a: string, b: string :: AllSpace(a) && AllSpace(b) && s == a + Trim(s) + b
    ensures Trim(s) != "" ==> !IsSpace(Trim(s)[0]) && !IsSpace(Trim(s)[|Trim(s)| - 1])
  {
    var rest := TrimStart(s);
    TrimStartCuts(s);
    TrimEndCuts(rest);
    var a: string :| AllSpace(a) && s == a + rest;
    var b: string :| AllSpace(b) && rest == TrimEnd(rest) + b;
    assert s == a + Trim(s) + b;
  }
}
