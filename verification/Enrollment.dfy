/** Gateway enrollment: any number of Register, Issue and Claim commands race over the stored
    identity of one Gateway, with insert-if-absent and replace-if-revision storage.

    Every await is a boundary between two steps. Storage may be unavailable, and a write that is
    reported as unavailable may still have taken effect. */
module Enrollment {
  import opened Wrappers

  // ---------- the identity and its transitions ----------

  datatype Enrollment =
    | Registered(request: string, registeredAt: nat)
    | AwaitingClaim(request: string, claimId: string, tokenDigest: string, issuedAt: nat, expiresAt: nat)
    | Claimed(claimId: string, tokenDigest: string, request: string, fingerprint: string, claimedAt: nat)

  datatype Gateway = Gateway(displayName: string, revision: nat, enrollment: Enrollment)

  datatype Failure =
    | CommandExpired | ConcurrentModification | ConfirmationRequired | EnrollmentClaimExpired
    | GatewayAlreadyExists | GatewayNotFound | StorageUnavailable | IdempotencyConflict
    | InvalidEnrollmentToken | InvalidTransition | InvalidInput | PermissionDenied

  datatype Transition = Transition(replayed: bool, gateway: Gateway)

  predicate IsSpace(c: char) {
    || '\t' <= c <= '\r' || c == ' ' || c == '\U{00A0}' || c == '\U{1680}' || '\U{2000}' <= c <= '\U{200A}'
    || c == '\U{2028}' || c == '\U{2029}' || c == '\U{202F}' || c == '\U{205F}' || c == '\U{3000}' || c == '\U{FEFF}'
  }

  function TrimStart(s: string): string {
    if s != "" && IsSpace(s[0]) then TrimStart(s[1..]) else s
  }

  function TrimEnd(s: string): string {
    if s != "" && IsSpace(s[|s| - 1]) then TrimEnd(s[..|s| - 1]) else s
  }

  function Trim(s: string): string {
    TrimEnd(TrimStart(s))
  }

  predicate IsText(s: string, maximum: nat) {
    Trim(s) != "" && |s| <= maximum
  }

  function RegisterIdentity(displayName: string, request: string, now: nat): Gateway {
    Gateway(Trim(displayName), 1, Registered(request, now))
  }

  function IssueClaim(g: Gateway, request: string, claimId: string, digest: string, now: nat, expiresAt: nat)
    : Result<Transition, Failure>
  {
    match g.enrollment
    case AwaitingClaim(_, _, _, _, _) =>
      if g.enrollment == AwaitingClaim(request, claimId, digest, now, expiresAt) then Ok(Transition(true, g))
      else Err(InvalidTransition)
    case Claimed(_, _, _, _, _) => Err(InvalidTransition)
    case Registered(_, _) =>
      if expiresAt <= now then Err(EnrollmentClaimExpired)
      else Ok(Transition(false,
        g.(revision := g.revision + 1, enrollment := AwaitingClaim(request, claimId, digest, now, expiresAt))))
  }

  function ClaimIdentity(g: Gateway, request: string, fingerprint: string, now: nat): Result<Transition, Failure> {
    match g.enrollment
    case Claimed(_, _, r, f, _) =>
      if r == request && f == fingerprint then Ok(Transition(true, g)) else Err(InvalidTransition)
    case Registered(_, _) => Err(InvalidTransition)
    case AwaitingClaim(_, claimId, digest, issuedAt, expiresAt) =>
      if now < issuedAt || now >= expiresAt then Err(EnrollmentClaimExpired)
      else Ok(Transition(false,
        g.(revision := g.revision + 1, enrollment := Claimed(claimId, digest, request, fingerprint, now))))
  }

  // ---------- the commands ----------

  datatype Context = Context(request: string, issuedAt: nat, expiresAt: nat)

  datatype Command =
    | Register(context: Context, permitted: bool, displayName: string)
    | Issue(context: Context, permitted: bool, confirmedAt: Option<nat>, claimExpiresAt: nat)
    | Claim(context: Context, token: string, fingerprint: string)

  datatype View = View(
    displayName: string, enrollment: string, revision: nat,
    claimId: Option<string>, claimExpiresAt: Option<nat>, claimedAt: Option<nat>)

  /** What a command tells its caller; only an Issue carries a token. */
  datatype Outcome = Success(replayed: bool, view: View, token: Option<string>) | Failed(failure: Failure)

  /** Where an execution is suspended, and with what. */
  datatype Await =
    | Finding
    | Inserting(next: Gateway)
    | IssuingToken(found: Gateway)
    | Matching(found: Gateway)
    | Replacing(found: Gateway, next: Gateway, token: Option<string>)
    | Refinding
    | Returned(outcome: Outcome)

  datatype Process = Process(command: Command, now: nat, at: Await)

  function ViewOf(g: Gateway): View {
    match g.enrollment
    case Registered(_, _) => View(g.displayName, "registered", g.revision, None, None, None)
    case AwaitingClaim(_, claimId, _, _, expiresAt) =>
      View(g.displayName, "awaiting-claim", g.revision, Some(claimId), Some(expiresAt), None)
    case Claimed(claimId, _, _, _, claimedAt) =>
      View(g.displayName, "claimed", g.revision, Some(claimId), None, Some(claimedAt))
  }

  function Fails(failure: Failure): Await {
    Returned(Failed(failure))
  }

  function Succeeds(replayed: bool, g: Gateway, token: Option<string>): Await {
    Returned(Success(replayed, ViewOf(g), token))
  }

  function CommandTimeFailure(context: Context, now: nat): Option<Failure> {
    if context.expiresAt <= context.issuedAt then Some(InvalidInput)
    else if context.issuedAt > now then Some(InvalidInput)
    else if now >= context.expiresAt then Some(CommandExpired)
    else None
  }

  /** The stretch before the first await. */
  function Submitted(command: Command, now: nat): Await {
    var late := CommandTimeFailure(command.context, now);
    match command
    case Register(_, permitted, displayName) =>
      if !IsText(displayName, 128) then Fails(InvalidInput)
      else if !permitted then Fails(PermissionDenied)
      else if late.Some? then Fails(late.value)
      else Finding
    case Issue(context, permitted, confirmedAt, claimExpiresAt) =>
      if !permitted then Fails(PermissionDenied)
      else if confirmedAt.None? then Fails(ConfirmationRequired)
      else if late.Some? then Fails(late.value)
      else if confirmedAt.value < context.issuedAt || confirmedAt.value > now then Fails(ConfirmationRequired)
      else if claimExpiresAt <= now then Fails(InvalidInput)
      else Finding
    case Claim(_, token, _) =>
      if !IsText(token, 512) then Fails(InvalidInput)
      else if late.Some? then Fails(late.value)
      else Finding
  }

  function ResolveExisting(g: Gateway, request: string, displayName: string): Await {
    if g.enrollment.Registered? && g.enrollment.request == request then
      if g.displayName != Trim(displayName) then Fails(IdempotencyConflict) else Succeeds(true, g, None)
    else Fails(GatewayAlreadyExists)
  }

  predicate SameClaim(g: Gateway, command: Command)
    requires command.Issue?
  {
    && g.enrollment.AwaitingClaim? && g.enrollment.request == command.context.request
    && g.enrollment.expiresAt == command.claimExpiresAt
  }

  predicate SameCredential(g: Gateway, command: Command)
    requires command.Claim?
  {
    && g.enrollment.Claimed? && g.enrollment.request == command.context.request
    && g.enrollment.fingerprint == command.fingerprint
  }

  /** After the first find. */
  function Found(p: Process, stored: Option<Gateway>): Await {
    match p.command
    case Register(context, _, displayName) =>
      if stored.Some? then ResolveExisting(stored.value, context.request, displayName)
      else Inserting(RegisterIdentity(displayName, context.request, p.now))
    case Issue(context, _, _, _) =>
      if stored.None? then Fails(GatewayNotFound)
      else match stored.value.enrollment {
        case AwaitingClaim(request, _, _, _, _) =>
          if SameClaim(stored.value, p.command) then Succeeds(true, stored.value, None)
          else Fails(if request == context.request then IdempotencyConflict else InvalidTransition)
        case Claimed(_, _, _, _, _) => Fails(InvalidTransition)
        case Registered(_, _) => IssuingToken(stored.value)
      }
    case Claim(_, _, _) =>
      if stored.None? || stored.value.enrollment.Registered? then Fails(InvalidEnrollmentToken)
      else Matching(stored.value)
  }

  /** After the find that follows a lost race. */
  function Refound(p: Process, stored: Option<Gateway>): Await {
    if stored.None? then Fails(ConcurrentModification)
    else match p.command
      case Register(context, _, displayName) => ResolveExisting(stored.value, context.request, displayName)
      case Issue(_, _, _, _) =>
        if SameClaim(stored.value, p.command) then Succeeds(true, stored.value, None) else Fails(ConcurrentModification)
      case Claim(_, _, _) =>
        if SameCredential(stored.value, p.command) then Succeeds(true, stored.value, None)
        else Fails(ConcurrentModification)
  }

  datatype IssuedToken = IssuedToken(claimId: string, token: string)

  function TokenIssued(p: Process, found: Gateway, reply: Option<IssuedToken>, digest: string -> string): Await
    requires p.command.Issue?
  {
    match reply
    case None => Fails(IdempotencyConflict)
    case Some(issued) =>
      match IssueClaim(found, p.command.context.request, issued.claimId, digest(issued.token), p.now,
        p.command.claimExpiresAt) {
        case Err(e) => Fails(e)
        case Ok(t) => Replacing(found, t.gateway, Some(issued.token))
      }
  }

  function Matched(p: Process, found: Gateway, digest: string -> string): Await
    requires p.command.Claim? && !found.enrollment.Registered?
  {
    if digest(p.command.token) != found.enrollment.tokenDigest then Fails(InvalidEnrollmentToken)
    else match ClaimIdentity(found, p.command.context.request, p.command.fingerprint, p.now) {
      case Err(e) => Fails(e)
      case Ok(t) => if t.replayed then Succeeds(true, t.gateway, None) else Replacing(found, t.gateway, None)
    }
  }

  // ---------- runs ----------

  /** How storage reports a write: as it went, or as unavailable without or with its effect. */
  datatype Report = Faithful | Lost | Unconfirmed

  /** `history` holds every value ever stored, the last one being the current, and `authors` the
      executions that stored them. */
  datatype State = State(history: seq<Gateway>, authors: seq<nat>, processes: seq<Process>)

  datatype Step =
    | Submit(command: Command, now: nat)
    | Find(p: nat, available: bool)
    | IssueToken(p: nat, reply: Option<IssuedToken>)
    | MatchToken(p: nat)
    | Write(p: nat, report: Report)

  function Stored(s: State): Option<Gateway> {
    if s.history == [] then None else Some(s.history[|s.history| - 1])
  }

  predicate Enabled(s: State, step: Step) {
    match step
    case Submit(_, _) => true
    case Find(p, _) => p < |s.processes| && (s.processes[p].at.Finding? || s.processes[p].at.Refinding?)
    case IssueToken(p, _) => p < |s.processes| && s.processes[p].at.IssuingToken? && s.processes[p].command.Issue?
    case MatchToken(p) =>
      && p < |s.processes| && s.processes[p].at.Matching?
      && s.processes[p].command.Claim? && !s.processes[p].at.found.enrollment.Registered?
    case Write(p, _) => p < |s.processes| && CanWrite(s.processes[p].at)
  }

  /** Only a registered identity is inserted; the repository refuses any other with an exception. */
  predicate CanWrite(at: Await) {
    (at.Inserting? && at.next.enrollment.Registered?) || at.Replacing?
  }

  function Moved(s: State, p: nat, at: Await): State
    requires p < |s.processes|
  {
    s.(processes := s.processes[p := s.processes[p].(at := at)])
  }

  /** Insert-if-absent, and replace-if-revision. */
  predicate WriteFits(stored: Option<Gateway>, at: Await)
    requires at.Inserting? || at.Replacing?
  {
    if at.Inserting? then stored.None? else stored.Some? && stored.value.revision == at.found.revision
  }

  function Written(s: State, p: nat, report: Report): State
    requires Enabled(s, Write(p, report))
  {
    var at := s.processes[p].at;
    if report.Lost? then Moved(s, p, Fails(StorageUnavailable))
    else if !WriteFits(Stored(s), at) then
      Moved(s, p, if report.Unconfirmed? then Fails(StorageUnavailable) else Refinding)
    else
      var token := if at.Inserting? then None else at.token;
      Moved(s, p, if report.Unconfirmed? then Fails(StorageUnavailable) else Succeeds(false, at.next, token))
        .(history := s.history + [at.next], authors := s.authors + [p])
  }

  function Apply(digest: string -> string, s: State, step: Step): State
    requires Enabled(s, step)
  {
    match step
    case Submit(command, now) => s.(processes := s.processes + [Process(command, now, Submitted(command, now))])
    case Find(p, available) =>
      var process := s.processes[p];
      Moved(s, p,
        if !available then Fails(StorageUnavailable)
        else if process.at.Finding? then Found(process, Stored(s)) else Refound(process, Stored(s)))
    case IssueToken(p, reply) => Moved(s, p, TokenIssued(s.processes[p], s.processes[p].at.found, reply, digest))
    case MatchToken(p) => Moved(s, p, Matched(s.processes[p], s.processes[p].at.found, digest))
    case Write(p, report) => Written(s, p, report)
  }

  function Next(digest: string -> string, s: State, step: Step): State {
    if Enabled(s, step) then Apply(digest, s, step) else s
  }

  function Steps(digest: string -> string, s: State, steps: seq<Step>): State {
    if steps == [] then s else Next(digest, Steps(digest, s, steps[..|steps| - 1]), steps[|steps| - 1])
  }

  function Run(digest: string -> string, steps: seq<Step>): State {
    Steps(digest, State([], [], []), steps)
  }

  // ---------- the invariant ----------

  /** Registered at revision 1, then awaiting a claim at 2, then claimed at 3, and nothing else. */
  ghost predicate Lifecycle(history: seq<Gateway>) {
    && |history| <= 3
    && (|history| > 0 ==> history[0].revision == 1 && history[0].enrollment.Registered?)
    && (|history| > 1 ==>
      && history[1].revision == 2 && history[1].enrollment.AwaitingClaim?
      && history[1].displayName == history[0].displayName
      && history[1].enrollment.issuedAt < history[1].enrollment.expiresAt)
    && (|history| > 2 ==>
      && history[2].revision == 3 && history[2].enrollment.Claimed?
      && history[2].displayName == history[1].displayName
      && history[2].enrollment.claimId == history[1].enrollment.claimId
      && history[2].enrollment.tokenDigest == history[1].enrollment.tokenDigest
      && history[1].enrollment.issuedAt <= history[2].enrollment.claimedAt < history[1].enrollment.expiresAt)
  }

  /** The value that a successful command reports, and the place of its kind in the history. */
  function PlaceOf(command: Command): nat {
    match command
    case Register(_, _, _) => 0
    case Issue(_, _, _, _) => 1
    case Claim(_, _, _) => 2
  }

  /** The stored value is what the command asked for. */
  ghost predicate Serves(digest: string -> string, history: seq<Gateway>, command: Command)
    requires Lifecycle(history) && PlaceOf(command) < |history|
  {
    match command
    case Register(context, _, displayName) =>
      history[0].enrollment.request == context.request && history[0].displayName == Trim(displayName)
    case Issue(context, _, _, claimExpiresAt) =>
      history[1].enrollment.request == context.request && history[1].enrollment.expiresAt == claimExpiresAt
    case Claim(context, token, fingerprint) =>
      && history[2].enrollment.request == context.request && history[2].enrollment.fingerprint == fingerprint
      && digest(token) == history[1].enrollment.tokenDigest
  }

  /** The outcome of execution p is true of the history. */
  ghost predicate Truthful(digest: string -> string, s: State, p: nat, command: Command, outcome: Outcome)
    requires Lifecycle(s.history) && |s.authors| == |s.history|
  {
    var place := PlaceOf(command);
    match outcome
    case Failed(failure) => p in s.authors ==> failure == StorageUnavailable
    case Success(replayed, view, token) =>
      && place < |s.history| && Serves(digest, s.history, command) && view == ViewOf(s.history[place])
      && (!replayed <==> s.authors[place] == p)
      && (token.Some? <==> !replayed && command.Issue?)
      && (token.Some? ==> digest(token.value) == s.history[1].enrollment.tokenDigest)
  }

  /** What a suspended execution holds is what it was given and what was stored when it looked. */
  ghost predicate Justified(digest: string -> string, s: State, p: nat, process: Process)
    requires Lifecycle(s.history) && |s.authors| == |s.history|
  {
    var command, now := process.command, process.now;
    && (!process.at.Returned? ==> p !in s.authors && (command.Issue? ==> now < command.claimExpiresAt))
    && match process.at
      case Finding => true
      case Inserting(next) =>
        command.Register? && next == RegisterIdentity(command.displayName, command.context.request, now)
      case IssuingToken(found) => command.Issue? && |s.history| > 0 && found == s.history[0]
      case Matching(found) =>
        && command.Claim? && |s.history| > 1
        && (found == s.history[1] || (|s.history| > 2 && found == s.history[2]))
      case Replacing(found, next, token) =>
        if command.Issue? then
          && |s.history| > 0 && found == s.history[0] && token.Some?
          && next.revision == 2 && next.displayName == found.displayName && next.enrollment.AwaitingClaim?
          && next.enrollment == AwaitingClaim(
            command.context.request, next.enrollment.claimId, digest(token.value), now, command.claimExpiresAt)
        else
          && command.Claim? && |s.history| > 1 && found == s.history[1] && token.None?
          && digest(command.token) == found.enrollment.tokenDigest
          && ClaimIdentity(found, command.context.request, command.fingerprint, now) == Ok(Transition(false, next))
      case Refinding => command.Claim? ==>
        |s.history| > 1 && digest(command.token) == s.history[1].enrollment.tokenDigest
      case Returned(outcome) => Truthful(digest, s, p, command, outcome)
  }

  /** The i-th stored value was written by a command of the i-th kind, which served itself. */
  ghost predicate Authored(digest: string -> string, s: State)
    requires Lifecycle(s.history)
  {
    && |s.authors| == |s.history|
    && forall i: nat | i < |s.authors| ::
      && s.authors[i] < |s.processes| && s.processes[s.authors[i]].at.Returned?
      && PlaceOf(s.processes[s.authors[i]].command) == i && Serves(digest, s.history, s.processes[s.authors[i]].command)
  }

  ghost predicate Inv(digest: string -> string, s: State) {
    && Lifecycle(s.history) && Authored(digest, s)
    && forall p: nat | p < |s.processes| :: Justified(digest, s, p, s.processes[p])
  }

  /** A step that stores nothing keeps the invariant when it leaves p justified. */
  lemma MovedKeepsInv(digest: string -> string, s: State, p: nat, at: Await)
    requires Inv(digest, s) && p < |s.processes| && !s.processes[p].at.Returned?
    requires Justified(digest, s, p, s.processes[p].(at := at))
    ensures Inv(digest, Moved(s, p, at))
  {
    var t := Moved(s, p, at);
    forall q: nat | q < |t.processes| ensures Justified(digest, t, q, t.processes[q]) {
      assert Justified(digest, s, q, t.processes[q]);
    }
  }

  lemma FoundIsJustified(digest: string -> string, s: State, p: nat)
    requires Inv(digest, s) && p < |s.processes| && s.processes[p].at.Finding?
    ensures Justified(digest, s, p, s.processes[p].(at := Found(s.processes[p], Stored(s))))
  {
    assert Justified(digest, s, p, s.processes[p]);
  }

  lemma RefoundIsJustified(digest: string -> string, s: State, p: nat)
    requires Inv(digest, s) && p < |s.processes| && s.processes[p].at.Refinding?
    ensures Justified(digest, s, p, s.processes[p].(at := Refound(s.processes[p], Stored(s))))
  {
    assert Justified(digest, s, p, s.processes[p]);
  }

  lemma TokenIsJustified(digest: string -> string, s: State, p: nat, reply: Option<IssuedToken>)
    requires Inv(digest, s) && Enabled(s, IssueToken(p, reply))
    ensures Justified(digest, s, p,
      s.processes[p].(at := TokenIssued(s.processes[p], s.processes[p].at.found, reply, digest)))
  {
    assert Justified(digest, s, p, s.processes[p]);
  }

  lemma MatchIsJustified(digest: string -> string, s: State, p: nat)
    requires Inv(digest, s) && Enabled(s, MatchToken(p))
    ensures Justified(digest, s, p, s.processes[p].(at := Matched(s.processes[p], s.processes[p].at.found, digest)))
  {
    assert Justified(digest, s, p, s.processes[p]);
  }

  /** A write that fits extends the lifecycle by the value its command asked for. */
  lemma WriteExtends(digest: string -> string, s: State, p: nat)
    requires Inv(digest, s) && Enabled(s, Write(p, Faithful)) && WriteFits(Stored(s), s.processes[p].at)
    ensures var history := s.history + [s.processes[p].at.next];
      && PlaceOf(s.processes[p].command) == |s.history| && Lifecycle(history)
      && Serves(digest, history, s.processes[p].command)
  {
    assert Justified(digest, s, p, s.processes[p]);
  }

  /** What held of an execution still holds after another one has written. */
  lemma JustifiedExtends(digest: string -> string, s: State, t: State, q: nat, process: Process, author: nat)
    requires Lifecycle(s.history) && |s.authors| == |s.history| && Justified(digest, s, q, process)
    requires Lifecycle(t.history) && |t.authors| == |t.history| == |s.history| + 1
    requires t.history[..|s.history|] == s.history && t.authors == s.authors + [author] && author != q
    ensures Justified(digest, t, q, process)
  {
    assert forall i: nat | i < |s.history| :: t.history[i] == t.history[..|s.history|][i];
  }

  lemma StoringKeepsInv(digest: string -> string, s: State, p: nat, report: Report)
    requires Inv(digest, s) && Enabled(s, Write(p, report)) && !report.Lost? && WriteFits(Stored(s), s.processes[p].at)
    ensures Inv(digest, Written(s, p, report))
  {
    var t := Written(s, p, report);
    WriteExtends(digest, s, p);
    assert Justified(digest, s, p, s.processes[p]);
    forall q: nat | q < |t.processes| && q != p ensures Justified(digest, t, q, t.processes[q]) {
      assert Justified(digest, s, q, s.processes[q]);
      JustifiedExtends(digest, s, t, q, s.processes[q], p);
    }
    AuthoredExtends(digest, s, p, t);
    OwnWriteIsTruthful(digest, s, t, p, report);
  }

  /** The execution that stored a value reports it, or that storage was unavailable. */
  lemma OwnWriteIsTruthful(digest: string -> string, s: State, t: State, p: nat, report: Report)
    requires Lifecycle(s.history) && |s.authors| == |s.history| && Enabled(s, Write(p, report))
    requires Justified(digest, s, p, s.processes[p])
    requires t == Written(s, p, report) && !report.Lost? && WriteFits(Stored(s), s.processes[p].at)
    requires PlaceOf(s.processes[p].command) == |s.history| && Lifecycle(t.history)
      && Serves(digest, t.history, s.processes[p].command)
    ensures |t.authors| == |t.history| && Justified(digest, t, p, t.processes[p])
  {
    assert t.authors[|s.authors|] == p && t.history[|s.history|] == s.processes[p].at.next;
  }

  lemma WriteKeepsInv(digest: string -> string, s: State, p: nat, report: Report)
    requires Inv(digest, s) && Enabled(s, Write(p, report))
    ensures Inv(digest, Written(s, p, report))
  {
    if report.Lost? || !WriteFits(Stored(s), s.processes[p].at) {
      assert Justified(digest, s, p, s.processes[p]);
      MovedKeepsInv(digest, s, p, Written(s, p, report).processes[p].at);
    } else {
      StoringKeepsInv(digest, s, p, report);
    }
  }

  lemma AuthoredExtends(digest: string -> string, s: State, p: nat, t: State)
    requires Lifecycle(s.history) && Authored(digest, s) && p < |s.processes| && !s.processes[p].at.Returned?
    requires Lifecycle(t.history) && |t.history| == |s.history| + 1 && t.history[..|s.history|] == s.history
    requires t.authors == s.authors + [p] && PlaceOf(s.processes[p].command) == |s.history|
    requires Serves(digest, t.history, s.processes[p].command)
    requires |t.processes| == |s.processes| && t.processes[p].at.Returned?
      && t.processes[p].command == s.processes[p].command
    requires forall q: nat | q < |s.processes| && q != p :: t.processes[q] == s.processes[q]
    ensures Authored(digest, t)
  {
    assert forall i: nat | i < |s.history| :: t.history[i] == t.history[..|s.history|][i];
    assert forall i: nat | i < |s.authors| :: t.authors[i] == s.authors[i] && s.authors[i] != p;
  }

  lemma SubmitKeepsInv(digest: string -> string, s: State, command: Command, now: nat)
    requires Inv(digest, s)
    ensures Inv(digest, Apply(digest, s, Submit(command, now)))
  {
    var t := Apply(digest, s, Submit(command, now));
    forall q: nat | q < |t.processes| ensures Justified(digest, t, q, t.processes[q]) {
      if q < |s.processes| {
        assert Justified(digest, s, q, s.processes[q]);
      }
    }
  }

  lemma NextKeepsInv(digest: string -> string, s: State, step: Step)
    requires Inv(digest, s)
    ensures Inv(digest, Next(digest, s, step))
  {
    if Enabled(s, step) {
      match step
      case Submit(command, now) => SubmitKeepsInv(digest, s, command, now);
      case Find(p, available) =>
        assert Justified(digest, s, p, s.processes[p]);
        if s.processes[p].at.Finding? { FoundIsJustified(digest, s, p); } else { RefoundIsJustified(digest, s, p); }
        MovedKeepsInv(digest, s, p, Apply(digest, s, step).processes[p].at);
      case IssueToken(p, reply) =>
        TokenIsJustified(digest, s, p, reply);
        MovedKeepsInv(digest, s, p, Apply(digest, s, step).processes[p].at);
      case MatchToken(p) =>
        MatchIsJustified(digest, s, p);
        MovedKeepsInv(digest, s, p, Apply(digest, s, step).processes[p].at);
      case Write(p, report) => WriteKeepsInv(digest, s, p, report);
    }
  }

  lemma {:induction false} RunKeepsInv(digest: string -> string, steps: seq<Step>)
    ensures Inv(digest, Run(digest, steps))
  {
    if steps != [] {
      RunKeepsInv(digest, steps[..|steps| - 1]);
      NextKeepsInv(digest, Run(digest, steps[..|steps| - 1]), steps[|steps| - 1]);
    }
  }

  // ---------- what every run guarantees ----------

  function OutcomeOf(s: State, p: nat): Option<Outcome> {
    if p < |s.processes| && s.processes[p].at.Returned? then Some(s.processes[p].at.outcome) else None
  }

  function TokenOf(s: State, p: nat): Option<string> {
    match OutcomeOf(s, p)
    case Some(Success(_, _, token)) => token
    case _ => None
  }

  lemma OutcomeIsTruthful(digest: string -> string, steps: seq<Step>, p: nat)
    requires OutcomeOf(Run(digest, steps), p).Some?
    ensures var s := Run(digest, steps);
      && Inv(digest, s)
      && Truthful(digest, s, p, s.processes[p].command, s.processes[p].at.outcome)
  {
    RunKeepsInv(digest, steps);
    var s := Run(digest, steps);
    assert Justified(digest, s, p, s.processes[p]);
  }

  lemma NextExtends(digest: string -> string, s: State, step: Step)
    ensures s.history <= Next(digest, s, step).history && s.authors <= Next(digest, s, step).authors
    ensures forall p: nat :: OutcomeOf(s, p).Some? ==> OutcomeOf(Next(digest, s, step), p) == OutcomeOf(s, p)
  {
  }

  /** Stored state only moves from registered to awaiting a claim to claimed: nothing stored is
      ever replaced by anything but its successor, and outcomes are final. */
  lemma {:induction false} StoredOnlyAdvances(digest: string -> string, steps: seq<Step>, more: seq<Step>)
    ensures var s, t := Run(digest, steps), Run(digest, steps + more);
      && Lifecycle(t.history) && s.history <= t.history && s.authors <= t.authors
      && forall p: nat :: OutcomeOf(s, p).Some? ==> OutcomeOf(t, p) == OutcomeOf(s, p)
  {
    RunKeepsInv(digest, steps + more);
    if more == [] {
      assert steps + more == steps;
    } else {
      var last := |more| - 1;
      assert (steps + more)[..|steps + more| - 1] == steps + more[..last];
      StoredOnlyAdvances(digest, steps, more[..last]);
      NextExtends(digest, Run(digest, steps + more[..last]), more[last]);
    }
  }

  /** At most one execution ever returns an enrollment token. */
  lemma OneTokenReturned(digest: string -> string, steps: seq<Step>, p: nat, q: nat)
    ensures var s := Run(digest, steps); TokenOf(s, p).Some? && TokenOf(s, q).Some? ==> p == q
  {
    if TokenOf(Run(digest, steps), p).Some? && TokenOf(Run(digest, steps), q).Some? {
      OutcomeIsTruthful(digest, steps, p);
      OutcomeIsTruthful(digest, steps, q);
    }
  }

  /** Step k of the run is the write that stored the claim: the Issue of execution p wrote to the
      registered identity, and storage reported on it. */
  ghost predicate StoresClaim(digest: string -> string, steps: seq<Step>, k: nat, p: nat, report: Report) {
    && k < |steps| && steps[k] == Write(p, report) && !report.Lost?
    && var s := Run(digest, steps[..k]);
    && Enabled(s, steps[k]) && |s.history| == 1 && WriteFits(Stored(s), s.processes[p].at)
  }

  /** A stored claim was stored by exactly such a step. */
  lemma {:induction false} ClaimHasItsWrite(digest: string -> string, steps: seq<Step>)
    requires |Run(digest, steps).history| > 1
    ensures exists k: nat, p: nat, report: Report :: StoresClaim(digest, steps, k, p, report)
  {
    var before, step := steps[..|steps| - 1], steps[|steps| - 1];
    var s := Run(digest, before);
    assert steps[..|before|] == before;
    if |s.history| > 1 {
      ClaimHasItsWrite(digest, before);
      var k: nat, p: nat, report: Report :| StoresClaim(digest, before, k, p, report);
      assert steps[..k] == before[..k];
      assert StoresClaim(digest, steps, k, p, report);
    } else {
      assert StoresClaim(digest, steps, |before|, step.p, step.report);
    }
  }

  /** The step that stores the claim returns the token exactly when storage reports it faithfully. */
  lemma WriteReturnsToken(digest: string -> string, s: State, p: nat, report: Report)
    requires Inv(digest, s) && Enabled(s, Write(p, report)) && !report.Lost?
    requires |s.history| == 1 && WriteFits(Stored(s), s.processes[p].at)
    ensures var t := Next(digest, s, Write(p, report));
      && |t.authors| == 2 && t.authors[1] == p && OutcomeOf(t, p).Some?
      && (TokenOf(t, p).Some? <==> report.Faithful?)
  {
    assert Justified(digest, s, p, s.processes[p]);
    WriteExtends(digest, s, p);
  }

  lemma TokenHolderWroteClaim(digest: string -> string, steps: seq<Step>, q: nat)
    requires TokenOf(Run(digest, steps), q).Some?
    ensures |Run(digest, steps).authors| > 1 && Run(digest, steps).authors[1] == q
  {
    OutcomeIsTruthful(digest, steps, q);
  }

  /** Once a claim is stored, some call ever returns its token exactly when storage reported that
      write faithfully, and then it is the call that wrote. A write that was stored but reported as
      unavailable leaves a claim whose token nobody is ever given. */
  lemma TokenReturnedExactly(digest: string -> string, steps: seq<Step>, k: nat, p: nat, report: Report)
    requires StoresClaim(digest, steps, k, p, report)
    ensures var s := Run(digest, steps);
      && ((exists q: nat :: TokenOf(s, q).Some?) <==> report.Faithful?)
      && forall q: nat | TokenOf(s, q).Some? :: q == p
  {
    var s, until, more := Run(digest, steps), steps[..k + 1], steps[k + 1..];
    assert until[..k] == steps[..k] && until[k] == steps[k] && until + more == steps;
    RunKeepsInv(digest, steps[..k]);
    WriteReturnsToken(digest, Run(digest, steps[..k]), p, report);
    StoredOnlyAdvances(digest, until, more);
    assert OutcomeOf(s, p) == OutcomeOf(Run(digest, until), p);
    assert TokenOf(s, p).Some? <==> report.Faithful?;
    assert s.authors[1] == Run(digest, until).authors[1];
    forall q: nat | TokenOf(s, q).Some? ensures q == p {
      TokenHolderWroteClaim(digest, steps, q);
    }
  }

  /** A run in which the claim is stored and its token lost. */
  function LosingToken(): seq<Step> {
    var context := Context("r", 0, 9);
    [Submit(Register(context, true, "g"), 1), Find(0, true), Write(0, Faithful),
     Submit(Issue(context, true, Some(1), 5), 1), Find(1, true), IssueToken(1, Some(IssuedToken("c", "t"))),
     Write(1, Unconfirmed)]
  }

  lemma {:induction false} StepsSplit(digest: string -> string, s: State, first: seq<Step>, step: Step)
    ensures Steps(digest, s, first + [step]) == Next(digest, Steps(digest, s, first), step)
  {
    assert (first + [step])[..|first|] == first;
  }

  lemma RegisteredExample(digest: string -> string)
    ensures var s := Run(digest, LosingToken()[..3]);
      && s.history == [Gateway("g", 1, Registered("r", 1))] && |s.processes| == 1
  {
    var steps, start := LosingToken(), State([], [], []);
    assert Trim("g") == "g" by {
      assert TrimStart("g") == "g" && TrimEnd("g") == "g";
    }
    assert steps[..3] == [] + [steps[0]] + [steps[1]] + [steps[2]];
    StepsSplit(digest, start, [], steps[0]);
    StepsSplit(digest, start, [] + [steps[0]], steps[1]);
    StepsSplit(digest, start, [] + [steps[0]] + [steps[1]], steps[2]);
  }

  /** After it, whatever is tried, the claim stays unclaimed by anyone who was given its token. */
  lemma LosingTokenExample(digest: string -> string, more: seq<Step>, q: nat)
    ensures StoresClaim(digest, LosingToken(), 6, 1, Unconfirmed)
    ensures TokenOf(Run(digest, LosingToken() + more), q).None?
  {
    var steps := LosingToken();
    RegisteredExample(digest);
    var s := Run(digest, steps[..3]);
    StepsSplit(digest, State([], [], []), steps[..3], steps[3]);
    StepsSplit(digest, State([], [], []), steps[..3] + [steps[3]], steps[4]);
    StepsSplit(digest, State([], [], []), steps[..3] + [steps[3]] + [steps[4]], steps[5]);
    assert steps[..6] == steps[..3] + [steps[3]] + [steps[4]] + [steps[5]];
    assert (steps + more)[..6] == steps[..6];
    assert StoresClaim(digest, steps + more, 6, 1, Unconfirmed);
    TokenReturnedExactly(digest, steps + more, 6, 1, Unconfirmed);
  }

  /** Two successful Issue calls name the same request and expiry and show the same claim; one
      that returns no token is a replay. */
  lemma IssuesAgree(digest: string -> string, steps: seq<Step>, p: nat, q: nat)
    requires var s := Run(digest, steps);
      && OutcomeOf(s, p).Some? && OutcomeOf(s, p).value.Success? && s.processes[p].command.Issue?
      && OutcomeOf(s, q).Some? && OutcomeOf(s, q).value.Success? && s.processes[q].command.Issue?
    ensures var s := Run(digest, steps);
      && s.processes[p].command.context.request == s.processes[q].command.context.request
      && s.processes[p].command.claimExpiresAt == s.processes[q].command.claimExpiresAt
      && OutcomeOf(s, p).value.view == OutcomeOf(s, q).value.view
      && (OutcomeOf(s, p).value.replayed <==> TokenOf(s, p).None?)
  {
    OutcomeIsTruthful(digest, steps, p);
    OutcomeIsTruthful(digest, steps, q);
  }

  /** Whoever claims the Gateway presented a token with the digest of the issued one, and all
      successful claims bind the same request and credential. */
  lemma ClaimsAgree(digest: string -> string, steps: seq<Step>, p: nat, q: nat)
    requires var s := Run(digest, steps);
      OutcomeOf(s, p).Some? && OutcomeOf(s, p).value.Success? && s.processes[p].command.Claim?
    ensures var s := Run(digest, steps);
      && |s.history| == 3 && s.history[1].enrollment.AwaitingClaim?
      && digest(s.processes[p].command.token) == s.history[1].enrollment.tokenDigest
      && (TokenOf(s, q).Some? ==> digest(s.processes[p].command.token) == digest(TokenOf(s, q).value))
      && (OutcomeOf(s, q).Some? && OutcomeOf(s, q).value.Success? && s.processes[q].command.Claim? ==>
        && s.processes[p].command.context.request == s.processes[q].command.context.request
        && s.processes[p].command.fingerprint == s.processes[q].command.fingerprint
        && (OutcomeOf(s, p).value.replayed || OutcomeOf(s, q).value.replayed || p == q))
  {
    OutcomeIsTruthful(digest, steps, p);
    if OutcomeOf(Run(digest, steps), q).Some? {
      OutcomeIsTruthful(digest, steps, q);
    }
  }

  /** An execution that failed for any reason but storage has stored nothing. */
  lemma FailureStoredNothing(digest: string -> string, steps: seq<Step>, p: nat)
    requires var outcome := OutcomeOf(Run(digest, steps), p);
      outcome.Some? && outcome.value.Failed? && outcome.value.failure != StorageUnavailable
    ensures p !in Run(digest, steps).authors
  {
    OutcomeIsTruthful(digest, steps, p);
  }

  function Remaining(at: Await): nat {
    match at
    case Finding => 4
    case IssuingToken(_) | Matching(_) => 3
    case Inserting(_) | Replacing(_, _, _) => 2
    case Refinding => 1
    case Returned(_) => 0
  }

  function Mover(step: Step): Option<nat> {
    match step
    case Submit(_, _) => None
    case Find(p, _) => Some(p)
    case IssueToken(p, _) => Some(p)
    case MatchToken(p) => Some(p)
    case Write(p, _) => Some(p)
  }

  /** No execution is ever stuck. */
  lemma NeverStuck(digest: string -> string, steps: seq<Step>, p: nat)
    requires var s := Run(digest, steps); p < |s.processes| && !s.processes[p].at.Returned?
    ensures exists own: Step :: Mover(own) == Some(p) && Enabled(Run(digest, steps), own)
  {
    RunKeepsInv(digest, steps);
    var s := Run(digest, steps);
    assert Justified(digest, s, p, s.processes[p]);
    var own := match s.processes[p].at
      case Finding => Find(p, true)
      case Refinding => Find(p, true)
      case IssuingToken(_) => IssueToken(p, None)
      case Matching(_) => MatchToken(p)
      case _ => Write(p, Lost);
    assert Mover(own) == Some(p) && Enabled(s, own);
  }

  /** Each returns after at most four steps of its own, however the steps of others fall between. */
  lemma ReturnsWithinFourSteps(digest: string -> string, s: State, p: nat, step: Step)
    requires p < |s.processes| && !s.processes[p].at.Returned?
    ensures Remaining(s.processes[p].at) <= 4
    ensures var t := Next(digest, s, step);
      if Enabled(s, step) && Mover(step) == Some(p) then Remaining(t.processes[p].at) < Remaining(s.processes[p].at)
      else t.processes[p] == s.processes[p]
  {
  }

  // ---------- the running commands ----------

  /** The stored entry of one Gateway. A call answers None when storage is unavailable. */
  class GatewayRepository {
    var stored: Option<Gateway>

    constructor ()
      ensures stored == None
    {
      stored := None;
    }

    /** Err stands for the exception on an identity that is not registered. */
    method Insert(gateway: Gateway, report: Report) returns (inserted: Result<Option<bool>, ()>)
      modifies this
      ensures !gateway.enrollment.Registered? ==> inserted.Err? && stored == old(stored)
      ensures gateway.enrollment.Registered? ==>
        && stored == (if !report.Lost? && old(stored).None? then Some(gateway) else old(stored))
        && inserted == Ok(if report.Faithful? then Some(old(stored).None?) else None)
    {
      if !gateway.enrollment.Registered? { return Err(()); }
      var fits := stored.None?;
      if !report.Lost? && fits { stored := Some(gateway); }
      inserted := Ok(if report.Faithful? then Some(fits) else None);
    }

    method Replace(gateway: Gateway, expectedRevision: nat, report: Report) returns (replaced: Option<bool>)
      modifies this
      ensures var fits := old(stored).Some? && old(stored).value.revision == expectedRevision;
        && stored == (if !report.Lost? && fits then Some(gateway) else old(stored))
        && replaced == if report.Faithful? then Some(fits) else None
    {
      var fits := stored.Some? && stored.value.revision == expectedRevision;
      if !report.Lost? && fits { stored := Some(gateway); }
      replaced := if report.Faithful? then Some(fits) else None;
    }
  }

  /** Execution p of state s is the one suspended at `at` over this stored entry. */
  ghost predicate Mirrors(s: State, p: nat, command: Command, now: nat, at: Await, stored: Option<Gateway>) {
    p < |s.processes| && s.processes[p] == Process(command, now, at) && Stored(s) == stored
  }

  /** One call of an execute method. Between its stretches the repository may be changed by other
      executions; each stretch does to both what the step of the state machine does. */
  class Execution {
    const command: Command
    const now: nat
    const digest: string -> string
    const repository: GatewayRepository
    var at: Await

    constructor (command: Command, now: nat, digest: string -> string, repository: GatewayRepository)
      ensures this.command == command && this.now == now && this.digest == digest && this.repository == repository
      ensures at == Submitted(command, now)
    {
      this.command, this.now, this.digest, this.repository := command, now, digest, repository;
      at := Submitted(command, now);
    }

    method OnFind(available: bool)
      requires at.Finding? || at.Refinding?
      modifies this
      ensures forall s: State, p: nat | Mirrors(s, p, command, now, old(at), repository.stored) ::
        Mirrors(Apply(digest, s, Find(p, available)), p, command, now, at, repository.stored)
    {
      var stored := repository.stored;
      if !available {
        at := Fails(StorageUnavailable);
      } else if command.Register? && (at.Finding? || stored.Some?) {
        if stored.Some? {
          at := ResolveExisting(stored.value, command.context.request, command.displayName);
        } else {
          at := Inserting(RegisterIdentity(command.displayName, command.context.request, now));
        }
      } else if at.Refinding? {
        if && stored.Some?
           && (if command.Issue? then SameClaim(stored.value, command)
               else command.Claim? && SameCredential(stored.value, command)) {
          at := Succeeds(true, stored.value, None);
        } else {
          at := Fails(ConcurrentModification);
        }
      } else if command.Issue? {
        if stored.None? {
          at := Fails(GatewayNotFound);
        } else if stored.value.enrollment.AwaitingClaim? {
          if SameClaim(stored.value, command) {
            at := Succeeds(true, stored.value, None);
          } else {
            var sameRequest := stored.value.enrollment.request == command.context.request;
            at := Fails(if sameRequest then IdempotencyConflict else InvalidTransition);
          }
        } else if !stored.value.enrollment.Registered? {
          at := Fails(InvalidTransition);
        } else {
          at := IssuingToken(stored.value);
        }
      } else if stored.None? || stored.value.enrollment.Registered? {
        at := Fails(InvalidEnrollmentToken);
      } else {
        at := Matching(stored.value);
      }
    }

    method OnTokenIssued(reply: Option<IssuedToken>)
      requires command.Issue? && at.IssuingToken?
      modifies this
      ensures forall s: State, p: nat | Mirrors(s, p, command, now, old(at), repository.stored) ::
        Mirrors(Apply(digest, s, IssueToken(p, reply)), p, command, now, at, repository.stored)
    {
      if reply.None? {
        at := Fails(IdempotencyConflict);
        return;
      }
      var transition := IssueClaim(at.found, command.context.request, reply.value.claimId, digest(reply.value.token),
        now, command.claimExpiresAt);
      if transition.Err? {
        at := Fails(transition.error);
      } else {
        at := Replacing(at.found, transition.value.gateway, Some(reply.value.token));
      }
    }

    method OnTokenMatched()
      requires command.Claim? && at.Matching? && !at.found.enrollment.Registered?
      modifies this
      ensures forall s: State, p: nat | Mirrors(s, p, command, now, old(at), repository.stored) ::
        Mirrors(Apply(digest, s, MatchToken(p)), p, command, now, at, repository.stored)
    {
      var gateway := at.found;
      if digest(command.token) != gateway.enrollment.tokenDigest {
        at := Fails(InvalidEnrollmentToken);
        return;
      }
      var transition := ClaimIdentity(gateway, command.context.request, command.fingerprint, now);
      if transition.Err? {
        at := Fails(transition.error);
      } else if transition.value.replayed {
        at := Succeeds(true, transition.value.gateway, None);
      } else {
        at := Replacing(gateway, transition.value.gateway, None);
      }
    }

    method OnWrite(report: Report)
      requires CanWrite(at)
      modifies this, repository
      ensures forall s: State, p: nat | Mirrors(s, p, command, now, old(at), old(repository.stored)) ::
        Mirrors(Apply(digest, s, Write(p, report)), p, command, now, at, repository.stored)
    {
      var written: Option<bool>;
      if at.Inserting? {
        var inserted := repository.Insert(at.next, report);
        written := inserted.value;
      } else {
        written := repository.Replace(at.next, at.found.revision, report);
      }
      if written.None? {
        at := Fails(StorageUnavailable);
      } else if !written.value {
        at := Refinding;
      } else {
        at := Succeeds(false, at.next, if at.Inserting? then None else at.token);
      }
    }
  }
}
