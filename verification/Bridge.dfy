/** The session bridge: a map of session records shared by all handlers, and each handler as a
    chain of uninterrupted stretches between its awaits.

    A handler captures a record, awaits application commands, and writes the record back. Nothing
    here says which handlers may interleave; `CloudLinkSystem` adds the queue of the ingress. */
module Bridge {
  import opened Wrappers
  import opened CloudLinkMessages
  import U = UplinkAuthentication

  const INTEGRATION := "aether.cloudlink.integration.v1alpha1"
  const INTEGRATION_CONTROL := "aether.cloudlink.integration-control.v1alpha1"

  datatype Origin = GatewaySigned | TrustedConnector

  type StreamKey = (string, nat)
  datatype Binding = Binding(kind: DeliveryKind, integration: string)

  /** An active session assertion; `header` is its gateway, session, epoch and generation. */
  datatype Record = Record(
    scope: Scope, header: Header, origin: Origin, protocols: set<string>, bindings: map<StreamKey, Binding>)

  type Sessions = map<string, Record>

  datatype Inbound =
    | Undecodable
    | ChallengeRequest(gateway: string)
    | Hello(gateway: string, generation: nat, origin: Origin, keyId: Option<string>)
    | Up(uplink: Uplink)

  /** Which optional dependencies the bridge was composed with. */
  datatype Config = Config(
    scope: Scope, gatewaySigned: bool, connectorResolver: bool,
    integrationEnabled: bool, controlEnabled: bool,
    topologyPort: bool, observationPort: bool, cursorPort: bool, dataLossPort: bool)

  // ---------- the answers of application commands ----------

  /** The value of a session command that succeeded. */
  datatype Accepted = Accepted(
    scope: Scope, header: Header, keyId: Option<string>, heartbeatInterval: Option<nat>,
    protocolVersion: string, active: bool, resumeValid: bool)

  /** A persisted acknowledgement as an unchecked record of optional fields. */
  datatype PersistedAck = PersistedAck(
    outboxEvent: Option<string>, tenant: Option<string>, project: Option<string>, gateway: Option<string>,
    session: Option<string>, epoch: Option<nat>, generation: Option<nat>, stream: Option<string>,
    streamEpoch: Option<nat>, position: Option<nat>, batch: Option<string>, digest: Option<string>,
    receipt: Option<string>, acknowledgedAt: Option<nat>, integration: Option<string>, kind: Option<DeliveryKind>)

  datatype AckField = NoAck | NotARecord | Ack(ack: PersistedAck)

  datatype TelemetryReceipt = TelemetryReceipt(id: Option<string>, gap: bool)

  datatype Disposition = Persisted | Replayed | OtherDisposition

  /** An integration receipt; `requestMatches` compares its request id with the delivery's. */
  datatype IntegrationReceipt = IntegrationReceipt(
    kind: Option<DeliveryKind>, tenant: Option<string>, project: Option<string>, gateway: Option<string>,
    integration: Option<string>, generation: Option<nat>, requestMatches: bool,
    snapshotGeneration: Option<string>, payloadDigest: Option<string>, outboxEvent: Option<string>,
    auditEvent: Option<string>, committedAt: Option<string>, revision: int, batch: Option<string>)

  /** The value of a business command that succeeded; a command fills the fields it has. */
  datatype Value = Value(
    replayed: bool, disposition: Disposition, durablyAcknowledged: bool,
    telemetryReceipt: Option<TelemetryReceipt>, integrationReceipt: Option<IntegrationReceipt>,
    acknowledgement: AckField, controlShape: bool)

  datatype Answer = Failed(deliveryGap: bool) | Succeeded(value: Value)

  // ---------- durable acknowledgements ----------

  datatype DurableAck = DurableAck(
    gateway: string, session: string, epoch: nat, generation: nat, stream: string, streamEpoch: nat,
    position: nat, batch: string, digest: string, receipt: string, acknowledgedAt: nat)

  /** The acknowledgement carries exactly the identity of the delivery. */
  predicate AckIsFor(ack: DurableAck, m: Uplink) {
    && m.Delivery?
    && ack.gateway == m.header.gateway && ack.session == m.header.session
    && ack.epoch == m.header.epoch && ack.generation == m.header.generation
    && ack.stream == m.id.stream && ack.streamEpoch == m.id.streamEpoch
    && ack.position == m.id.position && ack.batch == m.id.batch && ack.digest == m.id.digest
  }

  function PlainAck(m: Uplink, receipt: string, now: nat): DurableAck
    requires m.Delivery?
  {
    DurableAck(m.header.gateway, m.header.session, m.header.epoch, m.header.generation,
      m.id.stream, m.id.streamEpoch, m.id.position, m.id.batch, m.id.digest, receipt, now)
  }

  /** The record that a repository writes when it persists the acknowledgement of a delivery. */
  function WrittenFor(
      m: Uplink, event: string, scope: Scope, receipt: string, acknowledgedAt: nat): PersistedAck
    requires m.Delivery?
  {
    PersistedAck(Some(event), Some(scope.tenant), Some(scope.project), Some(m.header.gateway),
      Some(m.header.session), Some(m.header.epoch), Some(m.header.generation), Some(m.id.stream),
      Some(m.id.streamEpoch), Some(m.id.position), Some(m.id.batch), Some(m.id.digest),
      Some(receipt), Some(acknowledgedAt), m.payload.integration, Some(m.kind))
  }

  /** What the bridge does not compare: the Integration and kind of a delivery that has none. */
  function Compared(m: Uplink, a: PersistedAck): PersistedAck
    requires m.Delivery?
  {
    if m.payload.integration.Some? then a
    else a.(integration := m.payload.integration, kind := Some(m.kind))
  }

  /** The acknowledgement a repository persisted. It is used exactly when it is what is written for
      this very delivery, its Integration and message kind included. */
  function PersistedDurableAck(m: Uplink, a: PersistedAck): (r: Option<DurableAck>)
    requires m.Delivery?
    ensures r.Some? ==> AckIsFor(r.value, m)
    ensures r.Some? <==>
      && a.outboxEvent.Some? && a.tenant.Some? && a.project.Some? && a.receipt.Some? && a.acknowledgedAt.Some?
      && Compared(m, a) == WrittenFor(m, a.outboxEvent.value, Scope(a.tenant.value, a.project.value),
        a.receipt.value, a.acknowledgedAt.value)
  {
    if || a.outboxEvent.None? || a.tenant.None? || a.project.None?
       || a.gateway != Some(m.header.gateway) || a.session != Some(m.header.session)
       || a.epoch != Some(m.header.epoch) || a.generation != Some(m.header.generation)
       || a.stream != Some(m.id.stream) || a.streamEpoch != Some(m.id.streamEpoch)
       || a.position.None? || a.batch.None? || a.digest.None?
       || a.position != Some(m.id.position) || a.batch != Some(m.id.batch) || a.digest != Some(m.id.digest)
       || a.receipt.None? || a.acknowledgedAt.None? then None
    else if m.payload.integration.Some?
      && (a.integration != m.payload.integration || a.kind != Some(m.kind)) then None
    else Some(DurableAck(a.gateway.value, a.session.value, a.epoch.value, a.generation.value,
      a.stream.value, a.streamEpoch.value, a.position.value, a.batch.value, a.digest.value,
      a.receipt.value, a.acknowledgedAt.value))
  }

  /** The same for an action receipt, whose acknowledgement must also name the session's scope; its
      outbox event, Integration and kind are not compared. */
  function ControlDurableAck(m: Uplink, scope: Scope, a: PersistedAck): (r: Option<DurableAck>)
    requires m.Delivery?
    ensures r.Some? ==> AckIsFor(r.value, m)
    ensures r.Some? <==>
      && a.receipt.Some? && a.acknowledgedAt.Some?
      && a.(outboxEvent := Some(""), integration := m.payload.integration, kind := Some(m.kind))
        == WrittenFor(m, "", scope, a.receipt.value, a.acknowledgedAt.value)
  {
    if || a.acknowledgedAt.None? || a.tenant != Some(scope.tenant) || a.project != Some(scope.project)
       || a.gateway != Some(m.header.gateway) || a.session != Some(m.header.session)
       || a.epoch != Some(m.header.epoch) || a.generation != Some(m.header.generation)
       || a.stream != Some(m.id.stream) || a.streamEpoch != Some(m.id.streamEpoch)
       || a.position != Some(m.id.position) || a.batch != Some(m.id.batch) || a.digest != Some(m.id.digest)
       || a.receipt.None? then None
    else Some(PlainAck(m, a.receipt.value, a.acknowledgedAt.value))
  }

  /** The receipt proves that this delivery was committed, now or, with a current acknowledgement,
      under an earlier credential generation. */
  predicate ReceiptProves(value: Value, m: Uplink, hasAcknowledgement: bool)
    requires m.Delivery?
  {
    && (value.disposition.Persisted? || value.disposition.Replayed?)
    && value.integrationReceipt.Some?
    && var receipt := value.integrationReceipt.value;
    var historicalReplay :=
      && value.replayed && value.disposition.Replayed? && hasAcknowledgement
      && receipt.generation.Some? && 0 < receipt.generation.value < m.header.generation
      && IsUint64(receipt.generation.value);
    && m.payload.integration.Some? && m.payload.snapshotGeneration.Some?
    && receipt.kind == Some(m.kind) && receipt.tenant.Some? && receipt.project.Some?
    && receipt.gateway == Some(m.header.gateway) && receipt.integration == m.payload.integration
    && (receipt.generation == Some(m.header.generation) || historicalReplay)
    && receipt.requestMatches && receipt.snapshotGeneration == m.payload.snapshotGeneration
    && receipt.payloadDigest.Some? && |receipt.payloadDigest.value| == 64 && IsLowerHex(receipt.payloadDigest.value)
    && receipt.outboxEvent.Some? && receipt.auditEvent.Some? && receipt.outboxEvent != receipt.auditEvent
    && receipt.committedAt.Some? && 1 <= receipt.revision <= U.MAXIMUM_SAFE_INTEGER
    && (m.kind.ObservationBatch? ==> receipt.batch == m.payload.payloadBatch)
  }

  // ---------- handlers ----------

  datatype Outcome = Acknowledged | Deferred | Rejected | Discarded
  datatype Ending = Ended(outcome: Outcome) | Threw

  /** Where a handler is suspended. `Captured` places hold the record it will write back. */
  datatype Await =
    | CredentialLookup
    | SessionCommand
    | HelloRestoration(accepted: Accepted)
    | Authentication
    | UplinkRestoration(replayed: bool)
    | Dispatching(record: Record, replayed: bool)
    | BusinessCommand(record: Record)
    | CursorCommand(record: Record, value: Value)
    | Publishing(onFailure: Ending)
    | Done(ending: Ending)

  datatype Handler = Handler(message: Inbound, at: Await)

  datatype Reply =
    | CredentialReply(found: bool)
    | ChallengeReply(issued: bool)
    | SessionReply(accepted: Option<Accepted>)
    | RestorationReply(protocols: Option<set<string>>)
    | AuthenticationReply(authenticated: Option<U.Authenticated>)
    | Continue
    | BusinessReply(answer: Answer)
    | CommandThrew
    | Published(ok: bool)

  /** A durable acknowledgement handed to the publisher, with the answer it rests on. */
  datatype AckEntry = AckEntry(work: nat, uplink: Uplink, value: Value, ack: DurableAck)

  /** The scope and Gateway that a session id belongs to. */
  datatype Owner = Owner(scope: Scope, gateway: string)

  /** `owners` is what the application has told so far about the owners of session ids. */
  datatype State = State(
    sessions: Sessions, owners: map<string, Owner>, handlers: map<nat, Handler>, acks: seq<AckEntry>)

  /** What one stretch of a handler does to the shared state, and where it suspends next. */
  datatype Effect = Effect(sessions: Sessions, ack: Option<(Value, DurableAck)>, next: Await)

  function DropGateway(sessions: Sessions, scope: Scope, gateway: string): Sessions {
    map id | id in sessions && !(sessions[id].scope == scope && sessions[id].header.gateway == gateway)
      :: sessions[id]
  }

  function BindingKey(m: Uplink): StreamKey
    requires m.Delivery?
  {
    (m.id.stream, m.id.streamEpoch)
  }

  /** The delivery's stream and epoch are free, or bound to the same kind and Integration. */
  predicate BindingAllows(record: Record, m: Uplink)
    requires m.Delivery?
  {
    m.payload.integration.Some? && BindingKey(m) in record.bindings ==>
      record.bindings[BindingKey(m)] == Binding(m.kind, m.payload.integration.value)
  }

  function WithProtocols(record: Record, protocols: set<string>): Record {
    record.(protocols := protocols)
  }

  function WithBinding(record: Record, m: Uplink): Record
    requires m.Delivery?
  {
    if m.payload.integration.None? then record
    else record.(bindings := record.bindings[BindingKey(m) := Binding(m.kind, m.payload.integration.value)])
  }

  function GatewayOf(message: Inbound): Option<string> {
    match message
    case Undecodable => None
    case ChallengeRequest(gateway) => Some(gateway)
    case Hello(gateway, _, _, _) => Some(gateway)
    case Up(m) => Some(m.header.gateway)
  }

  function Ends(sessions: Sessions, outcome: Outcome): Effect {
    Effect(sessions, None, Done(Ended(outcome)))
  }

  /** From a captured record to the business command, or to an early end. `signed` tells whether
      the uplink was authenticated by its own signature, `replayed` whether as a replay. */
  function Dispatch(
      cfg: Config, sessions: Sessions, m: Uplink, record: Record, signed: bool, replayed: bool, now: nat): Effect
  {
    if m.Heartbeat? then
      Effect(sessions, None, if signed && replayed then Publishing(Threw) else BusinessCommand(record))
    else
      var expired := !signed && m.expiresAt.Some? && now >= m.expiresAt.value;
      var proceed := Effect(sessions, None, BusinessCommand(record));
      if m.kind.ActionReceipt? then
        if INTEGRATION !in record.protocols || INTEGRATION_CONTROL !in record.protocols then Ends(sessions, Rejected)
        else if expired then Ends(sessions, Discarded)
        else proceed
      else if expired then Ends(sessions, Discarded)
      else match m.kind
        case TelemetryBatch => if m.payload.samples != 1 then Ends(sessions, Discarded) else proceed
        case DataLoss => if !cfg.dataLossPort then Ends(sessions, Discarded) else proceed
        case ManifestReport => proceed
        case _ =>
          if || INTEGRATION !in record.protocols || m.payload.integration.None? || !BindingAllows(record, m)
             || !(if m.kind.TopologySnapshot? then cfg.topologyPort else cfg.observationPort)
          then Ends(sessions, Discarded)
          else proceed
  }

  /** The first stretch of handle(). */
  function Start(cfg: Config, sessions: Sessions, message: Inbound, now: nat): Effect {
    match message
    case Undecodable => Ends(sessions, Discarded)
    case ChallengeRequest(_) =>
      if cfg.gatewaySigned then Effect(sessions, None, SessionCommand) else Ends(sessions, Discarded)
    case Hello(_, _, origin, keyId) =>
      if origin.GatewaySigned? then
        if !cfg.gatewaySigned || keyId.None? then Ends(sessions, Discarded)
        else Effect(sessions, None, SessionCommand)
      else if cfg.connectorResolver then Effect(sessions, None, CredentialLookup)
      else Ends(sessions, Discarded)
    case Up(m) =>
      var id := m.header.session;
      if m.Delivery? && m.kind.ActionReceipt? && !cfg.controlEnabled then Ends(sessions, Discarded)
      else if id in sessions && sessions[id].origin.TrustedConnector? then
        if sessions[id].header != m.header then Ends(sessions, Rejected)
        else Dispatch(cfg, sessions, m, sessions[id], false, false, now)
      else if id !in sessions && !cfg.gatewaySigned then Ends(sessions, Rejected)
      else if !cfg.gatewaySigned || m.signature.None? then Ends(sessions, Discarded)
      else Effect(sessions, None, Authentication)
  }

  predicate HelloAccepted(hello: Inbound, accepted: Accepted)
    requires hello.Hello?
  {
    && accepted.header.gateway == hello.gateway && accepted.header.generation == hello.generation
    && accepted.protocolVersion == "1.0" && accepted.resumeValid
    && (hello.origin.GatewaySigned? ==>
      && accepted.keyId == hello.keyId && accepted.active && accepted.heartbeatInterval.Some?
      && 0 < accepted.heartbeatInterval.value <= MAXIMUM_UINT64)
  }

  /** Acknowledges a delivery: hands the acknowledgement to the publisher and awaits it. */
  function Acknowledge(sessions: Sessions, value: Value, ack: DurableAck): Effect {
    Effect(sessions, Some((value, ack)), Publishing(Threw))
  }

  /** After the business command of a delivery or heartbeat has answered. */
  function AfterBusiness(cfg: Config, sessions: Sessions, m: Uplink, record: Record, answer: Answer, now: nat): Effect {
    var id := record.header.session;
    match answer
    case Failed(deliveryGap) =>
      var reportsGap := m.Delivery? && (m.kind.TopologySnapshot? || m.kind.ObservationBatch? || m.kind.ActionReceipt?);
      Ends(sessions, if deliveryGap && reportsGap then Deferred else Rejected)
    case Succeeded(value) =>
      if m.Heartbeat? then Effect(sessions, None, Publishing(Threw))
      else match m.kind
        case ManifestReport =>
          if m.payload.protocols.None? then Ends(sessions, Rejected)
          else if cfg.cursorPort then Effect(sessions, None, CursorCommand(record, value))
          else Acknowledge(sessions[id := WithProtocols(record, m.payload.protocols.value)], value,
            PlainAck(m, "receipt:manifest:" + m.id.batch, now))
        case TelemetryBatch =>
          if || !value.durablyAcknowledged || value.telemetryReceipt.None?
             || value.telemetryReceipt.value.id.None? || value.telemetryReceipt.value.gap then Ends(sessions, Rejected)
          else if value.acknowledgement.Ack? then
            match PersistedDurableAck(m, value.acknowledgement.ack) {
              case None => Ends(sessions, Rejected)
              case Some(ack) => Acknowledge(sessions, value, ack)
            }
          else Acknowledge(sessions, value, PlainAck(m, "receipt:cloudlink:" + m.id.batch, now))
        case DataLoss => Acknowledge(sessions, value, PlainAck(m, "receipt:data-loss:" + m.id.batch, now))
        case ActionReceipt =>
          if || !value.controlShape || !(value.disposition.Persisted? || value.disposition.Replayed?)
             || !value.acknowledgement.Ack? then Ends(sessions, Rejected)
          else match ControlDurableAck(m, record.scope, value.acknowledgement.ack) {
            case None => Ends(sessions, Rejected)
            case Some(ack) => Acknowledge(sessions, value, ack)
          }
        case _ =>
          var ack := if value.acknowledgement.Ack? then PersistedDurableAck(m, value.acknowledgement.ack) else None;
          if !value.acknowledgement.NoAck? && ack.None? then Ends(sessions, Rejected)
          else if !ReceiptProves(value, m, ack.Some?) then Ends(sessions, Rejected)
          else
            var bound := sessions[id := WithBinding(record, m)];
            match ack
            case None => Ends(bound, Deferred)
            case Some(ack) => Acknowledge(bound, value, ack)
  }

  predicate Fits(handler: Handler, reply: Reply) {
    match handler.at
    case CredentialLookup => handler.message.Hello? && reply.CredentialReply?
    case SessionCommand =>
      || (handler.message.Hello? && (reply.SessionReply? || reply.CommandThrew?))
      || (handler.message.ChallengeRequest? && (reply.ChallengeReply? || reply.CommandThrew?))
    case HelloRestoration(_) => handler.message.Hello? && reply.RestorationReply?
    case Authentication => handler.message.Up? && reply.AuthenticationReply?
    case UplinkRestoration(_) => handler.message.Up? && reply.RestorationReply?
    case Dispatching(_, _) => handler.message.Up? && reply.Continue?
    case BusinessCommand(_) => handler.message.Up? && (reply.BusinessReply? || reply.CommandThrew?)
    case CursorCommand(_, _) =>
      && handler.message.Up? && handler.message.uplink.Delivery?
      && handler.message.uplink.payload.protocols.Some? && (reply.BusinessReply? || reply.CommandThrew?)
    case Publishing(_) => reply.Published?
    case Done(_) => false
  }

  /** The stretch of a handler from the answer to its await up to the next await. */
  function Proceed(cfg: Config, sessions: Sessions, handler: Handler, reply: Reply, now: nat): Effect
    requires Fits(handler, reply)
  {
    if reply.CommandThrew? then Effect(sessions, None, Done(Threw))
    else match handler.at
      case CredentialLookup =>
        if reply.found then Effect(sessions, None, SessionCommand) else Ends(sessions, Discarded)
      case SessionCommand =>
        if handler.message.ChallengeRequest? then
          if !reply.issued then Ends(sessions, Discarded) else Effect(sessions, None, Publishing(Ended(Deferred)))
        else if reply.accepted.None? || !HelloAccepted(handler.message, reply.accepted.value) then
          Ends(sessions, Discarded)
        else
          var a := reply.accepted.value;
          Effect(DropGateway(sessions, a.scope, a.header.gateway), None, HelloRestoration(a))
      case HelloRestoration(a) =>
        if reply.protocols.None? then Ends(sessions, Discarded)
        else
          var record := Record(a.scope, a.header, handler.message.origin, reply.protocols.value, map[]);
          Effect(sessions[a.header.session := record], None, Publishing(Ended(Deferred)))
      case Authentication =>
        var m := handler.message.uplink;
        var id := m.header.session;
        if reply.authenticated.None? || !U.BridgeAccepts(m, cfg.scope, reply.authenticated.value) then
          Ends(sessions, Discarded)
        else if id !in sessions then Effect(sessions, None, UplinkRestoration(reply.authenticated.value.replayed))
        else
          var current := sessions[id];
          if !current.origin.GatewaySigned? || current.scope != cfg.scope || current.header != m.header then
            Ends(sessions, Discarded)
          else Effect(sessions[id := current], None, Dispatching(current, reply.authenticated.value.replayed))
      case UplinkRestoration(replayed) =>
        var m := handler.message.uplink;
        if reply.protocols.None? then Ends(sessions, Discarded)
        else
          var record := Record(cfg.scope, m.header, GatewaySigned, reply.protocols.value, map[]);
          Effect(sessions[m.header.session := record], None, Dispatching(record, replayed))
      case Dispatching(record, replayed) =>
        Dispatch(cfg, sessions, handler.message.uplink, record, true, replayed, now)
      case BusinessCommand(record) =>
        AfterBusiness(cfg, sessions, handler.message.uplink, record, reply.answer, now)
      case CursorCommand(record, value) =>
        var m := handler.message.uplink;
        if reply.answer.Failed? then Ends(sessions, Rejected)
        else Acknowledge(sessions[record.header.session := WithProtocols(record, m.payload.protocols.value)], value,
          PlainAck(m, "receipt:manifest:" + m.id.batch, now))
      case Publishing(onFailure) =>
        Effect(sessions, None, Done(if reply.ok then Ended(Acknowledged) else onFailure))
  }

  /** What the application guarantees of its answers: a session id belongs to one scope and Gateway,
      whether the session was opened in this run, before it, or by another replica. */
  predicate AnswersHonestly(s: State, reply: Reply) {
    match reply
    case SessionReply(Some(a)) =>
      a.header.session in s.owners ==> s.owners[a.header.session] == Owner(a.scope, a.header.gateway)
    case AuthenticationReply(Some(a)) =>
      a.fact.header.session in s.owners ==>
        s.owners[a.fact.header.session] == Owner(a.fact.scope, a.fact.header.gateway)
    case _ => true
  }

  function OwnersAfter(s: State, reply: Reply): map<string, Owner> {
    match reply
    case SessionReply(Some(a)) => s.owners[a.header.session := Owner(a.scope, a.header.gateway)]
    case AuthenticationReply(Some(a)) => s.owners[a.fact.header.session := Owner(a.fact.scope, a.fact.header.gateway)]
    case _ => s.owners
  }

  predicate CanResume(s: State, w: nat, reply: Reply) {
    w in s.handlers && Fits(s.handlers[w], reply) && AnswersHonestly(s, reply)
  }

  function Perform(s: State, w: nat, message: Inbound, owners: map<string, Owner>, effect: Effect): State {
    State(effect.sessions, owners, s.handlers[w := Handler(message, effect.next)],
      match effect.ack
      case None => s.acks
      case Some(evidence) =>
        if message.Up? then s.acks + [AckEntry(w, message.uplink, evidence.0, evidence.1)] else s.acks)
  }

  function Begin(cfg: Config, s: State, w: nat, message: Inbound, now: nat): State {
    Perform(s, w, message, s.owners, Start(cfg, s.sessions, message, now))
  }

  function Resume(cfg: Config, s: State, w: nat, reply: Reply, now: nat): State
    requires CanResume(s, w, reply)
  {
    var handler := s.handlers[w];
    Perform(s, w, handler.message, OwnersAfter(s, reply), Proceed(cfg, s.sessions, handler, reply, now))
  }

  function Finish(s: State, w: nat): State {
    s.(handlers := s.handlers - {w})
  }

  // ---------- what a suspended handler may rely on ----------

  /** Every record is stored under its own session id, for the scope and Gateway that own it. */
  ghost predicate Owned(sessions: Sessions, owners: map<string, Owner>) {
    forall id <- sessions ::
      && sessions[id].header.session == id && id in owners
      && owners[id] == Owner(sessions[id].scope, sessions[id].header.gateway)
  }

  ghost predicate NoneOf(sessions: Sessions, scope: Scope, gateway: string) {
    forall id <- sessions :: !(sessions[id].scope == scope && sessions[id].header.gateway == gateway)
  }

  /** The captured record is the message's own and is still the one stored. */
  ghost predicate Current(sessions: Sessions, m: Uplink, record: Record) {
    record.header == m.header && m.header.session in sessions && sessions[m.header.session] == record
  }

  predicate BindsStream(m: Uplink) {
    m.Delivery? && (m.kind.TopologySnapshot? || m.kind.ObservationBatch?)
  }

  /** A business command may run: the session declares the extension that the delivery belongs to,
      its stream is free or already bound alike, and the deployment has the port it needs. */
  ghost predicate Eligible(cfg: Config, record: Record, m: Uplink) {
    m.Delivery? ==>
      match m.kind
      case ActionReceipt => INTEGRATION in record.protocols && INTEGRATION_CONTROL in record.protocols
      case TelemetryBatch => m.payload.samples == 1
      case DataLoss => cfg.dataLossPort
      case ManifestReport => true
      case _ =>
        && INTEGRATION in record.protocols && m.payload.integration.Some? && BindingAllows(record, m)
        && (if m.kind.TopologySnapshot? then cfg.topologyPort else cfg.observationPort)
  }

  ghost predicate Reliable(cfg: Config, sessions: Sessions, owners: map<string, Owner>, h: Handler) {
    match h.at
    case HelloRestoration(a) =>
      && h.message.Hello? && HelloAccepted(h.message, a)
      && a.header.session in owners && owners[a.header.session] == Owner(a.scope, a.header.gateway)
      && NoneOf(sessions, a.scope, a.header.gateway)
    case UplinkRestoration(_) =>
      && h.message.Up?
      && var id := h.message.uplink.header.session;
      id !in sessions && id in owners && owners[id] == Owner(cfg.scope, h.message.uplink.header.gateway)
    case Dispatching(record, _) => h.message.Up? && Current(sessions, h.message.uplink, record)
    case BusinessCommand(record) =>
      && h.message.Up? && Current(sessions, h.message.uplink, record)
      && Eligible(cfg, record, h.message.uplink)
    case CursorCommand(record, _) =>
      && h.message.Up? && Current(sessions, h.message.uplink, record)
      && h.message.uplink.Delivery? && h.message.uplink.kind.ManifestReport?
    case _ => true
  }

  /** No record that another Gateway owns is touched. */
  ghost predicate TouchesOnly(before: Sessions, after: Sessions, owners: map<string, Owner>, gateway: Option<string>) {
    forall id <- owners | Some(owners[id].gateway) != gateway ::
      (id in after <==> id in before) && (id in before ==> after[id] == before[id])
  }

  lemma DispatchIsReliable(
      cfg: Config, sessions: Sessions, owners: map<string, Owner>, m: Uplink, record: Record,
      signed: bool, replayed: bool, now: nat)
    ensures var e := Dispatch(cfg, sessions, m, record, signed, replayed, now);
      && e.sessions == sessions && e.ack.None?
      && (e.next.Done? || e.next.Publishing? || e.next == BusinessCommand(record))
      && (e.next.Publishing? ==> m.Heartbeat?) && e.next != Done(Ended(Acknowledged))
      && (Current(sessions, m, record) ==> Reliable(cfg, sessions, owners, Handler(Up(m), e.next)))
  {
  }

  lemma StartIsReliable(cfg: Config, sessions: Sessions, owners: map<string, Owner>, message: Inbound, now: nat)
    requires Owned(sessions, owners)
    ensures var e := Start(cfg, sessions, message, now);
      e.sessions == sessions && e.ack.None? && Reliable(cfg, sessions, owners, Handler(message, e.next))
  {
    if message.Up? && message.uplink.header.session in sessions {
      var record := sessions[message.uplink.header.session];
      DispatchIsReliable(cfg, sessions, owners, message.uplink, record, false, false, now);
    }
  }

  lemma DropGatewayOwned(sessions: Sessions, owners: map<string, Owner>, scope: Scope, gateway: string)
    requires Owned(sessions, owners)
    ensures var after := DropGateway(sessions, scope, gateway);
      && Owned(after, owners) && NoneOf(after, scope, gateway)
      && TouchesOnly(sessions, after, owners, Some(gateway))
  {
  }

  /** A business answer changes at most one record, and only its protocols or its bindings. */
  lemma AfterBusinessShape(cfg: Config, sessions: Sessions, m: Uplink, record: Record, answer: Answer, now: nat)
    ensures var e := AfterBusiness(cfg, sessions, m, record, answer, now);
      var id := record.header.session;
      && (|| e.sessions == sessions
          || (m.Delivery? && m.kind.ManifestReport? && m.payload.protocols.Some?
            && e.sessions == sessions[id := WithProtocols(record, m.payload.protocols.value)])
          || (BindsStream(m) && e.sessions == sessions[id := WithBinding(record, m)]))
      && (e.next.Publishing? || e.next.Done? || 
        (m.Delivery? && m.kind.ManifestReport? && e.next.CursorCommand? && e.next.record == record
          && e.sessions == sessions))
  {
  }

  lemma WriteBackOwned(sessions: Sessions, owners: map<string, Owner>, m: Uplink, record: Record, updated: Record)
    requires Owned(sessions, owners) && Current(sessions, m, record)
    requires updated.header == record.header && updated.scope == record.scope
    ensures var after := sessions[record.header.session := updated];
      Owned(after, owners) && TouchesOnly(sessions, after, owners, Some(m.header.gateway))
  {
  }

  lemma InsertOwned(sessions: Sessions, owners: map<string, Owner>, record: Record)
    requires Owned(sessions, owners) && record.header.session in owners
    requires owners[record.header.session] == Owner(record.scope, record.header.gateway)
    ensures var after := sessions[record.header.session := record];
      Owned(after, owners) && TouchesOnly(sessions, after, owners, Some(record.header.gateway))
  {
  }

  lemma BusinessIsReliable(
      cfg: Config, sessions: Sessions, owners: map<string, Owner>, m: Uplink, record: Record, answer: Answer, now: nat)
    requires Owned(sessions, owners) && Current(sessions, m, record)
    ensures var e := AfterBusiness(cfg, sessions, m, record, answer, now);
      && Owned(e.sessions, owners) && Reliable(cfg, e.sessions, owners, Handler(Up(m), e.next))
      && TouchesOnly(sessions, e.sessions, owners, Some(m.header.gateway))
  {
    AfterBusinessShape(cfg, sessions, m, record, answer, now);
    if m.Delivery? {
      WriteBackOwned(sessions, owners, m, record, WithBinding(record, m));
      if m.payload.protocols.Some? {
        WriteBackOwned(sessions, owners, m, record, WithProtocols(record, m.payload.protocols.value));
      }
    }
  }

  lemma HelloStretchIsReliable(
      cfg: Config, sessions: Sessions, owners: map<string, Owner>, h: Handler, reply: Reply, now: nat)
    requires Fits(h, reply) && Owned(sessions, owners) && Reliable(cfg, sessions, owners, h)
    requires OpensSession(h.at)
    requires reply.SessionReply? && reply.accepted.Some? ==>
      var a := reply.accepted.value;
      a.header.session in owners && owners[a.header.session] == Owner(a.scope, a.header.gateway)
    ensures var e := Proceed(cfg, sessions, h, reply, now);
      && Owned(e.sessions, owners) && Reliable(cfg, e.sessions, owners, Handler(h.message, e.next))
      && TouchesOnly(sessions, e.sessions, owners, GatewayOf(h.message))
  {
    if h.at.SessionCommand? && reply.SessionReply? && h.message.Hello? && reply.accepted.Some? {
      DropGatewayOwned(sessions, owners, reply.accepted.value.scope, reply.accepted.value.header.gateway);
    } else if h.at.HelloRestoration? && reply.protocols.Some? {
      InsertOwned(sessions, owners,
        Record(h.at.accepted.scope, h.at.accepted.header, h.message.origin, reply.protocols.value, map[]));
    }
  }

  lemma UplinkStretchIsReliable(
      cfg: Config, sessions: Sessions, owners: map<string, Owner>, h: Handler, reply: Reply, now: nat)
    requires Fits(h, reply) && Owned(sessions, owners) && Reliable(cfg, sessions, owners, h)
    requires h.message.Up? && !reply.CommandThrew?
    requires reply.AuthenticationReply? && reply.authenticated.Some? ==>
      var fact := reply.authenticated.value.fact;
      fact.header.session in owners && owners[fact.header.session] == Owner(fact.scope, fact.header.gateway)
    ensures var e := Proceed(cfg, sessions, h, reply, now);
      && Owned(e.sessions, owners) && Reliable(cfg, e.sessions, owners, Handler(h.message, e.next))
      && TouchesOnly(sessions, e.sessions, owners, GatewayOf(h.message))
  {
    var m := h.message.uplink;
    match h.at
    case Authentication =>
      if m.header.session in sessions {
        assert sessions[m.header.session := sessions[m.header.session]] == sessions;
      }
    case UplinkRestoration(_) =>
      if reply.protocols.Some? {
        InsertOwned(sessions, owners, Record(cfg.scope, m.header, GatewaySigned, reply.protocols.value, map[]));
      }
    case BusinessCommand(record) => BusinessIsReliable(cfg, sessions, owners, m, record, reply.answer, now);
    case Dispatching(record, replayed) => DispatchIsReliable(cfg, sessions, owners, m, record, true, replayed, now);
    case CursorCommand(record, _) =>
      WriteBackOwned(sessions, owners, m, record, WithProtocols(record, m.payload.protocols.value));
    case _ =>
  }

  /** A stretch keeps the map owned, touches only its own Gateway's records, and suspends where
      what it captured is current. */
  lemma ProceedIsReliable(cfg: Config, s: State, w: nat, reply: Reply, now: nat)
    requires CanResume(s, w, reply) && Owned(s.sessions, s.owners)
    requires Reliable(cfg, s.sessions, s.owners, s.handlers[w])
    ensures var t := Resume(cfg, s, w, reply, now);
      && Owned(t.sessions, t.owners) && Reliable(cfg, t.sessions, t.owners, t.handlers[w])
      && TouchesOnly(s.sessions, t.sessions, t.owners, GatewayOf(s.handlers[w].message))
      && s.owners.Keys <= t.owners.Keys && (forall id <- s.owners :: t.owners[id] == s.owners[id])
  {
    var h := s.handlers[w];
    var owners := OwnersAfter(s, reply);
    assert Owned(s.sessions, owners);
    assert Reliable(cfg, s.sessions, owners, h);
    if OpensSession(h.at) {
      HelloStretchIsReliable(cfg, s.sessions, owners, h, reply, now);
    } else if h.message.Up? && !reply.CommandThrew? {
      UplinkStretchIsReliable(cfg, s.sessions, owners, h, reply, now);
    }
  }

  // ---------- how the session map evolves ----------

  function Lookup(sessions: Sessions, id: string): Option<Record> {
    if id in sessions then Some(sessions[id]) else None
  }

  predicate Captures(at: Await) {
    at.Dispatching? || at.BusinessCommand? || at.CursorCommand?
  }

  /** All that a stretch of h may do to one entry of the map: a hello removes records of its own
      Gateway, a restoration fills an absent entry without bindings, a report rewrites the entry
      it captured, and only its protocols or one binding that was free or already the same. */
  ghost predicate Evolves(cfg: Config, h: Handler, before: Option<Record>, after: Option<Record>) {
    || after == before
    || (before.Some? && after.None? && h.message.Hello? && h.at.SessionCommand?
      && before.value.header.gateway == h.message.gateway)
    || (before.None? && after.Some? && h.at.HelloRestoration? && h.message.Hello?
      && HelloAccepted(h.message, h.at.accepted)
      && var a := h.at.accepted;
      after.value == Record(a.scope, a.header, h.message.origin, after.value.protocols, map[]))
    || (before.None? && after.Some? && h.at.UplinkRestoration? && h.message.Up?
      && after.value == Record(cfg.scope, h.message.uplink.header, GatewaySigned, after.value.protocols, map[]))
    || (before.Some? && after.Some? && Captures(h.at) && before.value == h.at.record
      && h.message.Up? && h.message.uplink.Delivery? && h.message.uplink.header == before.value.header
      && var m := h.message.uplink;
      || (m.kind.ManifestReport? && m.payload.protocols.Some?
        && after.value == WithProtocols(before.value, m.payload.protocols.value))
      || (BindsStream(m) && BindingAllows(before.value, m) && after.value == WithBinding(before.value, m)))
  }

  lemma BusinessEvolves(
      cfg: Config, sessions: Sessions, owners: map<string, Owner>, h: Handler, answer: Answer, now: nat, id: string)
    requires h.at.BusinessCommand? && Reliable(cfg, sessions, owners, h)
    ensures Evolves(cfg, h, Lookup(sessions, id),
      Lookup(AfterBusiness(cfg, sessions, h.message.uplink, h.at.record, answer, now).sessions, id))
  {
    AfterBusinessShape(cfg, sessions, h.message.uplink, h.at.record, answer, now);
  }

  lemma StretchEvolves(cfg: Config, s: State, w: nat, reply: Reply, now: nat, id: string)
    requires CanResume(s, w, reply) && Owned(s.sessions, s.owners)
    requires Reliable(cfg, s.sessions, s.owners, s.handlers[w])
    ensures Evolves(cfg, s.handlers[w], Lookup(s.sessions, id), Lookup(Resume(cfg, s, w, reply, now).sessions, id))
  {
    var h := s.handlers[w];
    if h.at.BusinessCommand? && !reply.CommandThrew? {
      BusinessEvolves(cfg, s.sessions, s.owners, h, reply.answer, now, id);
    }
  }

  /** The stored session ids of a scope's Gateway. */
  function RecordsOf(sessions: Sessions, scope: Scope, gateway: string): set<string> {
    set id | id in sessions && sessions[id].scope == scope && sessions[id].header.gateway == gateway
  }

  lemma RestorationLeavesOneRecord(cfg: Config, s: State, w: nat, protocols: set<string>, now: nat)
    requires w in s.handlers && s.handlers[w].message.Hello? && s.handlers[w].at.HelloRestoration?
    requires Reliable(cfg, s.sessions, s.owners, s.handlers[w])
    ensures var a := s.handlers[w].at.accepted;
      var t := Resume(cfg, s, w, RestorationReply(Some(protocols)), now);
      && RecordsOf(t.sessions, a.scope, a.header.gateway) == {a.header.session}
      && t.sessions[a.header.session] == Record(a.scope, a.header, s.handlers[w].message.origin, protocols, map[])
  {
  }

  /** A step restores the session of an authenticated uplink of the scope's Gateway. */
  predicate RestoresUplink(cfg: Config, s: State, w: nat, reply: Reply, scope: Scope, gateway: string) {
    && CanResume(s, w, reply) && s.handlers[w].at.UplinkRestoration? && reply.protocols.Some?
    && scope == cfg.scope && gateway == s.handlers[w].message.uplink.header.gateway
  }

  predicate OpensSession(at: Await) {
    at.CredentialLookup? || at.SessionCommand? || at.HelloRestoration?
  }

  lemma HelloRecordsEvolve(
      cfg: Config, sessions: Sessions, owners: map<string, Owner>, h: Handler, reply: Reply, now: nat,
      scope: Scope, gateway: string)
    requires Fits(h, reply) && OpensSession(h.at) && Owned(sessions, owners) && Reliable(cfg, sessions, owners, h)
    ensures var before, after := RecordsOf(sessions, scope, gateway),
      RecordsOf(Proceed(cfg, sessions, h, reply, now).sessions, scope, gateway);
      || after == before || after == {}
      || (h.at.HelloRestoration? && before == {} && after == {h.at.accepted.header.session})
  {
    if h.at.SessionCommand? && reply.SessionReply? && reply.accepted.Some? {
      DropGatewayRecords(sessions, reply.accepted.value.scope, reply.accepted.value.header.gateway, scope, gateway);
    } else if h.at.HelloRestoration? && reply.protocols.Some? {
      StoreRecords(sessions,
        Record(h.at.accepted.scope, h.at.accepted.header, h.message.origin, reply.protocols.value, map[]),
        scope, gateway);
    }
  }

  lemma UplinkRecordsEvolve(
      cfg: Config, sessions: Sessions, owners: map<string, Owner>, h: Handler, reply: Reply, now: nat,
      scope: Scope, gateway: string)
    requires Fits(h, reply) && !OpensSession(h.at) && Owned(sessions, owners) && Reliable(cfg, sessions, owners, h)
    ensures var before, after := RecordsOf(sessions, scope, gateway),
      RecordsOf(Proceed(cfg, sessions, h, reply, now).sessions, scope, gateway);
      if h.at.UplinkRestoration? && reply.protocols.Some? && scope == cfg.scope
        && gateway == h.message.uplink.header.gateway then
        h.message.uplink.header.session !in before && after == before + {h.message.uplink.header.session}
      else after == before
  {
    if h.at.BusinessCommand? && !reply.CommandThrew? {
      BusinessKeepsRecords(cfg, sessions, owners, h, reply.answer, now, scope, gateway);
    } else if h.at.UplinkRestoration? && reply.protocols.Some? {
      StoreRecords(sessions,
        Record(cfg.scope, h.message.uplink.header, GatewaySigned, reply.protocols.value, map[]), scope, gateway);
    } else if h.at.CursorCommand? && !reply.CommandThrew? {
      StoreRecords(sessions, WithProtocols(h.at.record, h.message.uplink.payload.protocols.value), scope, gateway);
    }
  }

  /** How the set of a Gateway's stored sessions changes: a hello empties it and then opens one,
      an uplink of a session that is not cached adds that session. */
  lemma RecordsEvolve(cfg: Config, s: State, w: nat, reply: Reply, now: nat, scope: Scope, gateway: string)
    requires CanResume(s, w, reply) && Owned(s.sessions, s.owners)
    requires Reliable(cfg, s.sessions, s.owners, s.handlers[w])
    ensures var before, after := RecordsOf(s.sessions, scope, gateway),
      RecordsOf(Resume(cfg, s, w, reply, now).sessions, scope, gateway);
      var h := s.handlers[w];
      if RestoresUplink(cfg, s, w, reply, scope, gateway) then
        h.message.uplink.header.session !in before && after == before + {h.message.uplink.header.session}
      else
        || after == before || after == {}
        || (h.at.HelloRestoration? && before == {} && after == {h.at.accepted.header.session})
  {
    if OpensSession(s.handlers[w].at) {
      HelloRecordsEvolve(cfg, s.sessions, s.owners, s.handlers[w], reply, now, scope, gateway);
    } else {
      UplinkRecordsEvolve(cfg, s.sessions, s.owners, s.handlers[w], reply, now, scope, gateway);
    }
  }

  /** Storing a record for a session that is absent, or was stored for the same owner. */
  lemma StoreRecords(sessions: Sessions, record: Record, scope: Scope, gateway: string)
    ensures var id := record.header.session;
      (id in sessions ==>
        sessions[id].scope == record.scope && sessions[id].header.gateway == record.header.gateway) ==>
      RecordsOf(sessions[id := record], scope, gateway) == RecordsOf(sessions, scope, gateway)
        + (if record.scope == scope && record.header.gateway == gateway then {id} else {})
  {
  }

  lemma DropGatewayRecords(sessions: Sessions, dropped: Scope, of: string, scope: Scope, gateway: string)
    ensures RecordsOf(DropGateway(sessions, dropped, of), scope, gateway)
      == if (dropped, of) == (scope, gateway) then {} else RecordsOf(sessions, scope, gateway)
  {
  }

  lemma BusinessKeepsRecords(
      cfg: Config, sessions: Sessions, owners: map<string, Owner>, h: Handler, answer: Answer, now: nat,
      scope: Scope, gateway: string)
    requires h.at.BusinessCommand? && Reliable(cfg, sessions, owners, h)
    ensures RecordsOf(AfterBusiness(cfg, sessions, h.message.uplink, h.at.record, answer, now).sessions, scope, gateway)
      == RecordsOf(sessions, scope, gateway)
  {
    AfterBusinessShape(cfg, sessions, h.message.uplink, h.at.record, answer, now);
  }

  // ---------- what goes wrong without the queue ----------

  /** A handler about to record a stream binding: its business command may answer `value`. */
  ghost predicate AboutToBind(s: State, w: nat, value: Value) {
    && w in s.handlers && s.handlers[w].at.BusinessCommand? && s.handlers[w].message.Up?
    && BindsStream(s.handlers[w].message.uplink) && s.handlers[w].message.uplink.payload.integration.Some?
    && value.acknowledgement.NoAck? && ReceiptProves(value, s.handlers[w].message.uplink, false)
  }

  lemma BindingIsWritten(cfg: Config, s: State, w: nat, value: Value, now: nat)
    requires AboutToBind(s, w, value)
    ensures var record := s.handlers[w].at.record;
      var t := Resume(cfg, s, w, BusinessReply(Succeeded(value)), now);
      && t.sessions == s.sessions[record.header.session := WithBinding(record, s.handlers[w].message.uplink)]
      && t.handlers == s.handlers[w := Handler(s.handlers[w].message, Done(Ended(Deferred)))]
  {
  }

  /** Two handlers that captured the same record lose the first one's binding. */
  lemma OverlapLosesBinding(cfg: Config, s: State, v: nat, first: Value, w: nat, second: Value, now: nat)
    requires v != w && AboutToBind(s, v, first) && AboutToBind(s, w, second)
    requires s.handlers[v].at.record == s.handlers[w].at.record
    requires BindingKey(s.handlers[v].message.uplink) !in s.handlers[v].at.record.bindings
    requires BindingKey(s.handlers[v].message.uplink) != BindingKey(s.handlers[w].message.uplink)
    ensures var id := s.handlers[v].at.record.header.session;
      var key := BindingKey(s.handlers[v].message.uplink);
      var bound := Resume(cfg, s, v, BusinessReply(Succeeded(first)), now);
      var lost := Resume(cfg, bound, w, BusinessReply(Succeeded(second)), now);
      && id in bound.sessions && key in bound.sessions[id].bindings
      && id in lost.sessions && key !in lost.sessions[id].bindings
  {
    BindingIsWritten(cfg, s, v, first, now);
    BindingIsWritten(cfg, Resume(cfg, s, v, BusinessReply(Succeeded(first)), now), w, second, now);
  }

  /** A handler that overlaps an accepted hello of its own Gateway puts the removed record back. */
  lemma OverlapRevivesRecord(cfg: Config, s: State, v: nat, value: Value, w: nat, accepted: Accepted, now: nat)
    requires v != w && AboutToBind(s, v, value)
    requires CanResume(s, w, SessionReply(Some(accepted)))
    requires s.handlers[w].message.Hello? && HelloAccepted(s.handlers[w].message, accepted)
    requires s.handlers[v].at.record.scope == accepted.scope
    requires s.handlers[v].at.record.header.gateway == accepted.header.gateway
    requires Lookup(s.sessions, s.handlers[v].at.record.header.session) == Some(s.handlers[v].at.record)
    ensures var id := s.handlers[v].at.record.header.session;
      var dropped := Resume(cfg, s, w, SessionReply(Some(accepted)), now);
      id !in dropped.sessions && id in Resume(cfg, dropped, v, BusinessReply(Succeeded(value)), now).sessions
  {
    BindingIsWritten(cfg, Resume(cfg, s, w, SessionReply(Some(accepted)), now), v, value, now);
  }

  /** A handler of another Gateway keeps what it relies on. */
  lemma ReliableFramed(
      cfg: Config, before: Sessions, after: Sessions, owners: map<string, Owner>, later: map<string, Owner>,
      gateway: Option<string>, h: Handler)
    requires Owned(before, owners) && Owned(after, later)
    requires owners.Keys <= later.Keys && forall id <- owners :: later[id] == owners[id]
    requires TouchesOnly(before, after, later, gateway)
    requires Reliable(cfg, before, owners, h) && (GatewayOf(h.message).None? || GatewayOf(h.message) != gateway)
    ensures Reliable(cfg, after, later, h)
  {
  }

  // ---------- what is authenticated ----------

  /** The handler works for a Gateway-signed session, so its message must have been verified. */
  predicate NeedsProof(h: Handler) {
    h.at.UplinkRestoration? || (Captures(h.at) && h.at.record.origin.GatewaySigned?)
  }

  /** The reply verifies the uplink's own signature for the session and delivery it names. */
  predicate Verifies(cfg: Config, message: Inbound, reply: Reply) {
    && message.Up? && reply.AuthenticationReply? && reply.authenticated.Some?
    && U.BridgeAccepts(message.uplink, cfg.scope, reply.authenticated.value)
  }

  /** Nothing starts to work for a Gateway-signed session but by a verification of its message. */
  lemma ProofComesFirst(cfg: Config, sessions: Sessions, h: Handler, reply: Reply, now: nat)
    requires Fits(h, reply)
    ensures NeedsProof(Handler(h.message, Proceed(cfg, sessions, h, reply, now).next)) ==>
      NeedsProof(h) || (h.at.Authentication? && Verifies(cfg, h.message, reply))
  {
    if h.at.BusinessCommand? && reply.BusinessReply? {
      AfterBusinessShape(cfg, sessions, h.message.uplink, h.at.record, reply.answer, now);
    } else if h.at.Dispatching? && !reply.CommandThrew? {
      DispatchIsReliable(cfg, sessions, map[], h.message.uplink, h.at.record, true, h.at.replayed, now);
    }
  }

  lemma StartNeedsNoProof(cfg: Config, sessions: Sessions, message: Inbound, now: nat)
    ensures !NeedsProof(Handler(message, Start(cfg, sessions, message, now).next))
  {
  }

  /** What reaches a business command without authentication is an unexpired message of a cached
      trusted-connector session with the very same identity. */
  lemma UnauthenticatedIsConnectorAndFresh(cfg: Config, sessions: Sessions, message: Inbound, now: nat)
    requires Start(cfg, sessions, message, now).next.BusinessCommand?
    ensures message.Up? && message.uplink.header.session in sessions
    ensures var m := message.uplink;
      var record := sessions[m.header.session];
      && Start(cfg, sessions, message, now).next.record == record
      && record.origin.TrustedConnector? && record.header == m.header
      && (m.Delivery? && m.expiresAt.Some? ==> now < m.expiresAt.value)
      && (m.Delivery? && m.kind.ActionReceipt? ==> cfg.controlEnabled)
  {
  }

  // ---------- what earns a durable acknowledgement ----------

  /** The answer an acknowledgement rests on: for telemetry durable and without a gap, for an
      Integration delivery a matching receipt, for an action receipt a recorded one. */
  predicate Earned(m: Uplink, value: Value) {
    && m.Delivery?
    && (m.kind.TelemetryBatch? ==>
      && value.durablyAcknowledged && value.telemetryReceipt.Some?
      && value.telemetryReceipt.value.id.Some? && !value.telemetryReceipt.value.gap)
    && (BindsStream(m) ==> value.acknowledgement.Ack? && ReceiptProves(value, m, true))
    && (m.kind.ActionReceipt? ==> value.acknowledgement.Ack? && !value.disposition.OtherDisposition?)
  }

  /** The acknowledgement's receipt and time are the persisted ones where there is a persisted
      acknowledgement to use, and otherwise the receipt is named after the batch. */
  predicate ReceiptIsFrom(ack: DurableAck, m: Uplink, value: Value)
    requires m.Delivery?
  {
    match m.kind
    case ManifestReport => ack.receipt == "receipt:manifest:" + m.id.batch
    case DataLoss => ack.receipt == "receipt:data-loss:" + m.id.batch
    case TelemetryBatch =>
      if value.acknowledgement.Ack? then FromPersisted(ack, value.acknowledgement.ack)
      else ack.receipt == "receipt:cloudlink:" + m.id.batch
    case _ => value.acknowledgement.Ack? && FromPersisted(ack, value.acknowledgement.ack)
  }

  predicate FromPersisted(ack: DurableAck, a: PersistedAck) {
    a.receipt == Some(ack.receipt) && a.acknowledgedAt == Some(ack.acknowledgedAt)
  }

  /** Everything that makes an acknowledgement right for a delivery and the answer to it. */
  predicate Rightful(ack: DurableAck, m: Uplink, value: Value) {
    AckIsFor(ack, m) && Earned(m, value) && ReceiptIsFrom(ack, m, value)
  }

  predicate AwaitsBusiness(at: Await) {
    at.BusinessCommand? || at.CursorCommand?
  }

  lemma BusinessReceiptIsFrom(cfg: Config, sessions: Sessions, m: Uplink, record: Record, answer: Answer, now: nat)
    ensures var e := AfterBusiness(cfg, sessions, m, record, answer, now);
      e.ack.Some? ==> answer.Succeeded? && AckIsFor(e.ack.value.1, m) && ReceiptIsFrom(e.ack.value.1, m, answer.value)
  {
  }

  lemma BusinessAcknowledgesEarned(cfg: Config, sessions: Sessions, m: Uplink, record: Record, answer: Answer, now: nat)
    ensures var e := AfterBusiness(cfg, sessions, m, record, answer, now);
      && (e.ack.Some? ==>
        answer.Succeeded? && e.ack.value.0 == answer.value && Earned(m, answer.value) && e.next == Publishing(Threw))
      && (m.Delivery? && e.next.Publishing? ==> e.ack.Some?)
      && e.next != Done(Ended(Acknowledged))
      && (e.next.CursorCommand? ==> Earned(m, e.next.value) && m.kind.ManifestReport?)
  {
  }

  /** An acknowledgement leaves only on the successful answer of a business command, for the very
      message being handled; a delivery suspends in publication only then. */
  lemma AcknowledgesOnlyEarned(cfg: Config, sessions: Sessions, h: Handler, reply: Reply, now: nat)
    requires Fits(h, reply)
    requires h.at.CursorCommand? ==> Earned(h.message.uplink, h.at.value) && h.message.uplink.kind.ManifestReport?
    ensures var e := Proceed(cfg, sessions, h, reply, now);
      && (e.ack.Some? ==>
        && h.message.Up? && AwaitsBusiness(h.at) && reply.BusinessReply? && reply.answer.Succeeded?
        && e.ack.value.0 == (if h.at.CursorCommand? then h.at.value else reply.answer.value)
        && Rightful(e.ack.value.1, h.message.uplink, e.ack.value.0)
        && e.next == Publishing(Threw))
      && (h.message.Up? && h.message.uplink.Delivery? && e.next.Publishing? ==> e.ack.Some?)
      && (e.next == Done(Ended(Acknowledged)) ==> h.at.Publishing?)
      && (h.at == Publishing(Threw) ==> e.next == Done(Ended(Acknowledged)) || e.next == Done(Threw))
      && (e.next.CursorCommand? ==> Earned(h.message.uplink, e.next.value) && h.message.uplink.kind.ManifestReport?)
  {
    if h.at.BusinessCommand? && reply.BusinessReply? {
      BusinessAcknowledgesEarned(cfg, sessions, h.message.uplink, h.at.record, reply.answer, now);
      BusinessReceiptIsFrom(cfg, sessions, h.message.uplink, h.at.record, reply.answer, now);
    } else if h.at.Dispatching? && !reply.CommandThrew? {
      DispatchIsReliable(cfg, sessions, map[], h.message.uplink, h.at.record, true, h.at.replayed, now);
    }
  }

  lemma CursorIsForUplinks(cfg: Config, sessions: Sessions, h: Handler, reply: Reply, now: nat)
    requires Fits(h, reply)
    ensures Proceed(cfg, sessions, h, reply, now).next.CursorCommand? ==> h.message.Up?
  {
  }

  lemma StartAcknowledgesNothing(cfg: Config, sessions: Sessions, message: Inbound, now: nat)
    ensures var e := Start(cfg, sessions, message, now);
      && e.ack.None? && e.next != Done(Ended(Acknowledged)) && !e.next.CursorCommand?
      && (e.next.Publishing? ==> !(message.Up? && message.uplink.Delivery?))
  {
  }

  /** A cursor command is awaited only with the value its own business command has just answered. */
  lemma CursorCarriesAnswer(cfg: Config, sessions: Sessions, h: Handler, reply: Reply, now: nat)
    requires Fits(h, reply)
    ensures var next := Proceed(cfg, sessions, h, reply, now).next;
      next.CursorCommand? ==> h.at.BusinessCommand? && reply == BusinessReply(Succeeded(next.value))
  {
  }

  // ---------- progress ----------

  /** A handler waits only for what its own kind of message can wait for. */
  predicate Shaped(h: Handler) {
    match h.at
    case CredentialLookup | HelloRestoration(_) => h.message.Hello?
    case SessionCommand => h.message.Hello? || h.message.ChallengeRequest?
    case CursorCommand(_, _) =>
      h.message.Up? && h.message.uplink.Delivery? && h.message.uplink.payload.protocols.Some?
    case Publishing(_) | Done(_) => true
    case _ => h.message.Up?
  }

  /** The awaits that a handler may still go through. */
  function Remaining(at: Await): nat {
    match at
    case CredentialLookup | Authentication => 6
    case SessionCommand | UplinkRestoration(_) => 5
    case HelloRestoration(_) | Dispatching(_, _) => 4
    case BusinessCommand(_) => 3
    case CursorCommand(_, _) => 2
    case Publishing(_) => 1
    case Done(_) => 0
  }

  lemma StartIsShaped(cfg: Config, sessions: Sessions, message: Inbound, now: nat)
    ensures Shaped(Handler(message, Start(cfg, sessions, message, now).next))
  {
  }

  lemma BusinessEnds(cfg: Config, sessions: Sessions, m: Uplink, record: Record, answer: Answer, now: nat)
    ensures var next := AfterBusiness(cfg, sessions, m, record, answer, now).next;
      || next.Publishing? || next.Done?
      || (next.CursorCommand? && Shaped(Handler(Up(m), next)))
  {
  }

  lemma ProceedIsShaped(cfg: Config, sessions: Sessions, h: Handler, reply: Reply, now: nat)
    requires Fits(h, reply) && Shaped(h)
    ensures var next := Proceed(cfg, sessions, h, reply, now).next;
      Shaped(Handler(h.message, next)) && Remaining(next) < Remaining(h.at)
  {
    if h.at.BusinessCommand? && reply.BusinessReply? {
      BusinessEnds(cfg, sessions, h.message.uplink, h.at.record, reply.answer, now);
    } else if h.at.Dispatching? && !reply.CommandThrew? {
      DispatchIsReliable(cfg, sessions, map[], h.message.uplink, h.at.record, true, h.at.replayed, now);
    }
  }

  /** A reply that is always possible: a refusal, or that publication failed. */
  function SomeReply(h: Handler): Reply {
    match h.at
    case CredentialLookup => CredentialReply(false)
    case SessionCommand | BusinessCommand(_) | CursorCommand(_, _) => CommandThrew
    case HelloRestoration(_) | UplinkRestoration(_) => RestorationReply(None)
    case Authentication => AuthenticationReply(None)
    case Dispatching(_, _) => Continue
    case Publishing(_) | Done(_) => Published(false)
  }

  lemma SomeReplyFits(s: State, w: nat)
    requires w in s.handlers && Shaped(s.handlers[w]) && !s.handlers[w].at.Done?
    ensures CanResume(s, w, SomeReply(s.handlers[w]))
  {
  }

  // ---------- the running bridge ----------

  /** The bridge with its session map. Each method is the stretch of a handler after one await
      and has exactly the effect that `Proceed` gives it. */
  class ApplicationBridge {
    const cfg: Config
    var sessions: Sessions

    constructor (cfg: Config)
      ensures this.cfg == cfg && sessions == map[]
    {
      this.cfg := cfg;
      sessions := map[];
    }

    /** Removes every record of the scope's Gateway, visiting the entries in any order. */
    method RemoveSessionsOf(scope: Scope, gateway: string)
      modifies this
      ensures sessions == DropGateway(old(sessions), scope, gateway)
    {
      var pending := sessions.Keys;
      while pending != {}
        invariant pending <= old(sessions.Keys)
        invariant sessions.Keys <= old(sessions.Keys) && forall id <- sessions :: sessions[id] == old(sessions)[id]
        invariant forall id <- old(sessions) :: id in sessions <==>
          id in pending || !(old(sessions)[id].scope == scope && old(sessions)[id].header.gateway == gateway)
        decreases |pending|
      {
        var id :| id in pending;
        if sessions[id].scope == scope && sessions[id].header.gateway == gateway {
          sessions := sessions - {id};
        }
        pending := pending - {id};
      }
    }

    /** Both session-open paths, up to the restoration of the declared protocols. */
    method AcceptSession(hello: Inbound, accepted: Option<Accepted>, now: nat) returns (next: Await)
      requires hello.Hello?
      modifies this
      ensures Effect(sessions, None, next)
        == Proceed(cfg, old(sessions), Handler(hello, SessionCommand), SessionReply(accepted), now)
    {
      if accepted.None? || !HelloAccepted(hello, accepted.value) { return Done(Ended(Discarded)); }
      RemoveSessionsOf(accepted.value.scope, accepted.value.header.gateway);
      next := HelloRestoration(accepted.value);
    }

    /** The restored session becomes the assertion of its Gateway. */
    method OpenSession(hello: Inbound, a: Accepted, protocols: Option<set<string>>, now: nat) returns (next: Await)
      requires hello.Hello?
      modifies this
      ensures Effect(sessions, None, next)
        == Proceed(cfg, old(sessions), Handler(hello, HelloRestoration(a)), RestorationReply(protocols), now)
    {
      if protocols.None? { return Done(Ended(Discarded)); }
      sessions := sessions[a.header.session := Record(a.scope, a.header, hello.origin, protocols.value, map[])];
      next := Publishing(Ended(Deferred));
    }

    /** A verified Gateway-signed uplink finds its session, or asks for its restoration. */
    method Authenticated(m: Uplink, authenticated: Option<U.Authenticated>, now: nat) returns (next: Await)
      modifies this
      ensures Effect(sessions, None, next)
        == Proceed(cfg, old(sessions), Handler(Up(m), Authentication), AuthenticationReply(authenticated), now)
    {
      if authenticated.None? || !U.BridgeAccepts(m, cfg.scope, authenticated.value) { return Done(Ended(Discarded)); }
      var id := m.header.session;
      if id !in sessions { return UplinkRestoration(authenticated.value.replayed); }
      var current := sessions[id];
      if !current.origin.GatewaySigned? || current.scope != cfg.scope || current.header != m.header {
        return Done(Ended(Discarded));
      }
      sessions := sessions[id := current];
      next := Dispatching(current, authenticated.value.replayed);
    }

    /** The restored session of an authenticated uplink. */
    method RestoreSession(m: Uplink, replayed: bool, protocols: Option<set<string>>, now: nat) returns (next: Await)
      modifies this
      ensures Effect(sessions, None, next)
        == Proceed(cfg, old(sessions), Handler(Up(m), UplinkRestoration(replayed)), RestorationReply(protocols), now)
    {
      if protocols.None? { return Done(Ended(Discarded)); }
      var record := Record(cfg.scope, m.header, GatewaySigned, protocols.value, map[]);
      sessions := sessions[m.header.session := record];
      next := Dispatching(record, replayed);
    }

    /** The answer to a manifest report: a refusal, the cursor command, or the acknowledgement. */
    method ManifestReported(m: Uplink, record: Record, answer: Answer, now: nat)
        returns (ack: Option<(Value, DurableAck)>, next: Await)
      requires m.Delivery? && m.kind.ManifestReport?
      modifies this
      ensures Effect(sessions, ack, next)
        == Proceed(cfg, old(sessions), Handler(Up(m), BusinessCommand(record)), BusinessReply(answer), now)
    {
      if answer.Failed? || m.payload.protocols.None? { return None, Done(Ended(Rejected)); }
      if cfg.cursorPort { return None, CursorCommand(record, answer.value); }
      ack, next := StoreManifest(m, record, answer.value, now);
    }

    /** The answer to the cursor command of a manifest report. */
    method CursorRecorded(m: Uplink, record: Record, value: Value, answer: Answer, now: nat)
        returns (ack: Option<(Value, DurableAck)>, next: Await)
      requires m.Delivery? && m.payload.protocols.Some?
      modifies this
      ensures Effect(sessions, ack, next)
        == Proceed(cfg, old(sessions), Handler(Up(m), CursorCommand(record, value)), BusinessReply(answer), now)
    {
      if answer.Failed? { return None, Done(Ended(Rejected)); }
      ack, next := StoreManifest(m, record, value, now);
    }

    /** Writes the captured record back with the reported protocols, bindings and all, and
        acknowledges the report. */
    method StoreManifest(m: Uplink, record: Record, value: Value, now: nat)
        returns (ack: Option<(Value, DurableAck)>, next: Await)
      requires m.Delivery? && m.payload.protocols.Some?
      modifies this
      ensures sessions == old(sessions)[record.header.session := WithProtocols(record, m.payload.protocols.value)]
      ensures ack == Some((value, PlainAck(m, "receipt:manifest:" + m.id.batch, now))) && next == Publishing(Threw)
    {
      sessions := sessions[record.header.session := record.(protocols := m.payload.protocols.value)];
      ack, next := Some((value, PlainAck(m, "receipt:manifest:" + m.id.batch, now))), Publishing(Threw);
    }

    /** The answer to an Integration topology or observation report. */
    method IntegrationReported(m: Uplink, record: Record, answer: Answer, now: nat)
        returns (ack: Option<(Value, DurableAck)>, next: Await)
      requires BindsStream(m)
      modifies this
      ensures Effect(sessions, ack, next)
        == Proceed(cfg, old(sessions), Handler(Up(m), BusinessCommand(record)), BusinessReply(answer), now)
    {
      if answer.Failed? { return None, Done(Ended(if answer.deliveryGap then Deferred else Rejected)); }
      var value := answer.value;
      var durable: Option<DurableAck> := None;
      if value.acknowledgement.Ack? {
        durable := PersistedDurableAck(m, value.acknowledgement.ack);
      }
      if (!value.acknowledgement.NoAck? && durable.None?) || !ReceiptProves(value, m, durable.Some?) {
        return None, Done(Ended(Rejected));
      }
      if m.payload.integration.Some? {
        var bindings := record.bindings[BindingKey(m) := Binding(m.kind, m.payload.integration.value)];
        sessions := sessions[record.header.session := record.(bindings := bindings)];
      }
      if durable.None? { return None, Done(Ended(Deferred)); }
      ack, next := Some((value, durable.value)), Publishing(Threw);
    }
  }
}
