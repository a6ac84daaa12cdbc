/** Where each stretch of a bridge handler leads: which deliveries are acknowledged and with what,
    which are deferred, refused or ignored, and what is stored. Everything is said of messages,
    stored records and answers, in both directions. */
module BridgeOutcomes {
  import opened Wrappers
  import opened CloudLinkMessages
  import opened Bridge
  import U = UplinkAuthentication

  // ---------- which answers prove what ----------

  /** The persisted acknowledgement is, where it is compared, what is written for this delivery. */
  ghost predicate WrittenForDelivery(m: Uplink, a: PersistedAck)
    requires m.Delivery?
  {
    exists event: string, scope: Scope, receipt: string, at: nat ::
      Compared(m, a) == WrittenFor(m, event, scope, receipt, at)
  }

  /** The same for an action receipt, in the scope of the session. */
  ghost predicate WrittenForAction(m: Uplink, scope: Scope, a: PersistedAck)
    requires m.Delivery?
  {
    exists receipt: string, at: nat ::
      a.(outboxEvent := Some(""), integration := m.payload.integration, kind := Some(m.kind))
        == WrittenFor(m, "", scope, receipt, at)
  }

  lemma PersistedIsUsedExactly(m: Uplink, a: PersistedAck)
    requires m.Delivery?
    ensures PersistedDurableAck(m, a).Some? <==> WrittenForDelivery(m, a)
    ensures var r := PersistedDurableAck(m, a); r.Some? ==> AckIsFor(r.value, m) && FromPersisted(r.value, a)
  {
    if WrittenForDelivery(m, a) {
      var event: string, scope: Scope, receipt: string, at: nat :|
        Compared(m, a) == WrittenFor(m, event, scope, receipt, at);
      assert Scope(scope.tenant, scope.project) == scope;
    }
  }

  lemma ControlIsUsedExactly(m: Uplink, scope: Scope, a: PersistedAck)
    requires m.Delivery?
    ensures ControlDurableAck(m, scope, a).Some? <==> WrittenForAction(m, scope, a)
    ensures var r := ControlDurableAck(m, scope, a); r.Some? ==> AckIsFor(r.value, m) && FromPersisted(r.value, a)
  {
  }

  /** The receipt of this report's commit under the credential generation given; what a receipt
      may choose freely is taken from r. */
  function CommittedFor(m: Uplink, generation: nat, r: IntegrationReceipt): IntegrationReceipt
    requires m.Delivery?
  {
    IntegrationReceipt(Some(m.kind), r.tenant, r.project, Some(m.header.gateway), m.payload.integration,
      Some(generation), true, m.payload.snapshotGeneration, r.payloadDigest, r.outboxEvent, r.auditEvent,
      r.committedAt, r.revision, if m.kind.ObservationBatch? then m.payload.payloadBatch else r.batch)
  }

  /** The receipt names a scope, a digest, two different events, an instant and a revision. */
  predicate Complete(r: IntegrationReceipt) {
    && r.tenant.Some? && r.project.Some? && r.committedAt.Some?
    && r.outboxEvent.Some? && r.auditEvent.Some? && r.outboxEvent.value != r.auditEvent.value
    && r.payloadDigest.Some? && |r.payloadDigest.value| == 64 && IsLowerHex(r.payloadDigest.value)
    && 0 < r.revision < 9_007_199_254_740_992
  }

  /** The answer shows that this Integration report was committed: now, or, if a current
      acknowledgement comes with it, under an earlier credential generation. */
  ghost predicate ProvesCommit(m: Uplink, value: Value, acknowledged: bool)
    requires m.Delivery?
  {
    && m.payload.integration.Some? && m.payload.snapshotGeneration.Some?
    && !value.disposition.OtherDisposition? && value.integrationReceipt.Some?
    && var r := value.integrationReceipt.value;
    && Complete(r)
    && (|| r == CommittedFor(m, m.header.generation, r)
        || (value.replayed && value.disposition.Replayed? && acknowledged
          && CommittedEarlier(m, r)))
  }

  ghost predicate CommittedEarlier(m: Uplink, r: IntegrationReceipt)
    requires m.Delivery?
  {
    exists generation: nat ::
      0 < generation < m.header.generation && IsUint64(generation) && r == CommittedFor(m, generation, r)
  }

  lemma ReceiptProvesExactly(m: Uplink, value: Value, acknowledged: bool)
    requires m.Delivery?
    ensures ReceiptProves(value, m, acknowledged) <==> ProvesCommit(m, value, acknowledged)
  {
    if value.integrationReceipt.Some? && ReceiptProves(value, m, acknowledged) {
      var r := value.integrationReceipt.value;
      assert r == CommittedFor(m, r.generation.value, r);
    }
  }

  // ---------- the business command of a delivery ----------

  /** A successful answer of the business command that lets its delivery be acknowledged, for the
      kind of the delivery and the scope of its session. */
  ghost predicate Sufficient(m: Uplink, scope: Scope, value: Value)
    requires m.Delivery?
  {
    match m.kind
    case DataLoss => true
    case ManifestReport => m.payload.protocols.Some?
    case TelemetryBatch =>
      && value.durablyAcknowledged && value.telemetryReceipt.Some?
      && value.telemetryReceipt.value.id.Some? && !value.telemetryReceipt.value.gap
      && (value.acknowledgement.Ack? ==> WrittenForDelivery(m, value.acknowledgement.ack))
    case ActionReceipt =>
      && value.controlShape && !value.disposition.OtherDisposition?
      && value.acknowledgement.Ack? && WrittenForAction(m, scope, value.acknowledgement.ack)
    case ObservationBatch | TopologySnapshot =>
      && value.acknowledgement.Ack? && WrittenForDelivery(m, value.acknowledgement.ack)
      && ProvesCommit(m, value, true)
  }

  /** The repository's acknowledgement is used where there can be one, and is not made up. */
  predicate UsesPersisted(m: Uplink, value: Value)
    requires m.Delivery?
  {
    BindsStream(m) || m.kind.ActionReceipt? || (m.kind.TelemetryBatch? && value.acknowledgement.Ack?)
  }

  /** The one acknowledgement that is due: the delivery's identity, with the persisted receipt and
      instant, or with a receipt named after the batch and the present instant. */
  predicate Due(ack: DurableAck, m: Uplink, value: Value, now: nat)
    requires m.Delivery?
  {
    && AckIsFor(ack, m)
    && (UsesPersisted(m, value) ==> value.acknowledgement.Ack? && FromPersisted(ack, value.acknowledgement.ack))
    && (!UsesPersisted(m, value) ==>
      && ack.acknowledgedAt == now
      && (m.kind.TelemetryBatch? ==> ack.receipt == "receipt:cloudlink:" + m.id.batch)
      && (m.kind.DataLoss? ==> ack.receipt == "receipt:data-loss:" + m.id.batch)
      && (m.kind.ManifestReport? ==> ack.receipt == "receipt:manifest:" + m.id.batch))
  }

  lemma DueIsUnique(a: DurableAck, b: DurableAck, m: Uplink, value: Value, now: nat)
    requires m.Delivery? && Due(a, m, value, now) && Due(b, m, value, now)
    ensures a == b
  {
  }

  /** The report still waits for its cursor to be recorded. */
  predicate AwaitsCursor(cfg: Config, m: Uplink) {
    m.Delivery? && m.kind.ManifestReport? && m.payload.protocols.Some? && cfg.cursorPort
  }

  /** The delivery is acknowledged on this answer of its business command. */
  ghost predicate AcknowledgedNow(cfg: Config, m: Uplink, scope: Scope, answer: Answer) {
    m.Delivery? && answer.Succeeded? && Sufficient(m, scope, answer.value) && !AwaitsCursor(cfg, m)
  }

  /** A report that was committed but whose acknowledgement is not persisted yet. */
  ghost predicate CommittedUnacknowledged(m: Uplink, answer: Answer) {
    && BindsStream(m) && answer.Succeeded? && answer.value.acknowledgement.NoAck?
    && ProvesCommit(m, answer.value, false)
  }

  /** The answer makes the handler end as deferred, so that the delivery may come again. */
  ghost predicate DeferredBy(m: Uplink, answer: Answer) {
    || (answer == Failed(true) && m.Delivery?
      && (m.kind.TopologySnapshot? || m.kind.ObservationBatch? || m.kind.ActionReceipt?))
    || CommittedUnacknowledged(m, answer)
  }

  /** A committed report leaves a trace in the session: its stream is bound, its protocols count. */
  ghost predicate Stores(cfg: Config, m: Uplink, scope: Scope, answer: Answer) {
    || (m.Delivery? && m.kind.ManifestReport? && AcknowledgedNow(cfg, m, scope, answer))
    || (BindsStream(m) && (AcknowledgedNow(cfg, m, scope, answer) || CommittedUnacknowledged(m, answer)))
  }

  /** The record with that trace and nothing else changed. */
  ghost function Traced(m: Uplink, record: Record): Record
    requires m.Delivery? && (m.kind.ManifestReport? ==> m.payload.protocols.Some?)
    requires BindsStream(m) ==> m.payload.integration.Some?
  {
    match m.kind
    case ManifestReport =>
      Record(record.scope, record.header, record.origin, m.payload.protocols.value, record.bindings)
    case ObservationBatch | TopologySnapshot =>
      Record(record.scope, record.header, record.origin, record.protocols,
        record.bindings[(m.id.stream, m.id.streamEpoch) := Binding(m.kind, m.payload.integration.value)])
    case _ => record
  }

  /** The effect of the answer to a business command, exactly. */
  ghost predicate AnswersBusiness(
      cfg: Config, sessions: Sessions, m: Uplink, record: Record, answer: Answer, now: nat, e: Effect)
  {
    && (e.ack.Some? <==> AcknowledgedNow(cfg, m, record.scope, answer))
    && (e.ack.Some? ==> e.ack.value.0 == answer.value && Due(e.ack.value.1, m, answer.value, now))
    && (e.next == Publishing(Threw) <==> e.ack.Some? || (m.Heartbeat? && answer.Succeeded?))
    && (e.next.CursorCommand? <==> answer.Succeeded? && AwaitsCursor(cfg, m))
    && (e.next.CursorCommand? ==> e.next == CursorCommand(record, answer.value))
    && (e.next == Done(Ended(Deferred)) <==> DeferredBy(m, answer))
    && (|| e.next == Publishing(Threw) || e.next.CursorCommand? || e.next == Done(Ended(Deferred))
        || e.next == Done(Ended(Rejected)))
    && e.sessions == (if Stores(cfg, m, record.scope, answer) then
        sessions[record.header.session := Traced(m, record)] else sessions)
  }

  lemma FailureAnswered(cfg: Config, sessions: Sessions, m: Uplink, record: Record, answer: Answer, now: nat)
    requires answer.Failed? || m.Heartbeat?
    ensures AnswersBusiness(cfg, sessions, m, record, answer, now,
      AfterBusiness(cfg, sessions, m, record, answer, now))
  {
  }

  lemma ReportAnswered(cfg: Config, sessions: Sessions, m: Uplink, record: Record, answer: Answer, now: nat)
    requires answer.Succeeded? && m.Delivery? && (m.kind.ManifestReport? || m.kind.DataLoss?)
    ensures AnswersBusiness(cfg, sessions, m, record, answer, now,
      AfterBusiness(cfg, sessions, m, record, answer, now))
  {
  }

  lemma TelemetryAnswered(cfg: Config, sessions: Sessions, m: Uplink, record: Record, answer: Answer, now: nat)
    requires answer.Succeeded? && m.Delivery? && m.kind.TelemetryBatch?
    ensures AnswersBusiness(cfg, sessions, m, record, answer, now,
      AfterBusiness(cfg, sessions, m, record, answer, now))
  {
    if answer.value.acknowledgement.Ack? {
      PersistedIsUsedExactly(m, answer.value.acknowledgement.ack);
    }
  }

  lemma ActionAnswered(cfg: Config, sessions: Sessions, m: Uplink, record: Record, answer: Answer, now: nat)
    requires answer.Succeeded? && m.Delivery? && m.kind.ActionReceipt?
    ensures AnswersBusiness(cfg, sessions, m, record, answer, now,
      AfterBusiness(cfg, sessions, m, record, answer, now))
  {
    if answer.value.acknowledgement.Ack? {
      ControlIsUsedExactly(m, record.scope, answer.value.acknowledgement.ack);
    }
  }

  lemma IntegrationAnswered(cfg: Config, sessions: Sessions, m: Uplink, record: Record, answer: Answer, now: nat)
    requires answer.Succeeded? && BindsStream(m)
    ensures AnswersBusiness(cfg, sessions, m, record, answer, now,
      AfterBusiness(cfg, sessions, m, record, answer, now))
  {
    if answer.value.acknowledgement.Ack? {
      PersistedIsUsedExactly(m, answer.value.acknowledgement.ack);
    }
    ReceiptProvesExactly(m, answer.value, answer.value.acknowledgement.Ack?);
  }

  lemma BusinessAnsweredExactly(
      cfg: Config, sessions: Sessions, m: Uplink, record: Record, answer: Answer, now: nat)
    ensures AnswersBusiness(cfg, sessions, m, record, answer, now,
      Proceed(cfg, sessions, Handler(Up(m), BusinessCommand(record)), BusinessReply(answer), now))
  {
    if answer.Failed? || m.Heartbeat? {
      FailureAnswered(cfg, sessions, m, record, answer, now);
    } else {
      match m.kind
      case TelemetryBatch => TelemetryAnswered(cfg, sessions, m, record, answer, now);
      case ActionReceipt => ActionAnswered(cfg, sessions, m, record, answer, now);
      case ManifestReport | DataLoss => ReportAnswered(cfg, sessions, m, record, answer, now);
      case ObservationBatch | TopologySnapshot => IntegrationAnswered(cfg, sessions, m, record, answer, now);
    }
  }

  /** The effect of the answer to a cursor command: the report is acknowledged exactly on success. */
  ghost predicate AnswersCursor(
      sessions: Sessions, m: Uplink, record: Record, value: Value, answer: Answer, now: nat, e: Effect)
    requires m.Delivery? && m.payload.protocols.Some?
  {
    if answer.Succeeded? then
      && e.ack.Some? && e.ack.value.0 == value && e.next == Publishing(Threw)
      && AckIsFor(e.ack.value.1, m) && e.ack.value.1.acknowledgedAt == now
      && e.ack.value.1.receipt == "receipt:manifest:" + m.id.batch
      && e.sessions == sessions[record.header.session :=
        Record(record.scope, record.header, record.origin, m.payload.protocols.value, record.bindings)]
    else e == Effect(sessions, None, Done(Ended(Rejected)))
  }

  lemma CursorAnsweredExactly(
      cfg: Config, sessions: Sessions, m: Uplink, record: Record, value: Value, answer: Answer, now: nat)
    requires m.Delivery? && m.payload.protocols.Some?
    ensures AnswersCursor(sessions, m, record, value, answer, now,
      Proceed(cfg, sessions, Handler(Up(m), CursorCommand(record, value)), BusinessReply(answer), now))
  {
  }

  // ---------- the way to the business command ----------

  predicate Expired(m: Uplink, now: nat) {
    m.Delivery? && m.expiresAt.Some? && m.expiresAt.value <= now
  }

  predicate IsAction(m: Uplink) {
    m.Delivery? && m.kind.ActionReceipt?
  }

  /** A trusted connector's session is cached under the session id of the message. */
  predicate ConnectorCached(sessions: Sessions, m: Uplink) {
    m.header.session in sessions && sessions[m.header.session].origin.TrustedConnector?
  }

  /** It is the message's own session, whose connector vouches for the message. */
  predicate Vouched(sessions: Sessions, m: Uplink) {
    ConnectorCached(sessions, m) && sessions[m.header.session].header == m.header
  }

  /** The message is refused, and not merely ignored, before it reaches a command. */
  ghost predicate Unwelcome(cfg: Config, sessions: Sessions, m: Uplink) {
    || (ConnectorCached(sessions, m) && !Vouched(sessions, m))
    || (m.header.session !in sessions && !cfg.gatewaySigned)
    || (Vouched(sessions, m) && IsAction(m) && !Eligible(cfg, sessions[m.header.session], m))
  }

  /** Where a message goes first, exactly. */
  ghost predicate Begins(cfg: Config, sessions: Sessions, message: Inbound, now: nat, next: Await) {
    && (next == CredentialLookup <==>
      message.Hello? && message.origin.TrustedConnector? && cfg.connectorResolver)
    && (next == SessionCommand <==>
      && cfg.gatewaySigned
      && (message.ChallengeRequest? || (message.Hello? && message.origin.GatewaySigned? && message.keyId.Some?)))
    && (next == Authentication <==>
      && message.Up? && cfg.gatewaySigned && message.uplink.signature.Some?
      && !ConnectorCached(sessions, message.uplink) && (IsAction(message.uplink) ==> cfg.controlEnabled))
    && (next.BusinessCommand? <==>
      && message.Up? && Vouched(sessions, message.uplink) && !Expired(message.uplink, now)
      && Eligible(cfg, sessions[message.uplink.header.session], message.uplink)
      && (IsAction(message.uplink) ==> cfg.controlEnabled))
    && (next.BusinessCommand? ==> next.record == sessions[message.uplink.header.session])
    && (next == Done(Ended(Rejected)) <==>
      && message.Up? && Unwelcome(cfg, sessions, message.uplink)
      && (IsAction(message.uplink) ==> cfg.controlEnabled))
    && (|| next == CredentialLookup || next == SessionCommand || next == Authentication || next.BusinessCommand?
        || next == Done(Ended(Rejected)) || next == Done(Ended(Discarded)))
  }

  lemma BeginsExactly(cfg: Config, sessions: Sessions, message: Inbound, now: nat)
    ensures var e := Start(cfg, sessions, message, now);
      e.sessions == sessions && e.ack.None? && Begins(cfg, sessions, message, now, e.next)
  {
  }

  /** Where an uplink with a verified signature goes with its session, exactly: its expiry has been
      checked with the signature, and a replayed heartbeat is only answered. */
  lemma SignedDispatchExactly(cfg: Config, sessions: Sessions, m: Uplink, record: Record, replayed: bool, now: nat)
    ensures var e := Proceed(cfg, sessions, Handler(Up(m), Dispatching(record, replayed)), Continue, now);
      && e.sessions == sessions && e.ack.None?
      && (e.next == BusinessCommand(record) <==> Eligible(cfg, record, m) && !(m.Heartbeat? && replayed))
      && (e.next == Publishing(Threw) <==> m.Heartbeat? && replayed)
      && (e.next == Done(Ended(Rejected)) <==> IsAction(m) && !Eligible(cfg, record, m))
      && (|| e.next == BusinessCommand(record) || e.next == Publishing(Threw) || e.next == Done(Ended(Rejected))
          || e.next == Done(Ended(Discarded)))
  {
  }

  /** A verification is good for the cached session of that very identity, or for none at all. */
  lemma AuthenticationExactly(
      cfg: Config, sessions: Sessions, m: Uplink, answer: Option<U.Authenticated>, now: nat)
    ensures var e := Proceed(cfg, sessions, Handler(Up(m), Authentication), AuthenticationReply(answer), now);
      var stored := Lookup(sessions, m.header.session);
      var accepted := answer.Some? && U.BridgeAccepts(m, cfg.scope, answer.value);
      && e.sessions == sessions && e.ack.None?
      && (e.next.UplinkRestoration? <==> accepted && stored.None?)
      && (e.next.Dispatching? <==>
        && accepted && stored.Some?
        && stored.value == Record(cfg.scope, m.header, GatewaySigned, stored.value.protocols, stored.value.bindings))
      && (e.next.UplinkRestoration? ==> e.next.replayed == answer.value.replayed)
      && (e.next.Dispatching? ==> e.next == Dispatching(stored.value, answer.value.replayed))
      && (e.next.UplinkRestoration? || e.next.Dispatching? || e.next == Done(Ended(Discarded)))
  {
    if m.header.session in sessions {
      assert sessions[m.header.session := sessions[m.header.session]] == sessions;
    }
  }

  /** A session without bindings has every stream free; a stream that has been bound is open to
      exactly the same kind and Integration, and binding it closes no other stream. */
  lemma StreamsOpenExactly(record: Record, m: Uplink, later: Uplink)
    requires m.Delivery? && m.payload.integration.Some? && later.Delivery? && later.payload.integration.Some?
    ensures BindingAllows(record.(bindings := map[]), later)
    ensures BindsStream(m) ==>
      (BindingAllows(Traced(m, record), later) <==>
        if later.id.stream == m.id.stream && later.id.streamEpoch == m.id.streamEpoch
        then later.kind == m.kind && later.payload.integration == m.payload.integration
        else BindingAllows(record, later))
  {
  }

  // ---------- opening a session ----------

  /** The session that was granted is the one the hello asked for, in the only version there is. */
  predicate GrantedAsAsked(hello: Inbound, a: Accepted)
    requires hello.Hello?
  {
    var header := Header(hello.gateway, a.header.session, a.header.epoch, hello.generation);
    if hello.origin.TrustedConnector? then
      a == Accepted(a.scope, header, a.keyId, a.heartbeatInterval, "1.0", a.active, true)
    else
      && a == Accepted(a.scope, header, hello.keyId, a.heartbeatInterval, "1.0", true, true)
      && a.heartbeatInterval.Some? && 1 <= a.heartbeatInterval.value <= MAXIMUM_UINT64
  }

  ghost predicate ForgetsOnly(before: Sessions, after: Sessions, owner: Owner) {
    && after.Keys <= before.Keys
    && forall id <- before ::
      && (id in after <==> Owner(before[id].scope, before[id].header.gateway) != owner)
      && (id in after ==> after[id] == before[id])
  }

  /** Accepting a hello forgets the sessions of its Gateway and no other one. */
  lemma HelloExactly(cfg: Config, sessions: Sessions, hello: Inbound, answer: Option<Accepted>, now: nat)
    requires hello.Hello?
    ensures var e := Proceed(cfg, sessions, Handler(hello, SessionCommand), SessionReply(answer), now);
      && e.ack.None?
      && e.next == (if answer.Some? && GrantedAsAsked(hello, answer.value) then HelloRestoration(answer.value)
        else Done(Ended(Discarded)))
      && (e.next.HelloRestoration? ==>
        ForgetsOnly(sessions, e.sessions, Owner(answer.value.scope, hello.gateway)))
      && (!e.next.HelloRestoration? ==> e.sessions == sessions)
  {
  }

  /** A session is stored exactly when its protocols were restored, and begins without bindings. */
  lemma RestorationExactly(cfg: Config, sessions: Sessions, h: Handler, protocols: Option<set<string>>, now: nat)
    requires Fits(h, RestorationReply(protocols))
    ensures var e := Proceed(cfg, sessions, h, RestorationReply(protocols), now);
      && e.ack.None?
      && (protocols.None? ==> e.sessions == sessions && e.next == Done(Ended(Discarded)))
      && (protocols.Some? && h.at.HelloRestoration? ==>
        && e.sessions == sessions[h.at.accepted.header.session :=
          Record(h.at.accepted.scope, h.at.accepted.header, h.message.origin, protocols.value, map[])]
        && e.next == Publishing(Ended(Deferred)))
      && (protocols.Some? && h.at.UplinkRestoration? ==>
        var record := Record(cfg.scope, h.message.uplink.header, GatewaySigned, protocols.value, map[]);
        && e.sessions == sessions[h.message.uplink.header.session := record]
        && e.next == Dispatching(record, h.at.replayed))
  {
  }

  /** What the other replies lead to: no session is touched and nothing is acknowledged. */
  lemma OtherRepliesExactly(cfg: Config, sessions: Sessions, h: Handler, reply: Reply, now: nat)
    requires Fits(h, reply)
    requires reply.CredentialReply? || reply.ChallengeReply? || reply.Published? || reply.CommandThrew?
    ensures var e := Proceed(cfg, sessions, h, reply, now);
      && e.sessions == sessions && e.ack.None?
      && (reply.CommandThrew? ==> e.next == Done(Threw))
      && (reply == Published(true) ==> e.next == Done(Ended(Acknowledged)))
      && (reply == Published(false) ==> e.next == Done(h.at.onFailure))
      && (reply == CredentialReply(true) ==> e.next == SessionCommand)
      && (reply == ChallengeReply(true) ==> e.next == Publishing(Ended(Deferred)))
      && (reply == CredentialReply(false) || reply == ChallengeReply(false) ==> e.next == Done(Ended(Discarded)))
  {
  }
}
