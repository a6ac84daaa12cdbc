/** Gateway-signed uplink authentication: a message is projected to the thirteen signed fields,
    checked for freshness, and minted into a fact that is checked again where it is consumed.

    The answers of the session reader, the verifier, the clock and the heartbeat repository are
    parameters; nothing is assumed about them. */
module UplinkAuthentication {
  import opened Wrappers
  import opened CloudLinkMessages
  import Base64Url

  const SIGNING_SCHEMA := "aether.cloudlink.uplink-signing.v1alpha1"
  const MAXIMUM_SAFE_INTEGER := 9_007_199_254_740_991

  /** The thirteen fields a Gateway signs. */
  datatype Projection = Projection(
    schema: string, gateway: string, generation: nat, session: string, epoch: nat, kind: MessageKind,
    sentAt: nat, expiresAt: Option<nat>, stream: Option<string>, streamEpoch: Option<nat>,
    position: Option<nat>, batch: Option<string>, digest: Option<string>)

  /** The input of the authentication command, as the bridge builds it from a message. */
  datatype Input = Input(scope: Scope, header: Header, signature: Signature, body: Body)
  datatype Body =
    | HeartbeatBody(observedAt: nat)
    | DeliveryBody(kind: DeliveryKind, sentAt: nat, expiresAt: Option<nat>, id: DeliveryId)

  datatype Fact = Fact(
    scope: Scope, header: Header, revision: int, keyId: string, kind: MessageKind,
    signingDigest: string, projection: Projection, refreshLiveness: bool)

  datatype Session = Session(
    active: bool, scope: Scope, header: Header, keyId: Option<string>,
    heartbeatInterval: Option<nat>, revision: int)

  datatype Verification = Verification(keyActive: bool, signatureVerified: bool, signingDigest: Option<string>)

  datatype Persisted = Accepted | Replayed | Conflict | Lower | Unavailable

  /** `Throws` is a rejected promise rather than a failure result. */
  datatype Failure = AuthenticationInvalid | Disabled | InvalidInput | MessageExpired | Throws

  datatype Authenticated = Authenticated(replayed: bool, fact: Fact)

  // ---------- from message to command input to projection ----------

  function CommandInput(m: Uplink, scope: Scope): Option<Input> {
    match m.signature
    case None => None
    case Some(signature) =>
      Some(Input(scope, m.header, signature,
        match m
        case Heartbeat(_, _, observedAt) => HeartbeatBody(observedAt)
        case Delivery(_, _, kind, sentAt, expiresAt, id, _) => DeliveryBody(kind, sentAt, expiresAt, id)))
  }

  /** The command is asked about every signed message, with all that the message says of itself. */
  lemma CommandInputExactly(m: Uplink, scope: Scope)
    ensures CommandInput(m, scope).Some? <==> m.signature.Some?
    ensures m.signature.Some? ==>
      var input := CommandInput(m, scope).value;
      && input.scope == scope && input.header == m.header && input.signature == m.signature.value
      && (m.Heartbeat? ==> input.body == HeartbeatBody(m.observedAt))
      && (m.Delivery? ==> input.body == DeliveryBody(m.kind, m.sentAt, m.expiresAt, m.id))
  {
  }

  predicate ValidInput(input: Input) {
    && input.scope.tenant != "" && input.scope.project != ""
    && input.header.gateway != "" && input.header.session != ""
    && IsUint64(input.header.epoch) && IsUint64(input.header.generation)
    && input.signature.keyId != "" && Base64Url.TailBitTest(input.signature.text)
    && match input.body
    case HeartbeatBody(observedAt) => IsUint64(observedAt)
    case DeliveryBody(_, sentAt, expiresAt, id) =>
      && IsUint64(sentAt) && (expiresAt.Some? ==> IsUint64(expiresAt.value))
      && id.stream != "" && IsUint64(id.streamEpoch) && 0 < id.position <= MAXIMUM_UINT64
      && IsBatchId(id.batch) && IsDigest(id.digest)
  }

  function KindOfInput(input: Input): MessageKind {
    if input.body.HeartbeatBody? then HeartbeatKind else DeliveryOf(input.body.kind)
  }

  function ProjectUplink(input: Input): Projection {
    var h := input.header;
    match input.body
    case HeartbeatBody(observedAt) =>
      Projection(SIGNING_SCHEMA, h.gateway, h.generation, h.session, h.epoch, HeartbeatKind,
        observedAt, None, None, None, None, None, None)
    case DeliveryBody(kind, sentAt, expiresAt, id) =>
      Projection(SIGNING_SCHEMA, h.gateway, h.generation, h.session, h.epoch, DeliveryOf(kind),
        sentAt, expiresAt, Some(id.stream), Some(id.streamEpoch), Some(id.position), Some(id.batch), Some(id.digest))
  }

  predicate SessionMatches(session: Session, input: Input) {
    && session.active && session.scope == input.scope && session.header == input.header
    && session.keyId.Some? && session.heartbeatInterval.Some?
    && session.keyId.value == input.signature.keyId
  }

  // ---------- freshness in 64 bits ----------

  /** Undefined when the sum leaves the unsigned 64-bit range. */
  function CheckedAdd(left: nat, right: nat): (r: Option<nat>)
    ensures r == if IsUint64(left + right) then Some(left + right) else None
  {
    if left > MAXIMUM_UINT64 - right then None else Some(left + right)
  }

  function CheckedMultiply(value: nat, factor: nat): (r: Option<nat>)
    requires factor > 0
  {
    if value > MAXIMUM_UINT64 / factor then None else Some(value * factor)
  }

  /** The quotient test is exact for every positive factor. */
  lemma CheckedMultiplyIsExact(value: nat, factor: nat)
    requires factor > 0
    ensures CheckedMultiply(value, factor) == if IsUint64(value * factor) then Some(value * factor) else None
  {
    var q := MAXIMUM_UINT64 / factor;
    assert q * factor <= MAXIMUM_UINT64 < (q + 1) * factor;
    if value > q {
      assert value * factor >= (q + 1) * factor;
    } else {
      assert value * factor <= q * factor;
    }
  }

  /** None when the message is fresh. */
  function ValidateFreshness(body: Body, heartbeatInterval: nat, now: nat): Option<Failure> {
    match body
    case DeliveryBody(_, sentAt, expiresAt, _) =>
      if expiresAt.Some? && expiresAt.value < sentAt then Some(InvalidInput)
      else if expiresAt.Some? && now >= expiresAt.value then Some(MessageExpired)
      else None
    case HeartbeatBody(observedAt) =>
      if heartbeatInterval == 0 || !IsUint64(heartbeatInterval) then Some(Throws)
      else
        var futureBoundary := CheckedAdd(now, heartbeatInterval);
        var staleWidth := CheckedMultiply(heartbeatInterval, 3);
        var staleBoundary := if staleWidth.None? then None else CheckedAdd(observedAt, staleWidth.value);
        if futureBoundary.None? || staleBoundary.None? then Some(AuthenticationInvalid)
        else if observedAt > futureBoundary.value then Some(AuthenticationInvalid)
        else if now >= staleBoundary.value then Some(MessageExpired)
        else None
  }

  /** A heartbeat is fresh exactly when the three boundaries fit in 64 bits and the observation
      lies in the window, reckoned in unbounded integers. */
  lemma HeartbeatFreshExactly(observedAt: nat, interval: nat, now: nat)
    requires 0 < interval && IsUint64(interval)
    ensures ValidateFreshness(HeartbeatBody(observedAt), interval, now).None? <==>
      && IsUint64(now + interval) && IsUint64(3 * interval) && IsUint64(observedAt + 3 * interval)
      && observedAt <= now + interval && now < observedAt + 3 * interval
    ensures ValidateFreshness(HeartbeatBody(observedAt), interval, now) == Some(MessageExpired) <==>
      && IsUint64(now + interval) && IsUint64(observedAt + 3 * interval) && now >= observedAt + 3 * interval
  {
    CheckedMultiplyIsExact(interval, 3);
  }

  // ---------- authentication ----------

  function Mint(input: Input, session: Session, signingDigest: string, refresh: bool): Fact
    requires session.keyId.Some?
  {
    Fact(input.scope, input.header, session.revision, session.keyId.value, KindOfInput(input),
      signingDigest, ProjectUplink(input), refresh)
  }

  function Authenticate(
      enabled: bool, input: Input, found: Option<Session>, verified: Option<Verification>,
      now: Option<nat>, persisted: Persisted): Result<Authenticated, Failure>
  {
    if !enabled then Err(Disabled)
    else if !ValidInput(input) then Err(InvalidInput)
    else if found.None? || !SessionMatches(found.value, input) then Err(AuthenticationInvalid)
    else if verified.None? || !verified.value.keyActive || !verified.value.signatureVerified then
      Err(AuthenticationInvalid)
    else if verified.value.signingDigest.None? || !IsDigest(verified.value.signingDigest.value) then
      Err(AuthenticationInvalid)
    else if now.None? || !IsUint64(now.value) then Err(AuthenticationInvalid)
    else
      var session, signingDigest := found.value, verified.value.signingDigest.value;
      match ValidateFreshness(input.body, session.heartbeatInterval.value, now.value)
      case Some(failure) => Err(failure)
      case None =>
        if input.body.DeliveryBody? then Ok(Authenticated(false, Mint(input, session, signingDigest, false)))
        else if persisted.Unavailable? || persisted.Conflict? || persisted.Lower? then Err(AuthenticationInvalid)
        else
          var replayed := persisted.Replayed?;
          Ok(Authenticated(replayed, Mint(input, session, signingDigest, !replayed)))
  }

  /** An input the decoder lets through: identities are present, numbers fit in 64 bits, positions
      are positive, and the signature is the encoding of 64 octets. */
  lemma ValidInputExactly(input: Input)
    ensures ValidInput(input) <==>
      && "" !in {input.scope.tenant, input.scope.project, input.header.gateway, input.header.session}
      && input.signature.keyId != ""
      && input.header.epoch <= MAXIMUM_UINT64 && input.header.generation <= MAXIMUM_UINT64
      && (exists octets: seq<Base64Url.Octet> :: |octets| == 64 && input.signature.text == Base64Url.Encode(octets))
      && (input.body.HeartbeatBody? ==> input.body.observedAt <= MAXIMUM_UINT64)
      && (input.body.DeliveryBody? ==>
        && input.body.sentAt <= MAXIMUM_UINT64
        && (input.body.expiresAt.Some? ==> input.body.expiresAt.value <= MAXIMUM_UINT64)
        && input.body.id.stream != "" && input.body.id.streamEpoch <= MAXIMUM_UINT64
        && 1 <= input.body.id.position <= MAXIMUM_UINT64
        && IsBatchId(input.body.id.batch) && IsDigest(input.body.id.digest))
  {
    var text := input.signature.text;
    if Base64Url.TailBitTest(text) {
      Base64Url.TailBitTestIsReencodeTest(text);
      assert |Base64Url.Decode(text)| == 64 && text == Base64Url.Encode(Base64Url.Decode(text));
    }
    if octets: seq<Base64Url.Octet> :| |octets| == 64 && text == Base64Url.Encode(octets) {
      Base64Url.SignaturesAreOctetStrings(text, octets);
    }
  }

  /** The reader found the very session of the input, active, under the key of its signature. */
  ghost predicate SessionFits(session: Session, input: Input) {
    && session.active && session.heartbeatInterval.Some? && session.keyId == Some(input.signature.keyId)
    && session.scope.tenant == input.scope.tenant && session.scope.project == input.scope.project
    && session.header.gateway == input.header.gateway && session.header.session == input.header.session
    && session.header.epoch == input.header.epoch && session.header.generation == input.header.generation
  }

  /** The signature was verified, with a key that is active, over an object of a well-formed digest. */
  ghost predicate SignatureVerified(verified: Option<Verification>) {
    && verified.Some? && verified.value.keyActive && verified.value.signatureVerified
    && verified.value.signingDigest.Some? && IsDigest(verified.value.signingDigest.value)
  }

  /** The message is neither expired nor, for a heartbeat, from too far in the future, in
      unbounded integers; a heartbeat's three boundaries fit in 64 bits. */
  ghost predicate Fresh(body: Body, interval: nat, now: nat) {
    match body
    case DeliveryBody(_, sentAt, expiresAt, _) =>
      expiresAt.Some? ==> sentAt <= expiresAt.value && now < expiresAt.value
    case HeartbeatBody(observedAt) =>
      && 0 < interval <= MAXIMUM_UINT64
      && now + interval <= MAXIMUM_UINT64 && observedAt + 3 * interval <= MAXIMUM_UINT64
      && observedAt <= now + interval && now < observedAt + 3 * interval
  }

  /** Everything up to the freshness of the message is in order. */
  ghost predicate Trusted(
      enabled: bool, input: Input, found: Option<Session>, verified: Option<Verification>, now: Option<nat>)
  {
    && enabled && ValidInput(input) && found.Some? && SessionFits(found.value, input)
    && SignatureVerified(verified) && now.Some? && now.value <= MAXIMUM_UINT64
  }

  /** A fact is minted exactly for a trusted and fresh message which, if it is a heartbeat, the
      repository has recorded now or before; and the fact says what was verified and nothing else. */
  lemma AuthenticatesExactly(
      enabled: bool, input: Input, found: Option<Session>, verified: Option<Verification>,
      now: Option<nat>, persisted: Persisted)
    ensures var r := Authenticate(enabled, input, found, verified, now, persisted);
      && (r.Ok? <==>
        && Trusted(enabled, input, found, verified, now)
        && Fresh(input.body, found.value.heartbeatInterval.value, now.value)
        && (input.body.HeartbeatBody? ==> persisted == Accepted || persisted == Replayed))
      && (r.Ok? ==>
        && r.value.replayed == (input.body.HeartbeatBody? && persisted == Replayed)
        && var fact := r.value.fact;
        && fact.scope == input.scope && fact.header == input.header && fact.revision == found.value.revision
        && fact.keyId == input.signature.keyId && fact.signingDigest == verified.value.signingDigest.value
        && fact.projection == ProjectUplink(input)
        && fact.kind == (if input.body.HeartbeatBody? then HeartbeatKind else DeliveryOf(input.body.kind))
        && fact.refreshLiveness == (input.body.HeartbeatBody? && persisted == Accepted))
  {
    if input.body.HeartbeatBody? && found.Some? && found.value.heartbeatInterval.Some? && now.Some? {
      var interval := found.value.heartbeatInterval.value;
      if 0 < interval && IsUint64(interval) {
        HeartbeatFreshExactly(input.body.observedAt, interval, now.value);
      }
    }
  }

  /** How an authentication that mints nothing fails: each failure has its own condition. */
  lemma FailsExactly(
      enabled: bool, input: Input, found: Option<Session>, verified: Option<Verification>,
      now: Option<nat>, persisted: Persisted)
    ensures var r := Authenticate(enabled, input, found, verified, now, persisted);
      var trusted := Trusted(enabled, input, found, verified, now);
      && (r == Err(Disabled) <==> !enabled)
      && (r == Err(InvalidInput) <==>
        && enabled
        && (!ValidInput(input)
          || (trusted && input.body.DeliveryBody? && input.body.expiresAt.Some?
            && input.body.expiresAt.value < input.body.sentAt)))
      && (r == Err(Throws) <==>
        && trusted && input.body.HeartbeatBody?
        && !(1 <= found.value.heartbeatInterval.value <= MAXIMUM_UINT64))
      && (r == Err(MessageExpired) <==>
        && trusted
        && match input.body
        case DeliveryBody(_, sentAt, expiresAt, _) =>
          expiresAt.Some? && sentAt <= expiresAt.value <= now.value
        case HeartbeatBody(observedAt) =>
          var interval := found.value.heartbeatInterval.value;
          && 0 < interval && now.value + interval <= MAXIMUM_UINT64
          && observedAt + 3 * interval <= MAXIMUM_UINT64 && observedAt + 3 * interval <= now.value)
  {
    if input.body.HeartbeatBody? && found.Some? && found.value.heartbeatInterval.Some? && now.Some? {
      var interval := found.value.heartbeatInterval.value;
      if 0 < interval && IsUint64(interval) {
        HeartbeatFreshExactly(input.body.observedAt, interval, now.value);
      }
    }
  }

  /** The thirteen signed fields, one by one. */
  lemma ProjectionExactly(input: Input)
    ensures var p := ProjectUplink(input);
      && p.schema == "aether.cloudlink.uplink-signing.v1alpha1"
      && p.gateway == input.header.gateway && p.generation == input.header.generation
      && p.session == input.header.session && p.epoch == input.header.epoch
      && (input.body.HeartbeatBody? ==>
        && p.kind == HeartbeatKind && p.sentAt == input.body.observedAt
        && p.expiresAt.None? && p.stream.None? && p.streamEpoch.None? && p.position.None?
        && p.batch.None? && p.digest.None?)
      && (input.body.DeliveryBody? ==>
        && p.kind == DeliveryOf(input.body.kind) && p.sentAt == input.body.sentAt
        && p.expiresAt == input.body.expiresAt && p.stream == Some(input.body.id.stream)
        && p.streamEpoch == Some(input.body.id.streamEpoch) && p.position == Some(input.body.id.position)
        && p.batch == Some(input.body.id.batch) && p.digest == Some(input.body.id.digest))
  {
  }

  // ---------- consumption ----------

  /** The eleven fields of a delivery that a business use case is given. */
  datatype BusinessDelivery = BusinessDelivery(
    sentAt: nat, expiresAt: Option<nat>, session: string, epoch: nat, generation: nat,
    stream: string, streamEpoch: nat, position: nat, batch: string, digest: string, kind: DeliveryKind)

  function ApplicationDelivery(m: Uplink): BusinessDelivery
    requires m.Delivery?
  {
    BusinessDelivery(m.sentAt, m.expiresAt, m.header.session, m.header.epoch, m.header.generation,
      m.id.stream, m.id.streamEpoch, m.id.position, m.id.batch, m.id.digest, m.kind)
  }

  /** What decodeGatewaySignedCloudLinkBusinessDelivery lets through. */
  predicate DecodableDelivery(d: BusinessDelivery) {
    && IsBatchId(d.batch) && IsDigest(d.digest)
    && IsUint64(d.sentAt) && (d.expiresAt.Some? ==> IsUint64(d.expiresAt.value) && d.sentAt <= d.expiresAt.value)
    && d.session != "" && IsUint64(d.epoch) && IsUint64(d.generation)
    && d.stream != "" && IsUint64(d.streamEpoch) && IsUint64(d.position)
  }

  datatype Consumption = Consumed | RefusedInvalid | RefusedExpired

  predicate FactBaseIsValid(fact: Fact) {
    var p := fact.projection;
    && 0 < fact.revision <= MAXIMUM_SAFE_INTEGER
    && IsDigest(fact.signingDigest) && p.schema == SIGNING_SCHEMA
    && p.gateway == fact.header.gateway && p.generation == fact.header.generation
    && p.session == fact.header.session && p.epoch == fact.header.epoch && p.kind == fact.kind
  }

  /** `genuine` says that the object given is one that was minted; `digestOf` answers for the
      payload digestor, None when it throws. */
  function ConsumeDelivery(
      genuine: bool, fact: Fact, d: BusinessDelivery, now: nat, digestOf: Option<string>): Consumption
  {
    var p := fact.projection;
    if !genuine || !FactBaseIsValid(fact) then RefusedInvalid
    else if !IsUint64(now) then RefusedInvalid
    else if !IsUint64(d.sentAt) || (d.expiresAt.Some? && !IsUint64(d.expiresAt.value)) then RefusedInvalid
    else if d.expiresAt.Some? && (d.expiresAt.value < d.sentAt || now >= d.expiresAt.value) then RefusedExpired
    else if || fact.kind != DeliveryOf(d.kind) || fact.header.session != d.session
            || fact.header.epoch != d.epoch || fact.header.generation != d.generation
            || p.sentAt != d.sentAt || p.expiresAt != d.expiresAt
            || p.stream != Some(d.stream) || p.streamEpoch != Some(d.streamEpoch)
            || p.position != Some(d.position) || p.batch != Some(d.batch)
            || p.digest != Some(d.digest) || !IsDigest(d.digest) then RefusedInvalid
    else if digestOf.None? || !IsDigest(digestOf.value) || digestOf.value != d.digest then RefusedInvalid
    else Consumed
  }

  function ConsumeHeartbeat(genuine: bool, fact: Fact, observedAt: nat, now: nat): Consumption {
    var p := fact.projection;
    if !genuine || !FactBaseIsValid(fact) then RefusedInvalid
    else if !IsUint64(now) || !IsUint64(observedAt) then RefusedInvalid
    else if && fact.kind == HeartbeatKind && p.sentAt == observedAt && p.expiresAt.None?
            && p.stream.None? && p.streamEpoch.None? && p.position.None?
            && p.batch.None? && p.digest.None? then Consumed
    else RefusedInvalid
  }

  // ---------- the bridge's own check of a fact ----------

  /** A string field of a result object; the empty string counts as absent. */
  function StringField(s: string): Option<string> {
    if s == "" then None else Some(s)
  }

  predicate SigningProjectionMatches(p: Projection, m: Uplink) {
    && p.schema == SIGNING_SCHEMA && p.gateway == m.header.gateway && p.generation == m.header.generation
    && p.session == m.header.session && p.epoch == m.header.epoch && p.kind == KindOf(m)
    && match m
    case Heartbeat(_, _, observedAt) =>
      && p.sentAt == observedAt && p.expiresAt.None? && p.stream.None? && p.streamEpoch.None?
      && p.position.None? && p.batch.None? && p.digest.None?
    case Delivery(_, _, _, sentAt, expiresAt, id, _) =>
      && p.sentAt == sentAt && p.expiresAt == expiresAt && p.stream == Some(id.stream)
      && p.streamEpoch == Some(id.streamEpoch) && p.position == Some(id.position)
      && p.batch == Some(id.batch) && p.digest == Some(id.digest)
  }

  /** The conditions under which the bridge accepts the command's answer for a message. */
  predicate BridgeAccepts(m: Uplink, scope: Scope, a: Authenticated) {
    var fact := a.fact;
    && m.signature.Some?
    && StringField(fact.scope.tenant) == Some(scope.tenant)
    && StringField(fact.scope.project) == Some(scope.project)
    && StringField(fact.header.gateway) == Some(m.header.gateway)
    && StringField(fact.header.session) == Some(m.header.session)
    && fact.header.epoch == m.header.epoch && fact.header.generation == m.header.generation
    && StringField(fact.keyId) == Some(m.signature.value.keyId)
    && fact.kind == KindOf(m)
    && IsDigest(fact.signingDigest)
    && SigningProjectionMatches(fact.projection, m)
    && fact.refreshLiveness == (m.Heartbeat? && !a.replayed)
  }

  /** The projection the authenticator signs over and the one the bridge compares are the same. */
  lemma ProjectionsAgree(m: Uplink, scope: Scope, p: Projection)
    requires m.signature.Some?
    ensures SigningProjectionMatches(p, m) <==> p == ProjectUplink(CommandInput(m, scope).value)
  {
  }

  /** Whatever the authenticator accepts for a message, the bridge accepts for that message; the
      session it was accepted under is the message's own, in the deployment's scope. */
  lemma AuthenticatedIsBridgeAccepted(
      m: Uplink, scope: Scope, enabled: bool, found: Option<Session>, verified: Option<Verification>,
      now: Option<nat>, persisted: Persisted)
    requires m.signature.Some?
    ensures var r := Authenticate(enabled, CommandInput(m, scope).value, found, verified, now, persisted);
      r.Ok? ==>
        && BridgeAccepts(m, scope, r.value)
        && found.Some? && found.value.scope == scope && found.value.header == m.header && found.value.active
  {
    var input := CommandInput(m, scope).value;
    ProjectionsAgree(m, scope, ProjectUplink(input));
  }

  /** Minting and consuming commute. The fact minted for a delivery message is accepted for a
      delivery d exactly when d has the eleven fields of that message, the session revision is a
      positive safe integer, the message has not expired since, and the payload still has the
      signed digest. */
  lemma DeliveryConsumedExactly(
      m: Uplink, scope: Scope, enabled: bool, found: Option<Session>, verified: Option<Verification>,
      authenticatedAt: Option<nat>, persisted: Persisted,
      d: BusinessDelivery, now: nat, digestOf: Option<string>)
    requires m.Delivery? && m.signature.Some?
    requires Authenticate(enabled, CommandInput(m, scope).value, found, verified, authenticatedAt, persisted).Ok?
    ensures var a := Authenticate(enabled, CommandInput(m, scope).value, found, verified, authenticatedAt,
      persisted).value;
      && DecodableDelivery(ApplicationDelivery(m))
      && (ConsumeDelivery(true, a.fact, d, now, digestOf) == Consumed <==>
        && d == ApplicationDelivery(m)
        && 0 < found.value.revision <= MAXIMUM_SAFE_INTEGER
        && IsUint64(now) && (m.expiresAt.Some? ==> now < m.expiresAt.value)
        && digestOf == Some(m.id.digest))
  {
  }

  /** The same for a heartbeat: the fact is accepted for the observed instant it was signed with. */
  lemma HeartbeatConsumedExactly(
      m: Uplink, scope: Scope, enabled: bool, found: Option<Session>, verified: Option<Verification>,
      authenticatedAt: Option<nat>, persisted: Persisted, observedAt: nat, now: nat)
    requires m.Heartbeat? && m.signature.Some?
    requires Authenticate(enabled, CommandInput(m, scope).value, found, verified, authenticatedAt, persisted).Ok?
    ensures var a := Authenticate(enabled, CommandInput(m, scope).value, found, verified, authenticatedAt,
      persisted).value;
      ConsumeHeartbeat(true, a.fact, observedAt, now) == Consumed <==>
        observedAt == m.observedAt && 0 < found.value.revision <= MAXIMUM_SAFE_INTEGER && IsUint64(now)
  {
  }

  /** A fact's own fields repeat those of the projection that was signed. */
  ghost predicate Coherent(fact: Fact) {
    && 1 <= fact.revision <= 9_007_199_254_740_991 && IsDigest(fact.signingDigest)
    && fact.projection == fact.projection.(
      schema := "aether.cloudlink.uplink-signing.v1alpha1", gateway := fact.header.gateway,
      generation := fact.header.generation, session := fact.header.session, epoch := fact.header.epoch,
      kind := fact.kind)
  }

  /** What any fact, minted or not, is consumed for, and when refusal means expiry. */
  lemma ConsumptionExactly(genuine: bool, fact: Fact, d: BusinessDelivery, now: nat, digestOf: Option<string>)
    ensures var r := ConsumeDelivery(genuine, fact, d, now, digestOf);
      var sound := && genuine && Coherent(fact) && now <= MAXIMUM_UINT64 && d.sentAt <= MAXIMUM_UINT64
        && (d.expiresAt.Some? ==> d.expiresAt.value <= MAXIMUM_UINT64);
      && (r == RefusedExpired <==>
        sound && d.expiresAt.Some? && (d.expiresAt.value < d.sentAt || d.expiresAt.value <= now))
      && (r == Consumed <==>
        && sound && (d.expiresAt.Some? ==> d.sentAt <= d.expiresAt.value && now < d.expiresAt.value)
        && IsDigest(d.digest) && digestOf == Some(d.digest)
        && fact.projection == Projection("aether.cloudlink.uplink-signing.v1alpha1", fact.header.gateway,
          d.generation, d.session, d.epoch, DeliveryOf(d.kind), d.sentAt, d.expiresAt,
          Some(d.stream), Some(d.streamEpoch), Some(d.position), Some(d.batch), Some(d.digest)))
  {
  }

  /** The bridge accepts exactly the facts that the command would mint for the message: of a
      non-empty scope and identity, whatever their session revision and signing digest. */
  lemma BridgeAcceptsExactly(m: Uplink, scope: Scope, a: Authenticated)
    ensures BridgeAccepts(m, scope, a) <==>
      && m.signature.Some? && IsDigest(a.fact.signingDigest)
      && "" !in {scope.tenant, scope.project, m.header.gateway, m.header.session, m.signature.value.keyId}
      && a.fact == Fact(scope, m.header, a.fact.revision, m.signature.value.keyId, KindOf(m), a.fact.signingDigest,
        ProjectUplink(CommandInput(m, scope).value), m.Heartbeat? && !a.replayed)
  {
    if m.signature.Some? {
      ProjectionsAgree(m, scope, a.fact.projection);
    }
  }

  // ---------- minted facts are objects ----------

  /** A frozen fact object; consumers recognise it by identity, never by content. */
  class AuthenticationFact {
    const content: Fact

    constructor (content: Fact)
      ensures this.content == content
    {
      this.content := content;
    }
  }

  /** What the ports answered when a fact was minted. */
  datatype Evidence = Evidence(
    input: Input, session: Session, verification: Verification, now: nat, persisted: Persisted)

  /** The authentication command together with the set of facts it has minted. */
  class UplinkAuthenticator {
    const enabled: bool
    var authenticatedUplinkFacts: set<AuthenticationFact>
    ghost var evidence: map<AuthenticationFact, Evidence>

    /** Every minted object rests on a verified signature of an active key over its own projection,
        in the active session it names, and on a message that was fresh. */
    ghost predicate Valid()
      reads this
    {
      && evidence.Keys == authenticatedUplinkFacts
      && forall fact <- authenticatedUplinkFacts ::
        var e := evidence[fact];
        && Trusted(enabled, e.input, Some(e.session), Some(e.verification), Some(e.now))
        && Fresh(e.input.body, e.session.heartbeatInterval.value, e.now)
        && fact.content.scope == e.session.scope && fact.content.header == e.session.header
        && Some(fact.content.signingDigest) == e.verification.signingDigest
        && fact.content.projection == ProjectUplink(e.input)
    }

    constructor (enabled: bool)
      ensures Valid() && this.enabled == enabled && authenticatedUplinkFacts == {}
    {
      this.enabled := enabled;
      authenticatedUplinkFacts, evidence := {}, map[];
    }

    /** The arguments after `input` are the answers of the ports, in the order they are asked. */
    method Execute(
        input: Input, found: Option<Session>, verified: Option<Verification>,
        now: Option<nat>, persisted: Persisted)
      returns (r: Result<(bool, AuthenticationFact), Failure>)
      requires Valid()
      modifies this
      ensures Valid()
      ensures match Authenticate(enabled, input, found, verified, now, persisted)
        case Err(failure) => r == Err(failure) && authenticatedUplinkFacts == old(authenticatedUplinkFacts)
        case Ok(a) =>
          && r.Ok? && r.value.0 == a.replayed && r.value.1.content == a.fact && fresh(r.value.1)
          && authenticatedUplinkFacts == old(authenticatedUplinkFacts) + {r.value.1}
    {
      if !enabled { return Err(Disabled); }
      if !ValidInput(input) { return Err(InvalidInput); }
      if found.None? || !SessionMatches(found.value, input) { return Err(AuthenticationInvalid); }
      if verified.None? || !verified.value.keyActive || !verified.value.signatureVerified
        || verified.value.signingDigest.None? || !IsDigest(verified.value.signingDigest.value) {
        return Err(AuthenticationInvalid);
      }
      if now.None? || !IsUint64(now.value) { return Err(AuthenticationInvalid); }
      var session, signingDigest := found.value, verified.value.signingDigest.value;
      var freshness := ValidateFreshness(input.body, session.heartbeatInterval.value, now.value);
      if freshness.Some? { return Err(freshness.value); }
      var replayed, refresh := false, false;
      if input.body.HeartbeatBody? {
        if persisted.Unavailable? || persisted.Conflict? || persisted.Lower? { return Err(AuthenticationInvalid); }
        replayed := persisted.Replayed?;
        refresh := !replayed;
      }
      var fact := new AuthenticationFact(Mint(input, session, signingDigest, refresh));
      AuthenticatesExactly(enabled, input, found, verified, now, persisted);
      authenticatedUplinkFacts := authenticatedUplinkFacts + {fact};
      evidence := evidence[fact := Evidence(input, session, verified.value, now.value, persisted)];
      r := Ok((replayed, fact));
    }

    /** Revalidation at the business boundary, with the identity test of the fact object. */
    method ValidateDelivery(fact: AuthenticationFact, d: BusinessDelivery, now: nat, digestOf: Option<string>)
      returns (r: Consumption)
      ensures r == ConsumeDelivery(fact in authenticatedUplinkFacts, fact.content, d, now, digestOf)
      ensures fact !in authenticatedUplinkFacts ==> r == RefusedInvalid
      ensures r == Consumed ==>
        && digestOf == Some(d.digest) && fact.content.kind == DeliveryOf(d.kind)
        && fact.content.projection == Projection(SIGNING_SCHEMA, fact.content.header.gateway,
          d.generation, d.session, d.epoch, DeliveryOf(d.kind), d.sentAt, d.expiresAt,
          Some(d.stream), Some(d.streamEpoch), Some(d.position), Some(d.batch), Some(d.digest))
    {
      r := ConsumeDelivery(fact in authenticatedUplinkFacts, fact.content, d, now, digestOf);
    }
  }
}
