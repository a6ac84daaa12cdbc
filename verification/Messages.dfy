/** Decoded CloudLink uplinks and the textual patterns their fields must match.

    Decimal strings of the wire are modelled by their values: the wire admits only the canonical
    decimal form, so equal strings are equal numbers. */
module CloudLinkMessages {
  import opened Wrappers

  const MAXIMUM_UINT64 := 18_446_744_073_709_551_615

  /** The trusted deployment cell, never read from a message. */
  datatype Scope = Scope(tenant: string, project: string)

  datatype DeliveryKind =
    | DataLoss | ActionReceipt | ObservationBatch | TopologySnapshot | ManifestReport | TelemetryBatch

  datatype MessageKind = HeartbeatKind | DeliveryOf(kind: DeliveryKind)

  datatype Header = Header(gateway: string, session: string, epoch: nat, generation: nat)

  datatype Signature = Signature(keyId: string, text: string)

  datatype DeliveryId = DeliveryId(stream: string, streamEpoch: nat, position: nat, batch: string, digest: string)

  /** The parts of a payload that decide how the bridge treats it. */
  datatype Payload = Payload(
    protocols: Option<set<string>>,
    integration: Option<string>,
    snapshotGeneration: Option<string>,
    payloadBatch: Option<string>,
    samples: nat)

  datatype Uplink =
    | Heartbeat(header: Header, signature: Option<Signature>, observedAt: nat)
    | Delivery(header: Header, signature: Option<Signature>, kind: DeliveryKind,
        sentAt: nat, expiresAt: Option<nat>, id: DeliveryId, payload: Payload)

  function KindOf(m: Uplink): MessageKind {
    if m.Heartbeat? then HeartbeatKind else DeliveryOf(m.kind)
  }

  predicate IsUint64(n: nat) {
    n <= MAXIMUM_UINT64
  }

  predicate IsAlphanumeric(c: char) {
    'A' <= c <= 'Z' || 'a' <= c <= 'z' || '0' <= c <= '9'
  }

  /** An alphanumeric character, then letters, digits, dots, underscores, colons and hyphens. */
  predicate IsIdentifier(s: string, minimum: nat, maximum: nat) {
    && minimum <= |s| <= maximum && s != "" && IsAlphanumeric(s[0])
    && forall c <- s :: IsAlphanumeric(c) || c == '.' || c == '_' || c == ':' || c == '-'
  }

  predicate IsLowerHex(s: string) {
    forall c <- s :: '0' <= c <= '9' || 'a' <= c <= 'f'
  }

  predicate IsDigest(s: string) {
    |s| == 71 && s[..7] == "sha256:" && IsLowerHex(s[7..])
  }

  predicate IsBatchId(s: string) {
    IsIdentifier(s, 1, 128)
  }
}
