# AetherCloud CloudLink: verified models

A Dafny model of the CloudLink uplink path of AetherCloud and of the stateful components around it,
with proofs of what they keep over every run. `dafny verify dfyconfig.toml` checks everything.

Each asynchronous component is a state machine whose steps are the uninterrupted stretches between
its awaits. A step that is not enabled does nothing, so every finite sequence of steps is a run, and
the theorems quantify over all of them. Where the program updates an object in place, a class beside
the state machine does the same, and each of its methods is proved to perform exactly one step. The
classes of the ingress, the runtime, the scheduler and the limiter also keep a ghost record of their
steps; `Valid()` says that their fields are what that run leaves, so every result about runs is a
result about the object.

| file | what it models |
|---|---|
| `Ingress.dfy` | the per-Gateway promise chains of the MQTT ingress, its drain and its close |
| `Bridge.dfy` | the session map of the bridge, its handlers and the durable acknowledgements they earn |
| `BridgeOutcomes.dfy` | where each stretch of a handler leads, in both directions |
| `CloudLinkSystem.dfy` | ingress and bridge together, with all handlers interleaving |
| `SecondRecord.dfy` | a run of that system after which one Gateway has two records |
| `UplinkAuthentication.dfy` | signing projection, 64-bit freshness, minting and consuming of facts |
| `Base64Url.dfy` | the base64url codec of RFC 4648 section 5 and the signature's tail-bit test (section 3.5) |
| `CanonicalJson.dfy` | the canonical JSON printer and an RFC 8259 reader that undoes it |
| `JsonNumbers.dfy` | finite numbers as ECMA-262 section 6.1.6.1.20 prints them, and their reading |
| `Utf16.dfy` | UTF-16 text and its UTF-8 encoding (section 3 of RFC 3629) |
| `Enrollment.dfy` | Register, Issue and Claim racing over compare-and-swap storage |
| `EnrollmentOutcomes.dfy` | every outcome of an undisturbed command, of a lost race and of unavailable storage |
| `DurableAckWorker.dfy` | the outbox worker |
| `RateLimiter.dfy` | the bounded fixed-window limiter |
| `LimiterOrder.dfy` | the order of the limiter's keys and which of them a new one pushes out |
| `RuntimeLifecycle.dfy` | start and close of the CloudLink runtime |
| `HealthScheduler.dfy` | the health sweep scheduler |
| `TrustedCredentials.dfy` | decoding and lookup of trusted connector credentials |
| `Messages.dfy`, `Wrappers.dfy` | message types and patterns; Option and Result |

Safety alone would let a component refuse everything. So each operation is also characterised from the
outside, in both directions: which answers acknowledge a delivery and which defer or reject it, which
stored identity and which command end in success, in a replay and in each failure, which answers of the
ports mint a fact, which notation a number is printed in, and which key the limiter pushes out. These
lemmas speak of inputs, answers and stored values and not of the functions that compute the result; their
names end in `Exactly`.

The central result is about ingress and bridge together. On its own the bridge loses updates when two
handlers of one Gateway overlap (`Bridge.OverlapLosesBinding`, `Bridge.OverlapRevivesRecord`); under
the ingress queue no handler ever writes back a record that is not the stored one
(`CloudLinkSystem.CapturedRecordIsCurrent`).

What the models assume of the outside: the codec accepts a payload only on a topic of the Gateway that
the payload names; a session id belongs to one scope and Gateway, whether the session was opened in the
run, before it or by another replica, and the session and authentication commands never answer with a
session id under another owner; observers do not throw; the functions that start an ingress, a sweep or
a connect do not throw synchronously. Signatures, digests, storage, clocks and publishers are arbitrary answers.

Results that are not what a caller might expect, each stated by a lemma with its exact condition:

- A second `close()` of the health scheduler returns at once while a sweep may still be running; only
  the first call waits (`HealthScheduler.LaterCloseReturnsEarly`).
- `close()` of the runtime rejects when the start it found pending fails to connect, although nothing
  was left open (`RuntimeLifecycle.CloseRejectsExactly`, and a run that shows it,
  `RuntimeLifecycle.RejectsWithNothingOpenExample`).
- A stored enrollment claim's token is returned to some caller exactly when storage reported the write
  faithfully; when it was stored but reported as unavailable, no call ever returns the token
  (`Enrollment.TokenReturnedExactly`, and `Enrollment.LosingTokenExample`).
- A Gateway can have two records: exactly when an uplink restores a session that is authenticated but not
  cached while another record is there (`CloudLinkSystem.OneRecordExactly`, and
  `SecondRecord.TwoRecordsExample`).
- The limiter allows up to twice its maximum less one within one window length, and that bound is
  attained (`RateLimiter.IntervalBoundIsAttained`). It answers like unbounded per-key limiters exactly
  when its map has room for all the keys (`RateLimiter.AnsweredAsAloneExactly`); keys that keep evicting
  each other are never refused, however many the map holds (`RateLimiter.EvictionForgetsAttempts`).

## Model

| member | source | states |
|---|---|---|
| `CloudLinkSystem.RunKeepsInv` | apps/cloudlink/src/cloudlink-mqtt-application-bridge.ts:888-995 | in every interleaving of deliveries, handlers and close calls: queue discipline, ownership of records, currency of captured records and correctness of acknowledgements all hold |
| `CloudLinkSystem.CapturedRecordIsCurrent` | apps/cloudlink/src/cloudlink-mqtt-application-bridge.ts:1897-1900 | the record a suspended handler will write back is still the stored one, so no update is lost |
| `CloudLinkSystem.CaptureExcludesOpening` | apps/cloudlink/src/cloudlink-mqtt-ingress.ts:294-315 | while a handler holds a record, no other handler of that Gateway runs, so no hello can remove or replace the record |
| `CloudLinkSystem.SessionMapEvolves` | apps/cloudlink/src/cloudlink-mqtt-application-bridge.ts:1174-1201 | a map entry only disappears by an accepted hello of its Gateway, only appears by a restoration with the identity that was accepted or authenticated and no bindings, and is only rewritten by the handler that captured it |
| `CloudLinkSystem.BindingsAppendOnly` | apps/cloudlink/src/cloudlink-mqtt-application-bridge.ts:1943-1981 | while a session stays cached its identity is fixed and no stream binding is dropped or rebound, manifest reports included |
| `CloudLinkSystem.HelloLeavesOneRecord` | apps/cloudlink/src/cloudlink-mqtt-application-bridge.ts:1174-1201 | after an accepted and restored hello exactly one record remains for that tenant, project and Gateway, with the accepted identity |
| `CloudLinkSystem.OneRecordExactly` | apps/cloudlink/src/cloudlink-mqtt-application-bridge.ts:843-886 | a Gateway with at most one record keeps at most one, except exactly when the session of an authenticated uplink is restored beside another record |
| `SecondRecord.TwoRecordsExample` | apps/cloudlink/src/cloudlink-mqtt-application-bridge.ts:843-886 | heartbeats of two sessions of one Gateway, neither opened in the run, end in two records for it |
| `CloudLinkSystem.CloseLeavesNoHandler` | apps/cloudlink/src/cloudlink-mqtt-ingress.ts:328-334 | once a close call has reached the transport there is no bridge handler, then or after any further steps, and none can begin |
| `CloudLinkSystem.BusinessIsEligible` | apps/cloudlink/src/cloudlink-mqtt-application-bridge.ts:1908-1957 | a business command runs only for the stored session of the message, and only if that session declares the extension, the stream is free or bound alike, and the needed port exists |
| `CloudLinkSystem.SignedUplinksAreVerified` | apps/cloudlink/src/cloudlink-mqtt-application-bridge.ts:777-886 | no handler works on or restores a Gateway-signed session before its own message was verified in the same handling |
| `CloudLinkSystem.AcksAreEarned` | apps/cloudlink/src/cloudlink-mqtt-application-bridge.ts:2211-2376 | every durable acknowledgement carries exactly the identity of the message handled, has the persisted receipt or the one named after the batch, rests on an answer that earned it (durable, without gap, or with a matching receipt), and is the only one of its delivery |
| `CloudLinkSystem.AckFollowsBusinessSuccess` | apps/cloudlink/src/cloudlink-mqtt-application-bridge.ts:2151-2246 | a step hands out at most one acknowledgement, and only the step in which a business or cursor command of that delivery succeeded, with the value of its business command |
| `CloudLinkSystem.AckRestsOnBusinessAnswer` | apps/cloudlink/src/cloudlink-mqtt-application-bridge.ts:1836-1906 | every acknowledgement rests on a successful answer that the business command of its own delivery gave earlier in the run, also across a cursor command |
| `CloudLinkSystem.AcknowledgedExactly` | apps/cloudlink/src/cloudlink-mqtt-application-bridge.ts:1836-2351 | on the answer of its business command a delivery is acknowledged exactly if the answer is sufficient for its kind and for the stored session, then with the one acknowledgement that is due; it is deferred exactly on a delivery gap or for a committed report without acknowledgement; and only a committed report changes the stored session |
| `CloudLinkSystem.CursorAcknowledgedExactly` | apps/cloudlink/src/cloudlink-mqtt-application-bridge.ts:1871-1906 | a manifest report that waits for its cursor is acknowledged, and its protocols stored, exactly if the cursor command succeeds |
| `CloudLinkSystem.BegunExactly` | apps/cloudlink/src/cloudlink-mqtt-application-bridge.ts:888-995 | which deliveries go to the credential lookup, to a session command, to authentication, to their business command, are rejected, or are discarded |
| `CloudLinkSystem.PublishedExactly` | apps/cloudlink/src/cloudlink-mqtt-application-bridge.ts:2353-2376 | a delivery ends as acknowledged exactly if its acknowledgement was published |
| `CloudLinkSystem.VouchedDeliveryExactly` | apps/cloudlink/src/cloudlink-mqtt-application-bridge.ts:906-995 | the whole way of a delivery of a cached connector session: it ends acknowledged exactly if it is eligible and unexpired, the answer is sufficient, no cursor is due and publication succeeds |
| `CloudLinkSystem.SignedDeliveryExactly` | apps/cloudlink/src/cloudlink-mqtt-application-bridge.ts:777-995 | the same for a delivery of a cached Gateway-signed session, through the verification of its own signature |
| `CloudLinkSystem.OutcomeTellsAck` | apps/cloudlink/src/cloudlink-mqtt-application-bridge.ts:2353-2376 | a delivery that ends as acknowledged was acknowledged, and one that ends deferred, rejected or discarded was not |
| `CloudLinkSystem.DeliveriesNeverStall` | apps/cloudlink/src/cloudlink-mqtt-ingress.ts:294-315 | behind every unsettled delivery one of its key can begin, go on or finish |
| `CloudLinkSystem.RepliesBringHandlerNearer` | apps/cloudlink/src/cloudlink-mqtt-application-bridge.ts:888-995 | a handler ends after at most six replies, and nothing but its own reply changes where it waits |
| `Bridge.ProceedIsReliable` | apps/cloudlink/src/cloudlink-mqtt-application-bridge.ts:1174-1201 | each stretch keeps every record under its own session id and owner, touches only its own Gateway's records, and suspends with a current record |
| `Bridge.StretchEvolves` | apps/cloudlink/src/cloudlink-mqtt-application-bridge.ts:1836-1906 | all that one stretch may do to one entry of the session map |
| `Bridge.AcknowledgesOnlyEarned` | apps/cloudlink/src/cloudlink-mqtt-application-bridge.ts:2151-2246 | an acknowledgement leaves a stretch only on a successful business answer that earned it, for the message handled; the converse is `BridgeOutcomes.BusinessAnsweredExactly` |
| `BridgeOutcomes.BusinessAnsweredExactly` | apps/cloudlink/src/cloudlink-mqtt-application-bridge.ts:1836-2351 | the converse too: for each kind of delivery exactly which answers are acknowledged, and with what, which are deferred and which rejected, and what is stored |
| `BridgeOutcomes.CursorAnsweredExactly` | apps/cloudlink/src/cloudlink-mqtt-application-bridge.ts:1871-1906 | a cursor answer acknowledges the report and stores its protocols, or rejects it |
| `BridgeOutcomes.ReceiptProvesExactly` | apps/cloudlink/src/cloudlink-mqtt-application-bridge.ts:343-422 | an Integration receipt proves the commit exactly if it is complete and written for this report under its generation, or, in a replay with a current acknowledgement, under an earlier one |
| `BridgeOutcomes.PersistedIsUsedExactly` | apps/cloudlink/src/cloudlink-mqtt-application-bridge.ts:2248-2315 | a persisted acknowledgement is used exactly if some event, scope, receipt and instant make it the one written for this delivery, and then its receipt and instant are used |
| `BridgeOutcomes.ControlIsUsedExactly` | apps/cloudlink/src/cloudlink-mqtt-application-bridge.ts:1657-1719 | the same for an action receipt in the scope of its session |
| `BridgeOutcomes.BeginsExactly` | apps/cloudlink/src/cloudlink-mqtt-application-bridge.ts:888-995 | the first stretch touches no session and acknowledges nothing, and where it leads, exactly |
| `BridgeOutcomes.SignedDispatchExactly` | apps/cloudlink/src/cloudlink-mqtt-application-bridge.ts:920-995 | where a verified uplink goes with its session: its business command if eligible, publication for a replayed heartbeat, and otherwise rejection or discarding |
| `BridgeOutcomes.AuthenticationExactly` | apps/cloudlink/src/cloudlink-mqtt-application-bridge.ts:810-886 | a verification leads on exactly for the cached signed session of that identity, or to a restoration when none is cached |
| `BridgeOutcomes.StreamsOpenExactly` | apps/cloudlink/src/cloudlink-mqtt-application-bridge.ts:1908-1957 | a bound stream is open to exactly the same kind and Integration, and binding it closes no other stream |
| `BridgeOutcomes.HelloExactly` | apps/cloudlink/src/cloudlink-mqtt-application-bridge.ts:1120-1182 | a hello is accepted exactly if what was granted is what it asked for, and then the sessions of its Gateway and no others are forgotten |
| `BridgeOutcomes.RestorationExactly` | apps/cloudlink/src/cloudlink-mqtt-application-bridge.ts:1183-1201 | a session is stored exactly when its protocols were restored, with the granted or authenticated identity and without bindings |
| `BridgeOutcomes.OtherRepliesExactly` | apps/cloudlink/src/cloudlink-mqtt-application-bridge.ts:1238-1290 | lookups, challenges, exceptions and publications touch no session, and where they lead |
| `Bridge.ProofComesFirst` | apps/cloudlink/src/cloudlink-mqtt-application-bridge.ts:777-886 | only a verification of the message, or earlier proof, leads a handler to a Gateway-signed session |
| `Bridge.UnauthenticatedIsConnectorAndFresh` | apps/cloudlink/src/cloudlink-mqtt-application-bridge.ts:920-960 | without authentication only an unexpired message of a cached trusted-connector session reaches a business command |
| `Bridge.RecordsEvolve` | apps/cloudlink/src/cloudlink-mqtt-application-bridge.ts:843-886 | how one stretch changes the set of a Gateway's stored sessions |
| `Bridge.PersistedDurableAck` | apps/cloudlink/src/cloudlink-mqtt-application-bridge.ts:2248-2315 | a persisted acknowledgement is used exactly when it is what is written for this very delivery, its Integration and message kind included |
| `Bridge.ControlDurableAck` | apps/cloudlink/src/cloudlink-mqtt-application-bridge.ts:1657-1719 | the acknowledgement of an action receipt is used exactly when it is for this very delivery in the scope of the session |
| `Bridge.OverlapLosesBinding` | apps/cloudlink/src/cloudlink-mqtt-application-bridge.ts:1959-1981 | two handlers that captured the same record would lose the first one's binding |
| `Bridge.OverlapRevivesRecord` | apps/cloudlink/src/cloudlink-mqtt-application-bridge.ts:1174-1182 | a handler overlapping an accepted hello of its Gateway would put the removed record back |
| `Bridge.ApplicationBridge.RemoveSessionsOf` | apps/cloudlink/src/cloudlink-mqtt-application-bridge.ts:1174-1182 | deleting while visiting removes exactly the records of the scope's Gateway |
| `Bridge.ApplicationBridge.AcceptSession` | apps/cloudlink/src/cloudlink-mqtt-application-bridge.ts:1120-1182 | the stretch after the session command, on the map in place |
| `Bridge.ApplicationBridge.OpenSession` | apps/cloudlink/src/cloudlink-mqtt-application-bridge.ts:1183-1201 | the restored session becomes the assertion of its Gateway, with no bindings |
| `Bridge.ApplicationBridge.Authenticated` | apps/cloudlink/src/cloudlink-mqtt-application-bridge.ts:810-879 | a verified uplink uses the cached session only if scope and identity agree |
| `Bridge.ApplicationBridge.RestoreSession` | apps/cloudlink/src/cloudlink-mqtt-application-bridge.ts:857-886 | the restored session of an authenticated uplink |
| `Bridge.ApplicationBridge.ManifestReported` | apps/cloudlink/src/cloudlink-mqtt-application-bridge.ts:1858-1906 | the answer to a manifest report: a refusal, the cursor command, or the record written back with the reported protocols and the acknowledgement |
| `Bridge.ApplicationBridge.CursorRecorded` | apps/cloudlink/src/cloudlink-mqtt-application-bridge.ts:1871-1906 | the same after the cursor command has answered, with the record captured before it |
| `Bridge.ApplicationBridge.IntegrationReported` | apps/cloudlink/src/cloudlink-mqtt-application-bridge.ts:1983-2149 | an Integration report that failed is refused or deferred; one that succeeded binds its stream only when a receipt proves it, and is acknowledged only with a matching acknowledgement |
| `Ingress.OneHandlerPerKey` | apps/cloudlink/src/cloudlink-mqtt-ingress.ts:294-308 | handlers that run at the same time have different queue keys |
| `Ingress.HandledInArrivalOrder` | apps/cloudlink/src/cloudlink-mqtt-ingress.ts:294-308 | a delivery begins only after every earlier one of its key has begun and settled |
| `Ingress.HandledExactlyOnce` | apps/cloudlink/src/cloudlink-mqtt-ingress.ts:294-308 | no delivery is handled twice, and a settled one was handled |
| `Ingress.TailIsNewest` | apps/cloudlink/src/cloudlink-mqtt-ingress.ts:308-315 | while a key has unsettled work its tail is its most recently enqueued work, so the conditional deletion never breaks a chain |
| `Ingress.NeverStalls` | apps/cloudlink/src/cloudlink-mqtt-ingress.ts:294-315 | behind every unsettled delivery there is one of its key that runs or can begin |
| `Ingress.WorksAreAcceptedDeliveries` | apps/cloudlink/src/cloudlink-mqtt-ingress.ts:281-310 | exactly the non-retained QoS 1 deliveries before the first close are enqueued, in arrival order, under the key of their topic |
| `Ingress.TransportClosesIdle` | apps/cloudlink/src/cloudlink-mqtt-ingress.ts:327-333 | once a close call has reached the transport no handler is queued or running, then or later |
| `Ingress.UplinkTopicKey` | apps/cloudlink/src/cloudlink-mqtt-ingress.ts:99-105 | all uplink topics of a Gateway share that Gateway as queue key |
| `Ingress.QueueKeyExactly` | apps/cloudlink/src/cloudlink-mqtt-ingress.ts:99-105 | the queue key of a topic is the Gateway it names, and of every other topic the topic itself |
| `Ingress.TailsExactly` | apps/cloudlink/src/cloudlink-mqtt-ingress.ts:308-315 | a key has a tail exactly while its newest work has not been cleaned up, and that work is the tail, so the map of tails never outgrows the unfinished work |
| `Ingress.CloseCallExactly` | apps/cloudlink/src/cloudlink-mqtt-ingress.ts:327-331 | a close call returns at once exactly if an earlier one has returned, and otherwise drains exactly the works in flight |
| `Ingress.CloseGoesOnExactly` | apps/cloudlink/src/cloudlink-mqtt-ingress.ts:327-333 | a drain ends exactly when no work is queued or running, and the transport is closed after it |
| `Ingress.MqttIngress.OnEvent` | apps/cloudlink/src/cloudlink-mqtt-ingress.ts:281-309 | the subscription callback is the delivery step, and the object stays the result of a run |
| `Ingress.MqttIngress.OnSettled` | apps/cloudlink/src/cloudlink-mqtt-ingress.ts:310-315 | the completion callback is the cleanup step, and the object stays the result of a run |
| `Ingress.MqttIngress.Close` | apps/cloudlink/src/cloudlink-mqtt-ingress.ts:327-333 | close blocks new work before it takes its snapshot |
| `UplinkAuthentication.HeartbeatFreshExactly` | packages/application/src/cloudlink-uplink-authentication.ts:731-765 | a heartbeat is fresh exactly when all three boundaries fit in 64 bits and the observation lies in the window, in unbounded integers |
| `UplinkAuthentication.CheckedAdd` | packages/application/src/cloudlink-uplink-authentication.ts:723-725 | undefined exactly on overflow |
| `UplinkAuthentication.CheckedMultiplyIsExact` | packages/application/src/cloudlink-uplink-authentication.ts:727-729 | the quotient test is undefined exactly on overflow |
| `UplinkAuthentication.CommandInputExactly` | apps/cloudlink/src/cloudlink-mqtt-application-bridge.ts:777-800 | the command is asked about every signed message, with its own fields and the scope of the deployment |
| `UplinkAuthentication.ValidInputExactly` | packages/application/src/cloudlink-uplink-authentication.ts:563-650 | an input is valid exactly with all identities, numbers of 64 bits, a positive position, and a signature that encodes 64 octets |
| `UplinkAuthentication.AuthenticatesExactly` | packages/application/src/cloudlink-uplink-authentication.ts:796-911 | a fact is minted exactly if the feature is enabled, the input valid, the session its own and active, the signature verified by an active key over a well-formed digest, the clock in range, the message fresh and a heartbeat accepted or replayed; and every field of the fact |
| `UplinkAuthentication.FailsExactly` | packages/application/src/cloudlink-uplink-authentication.ts:796-911 | the exact condition of each failure |
| `UplinkAuthentication.ProjectionExactly` | packages/application/src/cloudlink-uplink-authentication.ts:668-699 | the thirteen signed fields of each kind of message |
| `UplinkAuthentication.ConsumptionExactly` | packages/application/src/cloudlink-uplink-authentication.ts:243-338 | for any fact, minted or not, exactly the deliveries it is consumed for, and exactly when refusal means expiry |
| `UplinkAuthentication.BridgeAcceptsExactly` | apps/cloudlink/src/cloudlink-mqtt-application-bridge.ts:810-842 | the bridge accepts exactly the facts that the command would mint for the message, whatever their revision and signing digest |
| `UplinkAuthentication.DeliveryConsumedExactly` | packages/application/src/cloudlink-uplink-authentication.ts:243-338 | the fact minted for a delivery is consumed exactly for the delivery with its eleven fields, before expiry, with a positive session revision and the signed digest |
| `UplinkAuthentication.HeartbeatConsumedExactly` | packages/application/src/cloudlink-uplink-authentication.ts:243-338 | the fact minted for a heartbeat is consumed exactly for the signed instant |
| `UplinkAuthentication.AuthenticatedIsBridgeAccepted` | apps/cloudlink/src/cloudlink-mqtt-application-bridge.ts:810-842 | whatever the authenticator accepts for a message, the bridge accepts for it, under that message's active session |
| `UplinkAuthentication.ProjectionsAgree` | apps/cloudlink/src/cloudlink-mqtt-application-bridge.ts:532-585 | the projection the bridge compares is exactly the one that was signed |
| `UplinkAuthentication.UplinkAuthenticator.Execute` | packages/application/src/cloudlink-uplink-authentication.ts:796-911 | the answer of the command; a success adds one new fact object to the minted set and a failure none, and every object in it was minted under a verified signature of an active key, in the session it names, for a fresh message |
| `UplinkAuthentication.UplinkAuthenticator.ValidateDelivery` | packages/application/src/cloudlink-uplink-authentication.ts:243-338 | an object that was not minted is refused whatever it contains, and consumption fixes all thirteen signed fields |
| `Base64Url.DecodeUndoesEncode` | scripts/home-assistant-e2e-gateway-session.ts:239-246 | decoding an encoding gives the octets back, for every length |
| `Base64Url.EncodeUndoesDecode` | scripts/home-assistant-e2e-gateway-session.ts:239-246 | re-encoding a decoding gives the text back exactly when its spare bits are zero |
| `Base64Url.DecodeKeepsBits` | scripts/home-assistant-e2e-gateway-session.ts:239-246 | bit n of the octets is bit n of the sextets they were decoded from |
| `Base64Url.EncodeKeepsBits` | scripts/home-assistant-e2e-gateway-session.ts:239-246 | the same for encoding, with zero bits at the end |
| `Base64Url.TailBitTestIsReencodeTest` | packages/application/src/cloudlink-uplink-authentication.ts:522-539 | the tail-bit test accepts exactly the strings that decode to 64 bytes and re-encode to themselves |
| `Base64Url.SignaturesAreOctetStrings` | packages/application/src/cloudlink-uplink-authentication.ts:522-539 | accepted signatures and 64-byte strings are in bijection |
| `Base64Url.IndexOfIsAlphabetIndex` | packages/application/src/cloudlink-uplink-authentication.ts:36-37 | the sextet of a character is its place in the alphabet, in which no character is repeated |
| `CanonicalJson.CanonicalIffSameMeaning` | scripts/home-assistant-e2e-gateway-session.ts:46-67 | two values, finite numbers included, print alike exactly when they are equal up to member order |
| `CanonicalJson.CanonicalBytesIffSameMeaning` | scripts/home-assistant-e2e-gateway-session.ts:69-71 | the same of the signed UTF-8 bytes |
| `CanonicalJson.ReadsBack` | scripts/home-assistant-e2e-gateway-session.ts:46-67 | a reader gets the printed value back from any text that starts with its print, a number only where it ends; so no other value prints a prefix of it |
| `CanonicalJson.SameMeaningPrintsAlike` | scripts/home-assistant-e2e-gateway-session.ts:46-67 | member order does not change the print |
| `CanonicalJson.SortMembersSorts` | scripts/home-assistant-e2e-gateway-session.ts:60-65 | sorting orders distinct keys by UTF-16 units and keeps the fields |
| `CanonicalJson.ReadEscapedText` | scripts/home-assistant-e2e-gateway-session.ts:47-53 | string escaping is undone by reading, for every string of UTF-16 units |
| `CanonicalJson.CanonicalIsWellFormed` | scripts/home-assistant-e2e-gateway-session.ts:46-67 | lone surrogates are escaped, so a print is well-formed UTF-16 and its encoding loses nothing |
| `CanonicalJson.TextLessExactly` | scripts/home-assistant-e2e-gateway-session.ts:60-65 | the key order: the smaller unit at the first difference, and a proper prefix first |
| `CanonicalJson.EscapeExactly` | scripts/home-assistant-e2e-gateway-session.ts:47-53 | how each unit is printed: its two-unit escape if it has one, four lower-case hexadecimal digits, or itself |
| `CanonicalJson.EscapeJoins` | scripts/home-assistant-e2e-gateway-session.ts:47-53 | text is escaped piece by piece wherever no surrogate pair is cut |
| `CanonicalJson.ArrayExactly` | scripts/home-assistant-e2e-gateway-session.ts:57-59 | an array prints as its items in order, separated by commas, in brackets |
| `CanonicalJson.ObjectExactly` | scripts/home-assistant-e2e-gateway-session.ts:60-66 | an object prints as its members in increasing key order, each once, as quoted key, colon and value |
| `CanonicalJson.ScalarsExactly` | scripts/home-assistant-e2e-gateway-session.ts:47-56 | the prints of null, the booleans, numbers and strings |
| `JsonNumbers.NumberReadsBack` | scripts/home-assistant-e2e-gateway-session.ts:54-56 | the print of every finite number reads back as that number, in all of its four notations |
| `JsonNumbers.NotationExactly` | scripts/home-assistant-e2e-gateway-session.ts:54-56 | which notation a number is printed in depends on its decimal point alone, and the notation fixes every unit of the print |
| `JsonNumbers.RunIsTheNumber` | scripts/home-assistant-e2e-gateway-session.ts:54-56 | a printed number ends where a unit follows that no number contains |
| `Utf16.Utf8ReadsBack` | scripts/home-assistant-e2e-gateway-session.ts:69-71 | well-formed text is read back from its UTF-8 bytes |
| `Utf16.Utf8UnitExactly` | scripts/home-assistant-e2e-gateway-session.ts:69-71 | the bytes of each unit, with U+FFFD for a lone surrogate |
| `Utf16.FourBytesExactly` | scripts/home-assistant-e2e-gateway-session.ts:69-71 | the four bytes of a surrogate pair carry its code point |
| `Utf16.Utf8Joins` | scripts/home-assistant-e2e-gateway-session.ts:69-71 | text is encoded piece by piece wherever no surrogate pair is cut |
| `Enrollment.StoredOnlyAdvances` | packages/domain/src/gateway-enrollment.ts:116-239 | over every interleaving stored state only moves registered, awaiting claim, claimed, and outcomes are final |
| `Enrollment.OneTokenReturned` | packages/application/src/gateway-enrollment.ts:509-579 | at most one call ever returns an enrollment token |
| `Enrollment.TokenReturnedExactly` | packages/application/src/gateway-enrollment.ts:526-579 | once a claim is stored, some call ever returns its token exactly when storage reported that write faithfully, and then it is the call that wrote |
| `Enrollment.ClaimHasItsWrite` | packages/application/src/gateway-enrollment.ts:526-545 | a stored claim was stored by the write of one Issue on the registered identity |
| `Enrollment.LosingTokenExample` | packages/application/src/gateway-enrollment.ts:540-545 | a run in which the claim is stored and no continuation ever returns its token |
| `Enrollment.IssuesAgree` | packages/application/src/gateway-enrollment.ts:473-579 | successful Issue calls agree on request, expiry and claim, and those without a token are replays |
| `Enrollment.ClaimsAgree` | packages/application/src/gateway-enrollment.ts:629-714 | every successful claim presented a token with the issued digest, all bind one credential, and one of them is not a replay at most |
| `Enrollment.FailureStoredNothing` | packages/application/src/gateway-enrollment.ts:540-570 | an execution that failed for any reason but storage stored nothing |
| `Enrollment.NeverStuck` | packages/application/src/gateway-enrollment.ts:343-411 | no execution is ever stuck |
| `Enrollment.ReturnsWithinFourSteps` | packages/application/src/gateway-enrollment.ts:473-579 | each execution returns after at most four steps of its own, and the steps of others do not change where it is |
| `EnrollmentOutcomes.UndisturbedExactly` | packages/application/src/gateway-enrollment.ts:343-714 | from any run, what an undisturbed Register, Issue or Claim returns and stores: the exact condition of a first success, of a replay and of each failure, by the stored identity, the command, the clock and the token service; a write that is not reported faithfully turns exactly a first success into unavailable storage |
| `EnrollmentOutcomes.ClaimAlone` | packages/application/src/gateway-enrollment.ts:629-714 | of a Claim: it succeeds first exactly for a pending claim with the digest of its token, in its window and in the time of the command, and replays exactly for the same request and credential |
| `EnrollmentOutcomes.IssueAlone` | packages/application/src/gateway-enrollment.ts:473-579 | of an Issue: it returns a token exactly for a registered identity, a confirmed and timely command and an issued token, and replays exactly for the same request and expiry |
| `EnrollmentOutcomes.RegisterAlone` | packages/application/src/gateway-enrollment.ts:343-411 | of a Register: it stores exactly an identity that was not there, and replays exactly for the same request and trimmed name |
| `EnrollmentOutcomes.UnansweredFindExactly` | packages/application/src/gateway-enrollment.ts:363-369 | a find that storage does not answer ends exactly the commands that were let through |
| `EnrollmentOutcomes.LostRaceExactly` | packages/application/src/gateway-enrollment.ts:545-570 | a write that comes too late stores nothing, and is answered with what the winner stored exactly if that is what it would have stored |
| `EnrollmentOutcomes.TrimExactly` | packages/domain/src/gateway-enrollment.ts:116-139 | trimming cuts off the white space at both ends, all of it, and nothing else |
| `Enrollment.RunKeepsInv` | packages/application/src/gateway-enrollment.ts:473-579 | what every suspended execution holds was given to it or stored when it looked, and every outcome is true of the stored history |
| `Enrollment.Execution.OnFind` | packages/application/src/gateway-enrollment.ts:343-402 | the stretches after the first and the second find |
| `Enrollment.Execution.OnTokenIssued` | packages/application/src/gateway-enrollment.ts:509-525 | the stretch after the token was issued |
| `Enrollment.Execution.OnTokenMatched` | packages/application/src/gateway-enrollment.ts:636-664 | the stretch after the token was matched: refused, replayed, or on its way to the write; `EnrollmentOutcomes.ClaimAlone` says exactly when |
| `Enrollment.Execution.OnWrite` | packages/application/src/gateway-enrollment.ts:526-579 | the write and the stretch after it |
| `Enrollment.GatewayRepository.Insert` | adapters/fleet/memory/src/in-memory-gateway-identity-repository.ts:40-50 | insert if absent, and an exception for an identity that is not registered |
| `Enrollment.GatewayRepository.Replace` | adapters/fleet/memory/src/in-memory-gateway-identity-repository.ts:52-65 | replace if the revision is the expected one |
| `DurableAckWorker.Deliver` | packages/application/src/cloudlink-durable-ack.ts:51-115 | nothing is published for a bad claim; otherwise the calls are those of the first items in order, all completed items were confirmed, counts add up to the claim, and an early failure is that of the last attempted item |
| `DurableAckWorker.CheckClaim` | packages/application/src/cloudlink-durable-ack.ts:57-70 | the check accepts exactly the claims within the limit, of the own scope and without duplicates |
| `DurableAckWorker.PublishAll` | packages/application/src/cloudlink-durable-ack.ts:72-114 | the loop attempts items in order until one is not confirmed, and its counts and outcome say so |
| `DurableAckWorker.AttemptsAreSingleAndMarksEarned` | packages/application/src/cloudlink-durable-ack.ts:72-109 | each item is published at most once, a mark follows the item's own successful publication, a release a failed one, and later items were never published |
| `DurableAckWorker.ErrorCodeOf` | packages/application/src/cloudlink-durable-ack.ts:35-37 | whatever the publisher reports, the stored error code matches the safe pattern |
| `DurableAckWorker.ErrorCodeExactly` | packages/application/src/cloudlink-durable-ack.ts:35-37 | which code is stored: the given one if it is safe, and otherwise one of two fixed ones |
| `DurableAckWorker.RefusedExactly` | packages/application/src/cloudlink-durable-ack.ts:24-33 | an input is refused exactly for one of seven faults |
| `DurableAckWorker.CallsExactly` | packages/application/src/cloudlink-durable-ack.ts:72-109 | exactly two calls for each attempted item, in order, field by field |
| `DurableAckWorker.CountExactly` | packages/application/src/cloudlink-durable-ack.ts:72-109 | the published count is the number of items whose publication succeeded |
| `RateLimiter.SizeIsBounded` | apps/api/src/enrollment-claim-rate-limiter.ts:28-36 | the map never exceeds its bound and has one entry for a key |
| `RateLimiter.AnswersAsAlone` | apps/api/src/enrollment-claim-rate-limiter.ts:27-47 | a key that was not evicted is answered as by a limiter of its own |
| `RateLimiter.FewKeysAnswerAsAlone` | apps/api/src/enrollment-claim-rate-limiter.ts:28-46 | when the map has room for all the keys called, every answer is that of unbounded per-key limiters |
| `RateLimiter.EvictionForgetsAttempts` | apps/api/src/enrollment-claim-rate-limiter.ts:33-36 | when every key differs from as many keys before it as the map holds, every attempt is granted |
| `RateLimiter.SpacedKeysRotate` | apps/api/src/enrollment-claim-rate-limiter.ts:33-46 | the map is then exactly the last keys called, in order |
| `RateLimiter.AnsweredAsAloneExactly` | apps/api/src/enrollment-claim-rate-limiter.ts:27-47 | for callers from a set of keys, every sequence of calls is answered as by unbounded per-key limiters exactly when the map has room for all of them |
| `RateLimiter.WindowGrantsAtMost` | apps/api/src/enrollment-claim-rate-limiter.ts:27-47 | while a key is not evicted, the map grants it per window exactly what the counter says, at most maximumAttempts |
| `RateLimiter.IntervalGrantsAtMost` | apps/api/src/enrollment-claim-rate-limiter.ts:27-47 | while a key is not evicted, the map grants it in any half-open interval of one window length fewer than twice maximumAttempts |
| `RateLimiter.IntervalBoundIsAttained` | apps/api/src/enrollment-claim-rate-limiter.ts:27-47 | that bound is attained by the map, for a key that is not evicted |
| `RateLimiter.FixedWindowLimiter.Allow` | apps/api/src/enrollment-claim-rate-limiter.ts:27-47 | allow on the insertion-ordered map in place answers the call as the run of all calls so far says and leaves the entries of that run in their order |
| `LimiterOrder.CallAnsweredExactly` | apps/api/src/enrollment-claim-rate-limiter.ts:27-47 | an attempt is refused exactly when the window of its key is running and full, and what the window is afterwards |
| `LimiterOrder.CallReorders` | apps/api/src/enrollment-claim-rate-limiter.ts:33-46 | the order law of one call: a counted attempt moves its key to the end, a refusal or a restart keeps the order, a new key goes last and pushes the first one out of a full map |
| `LimiterOrder.KeysMoveExactly` | apps/api/src/enrollment-claim-rate-limiter.ts:33-46 | the same over runs, where the keys stand in the order of their last insertion or counted attempt |
| `LimiterOrder.EvictsExactly` | apps/api/src/enrollment-claim-rate-limiter.ts:33-36 | a call pushes a key out exactly if its own is new and the map is full, and then the one whose last insertion or counted attempt lies furthest back |
| `RuntimeLifecycle.OneIngressEver` | apps/cloudlink/src/runtime.ts:375-407 | at most one ingress is ever connected, and running means that it is open or draining |
| `RuntimeLifecycle.PoolEndsOnce` | apps/cloudlink/src/runtime.ts:408-429 | the pool is ended once, after everything else has come to rest |
| `RuntimeLifecycle.FulfilledStaysClosed` | apps/cloudlink/src/runtime.ts:378-429 | once close has fulfilled every ingress is closed and nothing changes any more |
| `RuntimeLifecycle.CloseRejectsExactly` | apps/cloudlink/src/runtime.ts:411-427 | close rejects exactly when the awaited connect, the closing of the ingress or the ending of the pool failed |
| `RuntimeLifecycle.RejectsWithNothingOpenExample` | apps/cloudlink/src/runtime.ts:411-427 | a run in which close rejects with nothing connected and the pool ended |
| `RuntimeLifecycle.NoStartAfterClose` | apps/cloudlink/src/runtime.ts:378-406 | after the first close call every start is refused and a pending connect becomes an orphan that is closed |
| `RuntimeLifecycle.StartsShareOneAttempt` | apps/cloudlink/src/runtime.ts:388-406 | concurrent start calls share one attempt |
| `RuntimeLifecycle.StartBeginsExactly` | apps/cloudlink/src/runtime.ts:378-406 | a start call begins an attempt exactly in a runtime that was never closed, does not run and connects nothing, also after failed attempts; and when it is told closed or already running |
| `RuntimeLifecycle.ConnectEndsExactly` | apps/cloudlink/src/runtime.ts:388-406 | a connect that completes fails the attempt, makes the runtime run, or is closed again if close was called meanwhile |
| `RuntimeLifecycle.OrphanEndsExactly` | apps/cloudlink/src/runtime.ts:394-400 | an ingress connected too late is closed, and the attempt ends as that went |
| `RuntimeLifecycle.CloseAwaitsExactly` | apps/cloudlink/src/runtime.ts:408-419 | the first close call waits for exactly the attempt that is pending then, and later calls change nothing |
| `RuntimeLifecycle.CloseGoesOnExactly` | apps/cloudlink/src/runtime.ts:411-421 | close gives up on the ingress exactly if the awaited attempt ended otherwise than by the expected hand-off, and otherwise closes what runs |
| `RuntimeLifecycle.CloseEndsExactly` | apps/cloudlink/src/runtime.ts:420-426 | the pool is ended after the ingress, however its closing went, and close settles as both went |
| `RuntimeLifecycle.CloseNeverStuck` | apps/cloudlink/src/runtime.ts:408-429 | a close that has not settled waits for something that can complete |
| `RuntimeLifecycle.CompletionsBringCloseNearer` | apps/cloudlink/src/runtime.ts:408-429 | every completion brings close nearer to settling and new calls do not delay it |
| `RuntimeLifecycle.CloudLinkRuntime.Start` | apps/cloudlink/src/runtime.ts:378-393 | a start call refuses, joins or begins an attempt |
| `RuntimeLifecycle.CloudLinkRuntime.OnConnected` | apps/cloudlink/src/runtime.ts:392-404 | the stretch after the connect, with its re-check of closing |
| `RuntimeLifecycle.CloudLinkRuntime.Close` | apps/cloudlink/src/runtime.ts:408-428 | all close calls share one promise |
| `RuntimeLifecycle.CloudLinkRuntime.OnStartAwaited` | apps/cloudlink/src/runtime.ts:417-420 | only the expected hand-off is swallowed |
| `RuntimeLifecycle.CloudLinkRuntime.OnIngressClosed` | apps/cloudlink/src/runtime.ts:420-426 | the pool is released even when the ingress failed to close |
| `HealthScheduler.OneSweepOrTimer` | apps/api/src/cloudlink-health-scheduler.ts:32-56 | while open, exactly one of a running sweep and an armed timer |
| `HealthScheduler.NeverStalls` | apps/api/src/cloudlink-health-scheduler.ts:32-56 | a sweep's end arms the timer and the timer starts a sweep |
| `HealthScheduler.FirstCloseIsFinal` | apps/api/src/cloudlink-health-scheduler.ts:58-66 | once the first close has resolved no sweep runs or ever starts |
| `HealthScheduler.FirstCloseResolves` | apps/api/src/cloudlink-health-scheduler.ts:58-66 | the first close waits for at most the sweep in flight |
| `HealthScheduler.LaterCloseReturnsEarly` | apps/api/src/cloudlink-health-scheduler.ts:60-61 | a close returns while a sweep runs exactly when an earlier close still waits for it |
| `HealthScheduler.SecondCloseExample` | apps/api/src/cloudlink-health-scheduler.ts:60-61 | two close calls in a row show it |
| `HealthScheduler.CloudLinkHealthScheduler.OnSweepEnded` | apps/api/src/cloudlink-health-scheduler.ts:52-55 | the final continuation of a sweep |
| `HealthScheduler.CloudLinkHealthScheduler.Close` | apps/api/src/cloudlink-health-scheduler.ts:60-65 | close clears the timer and remembers the sweep in flight |
| `TrustedCredentials.Decode` | apps/cloudlink/src/trusted-connector-credentials.ts:86-167 | accepts exactly 1 to 64 well-formed entries with distinct ids, in order, and otherwise reports the first fault of the first faulty entry |
| `TrustedCredentials.FaultIsExact` | apps/cloudlink/src/trusted-connector-credentials.ts:112-163 | the checks of one entry are exactly what keeps the list acceptable |
| `TrustedCredentials.FaultExactly` | apps/cloudlink/src/trusted-connector-credentials.ts:112-163 | which fault an entry is given: the first of the checks it fails |
| `TrustedCredentials.CanonicalUint64Exactly` | apps/cloudlink/src/trusted-connector-credentials.ts:147-154 | the accepted generations are exactly the decimal forms of the 64-bit numbers |
| `TrustedCredentials.Utf8LengthExactly` | apps/cloudlink/src/trusted-connector-credentials.ts:155-163 | a character counts as the least number of octets that can carry it, and a text as the sum |
| `TrustedCredentials.LookupIsExact` | apps/cloudlink/src/trusted-connector-credentials.ts:200-226 | a request of arbitrary strings finds a credential exactly when it is that credential's own triple |
| `TrustedCredentials.KeyIsInjective` | apps/cloudlink/src/trusted-connector-credentials.ts:203-224 | embedded NULs cannot make another triple's key |
| `TrustedCredentials.ConfiguredCredentials.Execute` | apps/cloudlink/src/trusted-connector-credentials.ts:216-241 | with a decoded configuration a request is answered exactly when it is a configured credential's own triple, and with that credential's id and proof |

## Left out

- MQTT transport, the wire codec, HTTP routes, PostgreSQL pools and process signals: library wrappers.
- Ed25519, SHA-256 and canonical payload digests: answers of ports, about which nothing is assumed.
- Decimal strings of the wire are modelled by their values, and UUID and identifier parsing in the authentication command by non-emptiness.
- JsonNumbers.Number: a finite number is given by its shortest decimal digits, which ECMA-262 derives from the double; that derivation is not modelled, and zero and negative zero are one number, as they are in print.
- CanonicalJson.Canonical: values that are not JSON, for which the printer throws, have no counterpart in the model.
- The payload decoders of Integration reports, instants that cannot be converted, and payloads that cannot be encoded for publication.
- After an accepted hello the bridge also re-offers Integration controls when they are enabled; that reads the record it has just stored and is folded into the final publication.
- `pumpIntegrationControl` bypasses the Gateway queue and only reads the session map; the serialisation results do not cover it.
- Bridge.BindingKey: a pair of stream and epoch instead of one string joined by a NUL character.
- CloudLinkSystem.HelloLeavesOneRecord: speaks of the moment a hello has been restored; what may follow is said exactly by `CloudLinkSystem.OneRecordExactly`.
- Ingress: `drain()` on its own only waits and is modelled as part of close.
- HealthScheduler.Initial: the interval and batch size checks of the scheduler and the observer's calls.
- RuntimeLifecycle.Release: a runtime without a projection pool is one whose pool ends at once.
- TrustedCredentials.Utf8Length: strings are sequences of Unicode scalar values, so proofs with lone surrogates are not modelled.
- Enrollment.Submitted: decoding of contexts and identifiers is reduced to the name and token checks; audit evidence is left out.
- Enrollment.Matched: the token is compared by the equality of digests rather than in constant time.
- `GetGatewayEnrollment`, provider discovery, MCP tools and the artifact, deployment, job, alarm and data-export use cases would only add single-branch members.
