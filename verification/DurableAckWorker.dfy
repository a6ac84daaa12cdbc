/** The worker that delivers persisted durable acknowledgements from the outbox: it claims a batch,
    checks it, then publishes each acknowledgement and marks or releases it. */
module DurableAckWorker {
  import opened Wrappers
  import opened CloudLinkMessages

  /** An outbox entry; `body` is everything the publisher sends besides its identity and scope. */
  datatype Acknowledgement = Acknowledgement(event: string, scope: Scope, body: string)

  /** `limit` is None when the given number is not an integer. */
  datatype Input = Input(
    scope: Scope, workerId: string, now: nat, leaseExpiresAt: nat, limit: Option<int>, retryAt: nat)

  datatype Publication = Published | Unavailable(errorCode: string) | PublisherThrew

  /** A completion is confirmed, refused for any reason, or throws. */
  datatype Completion = Confirmed | Refused | Threw

  datatype Claim = ClaimUnavailable | ClaimThrew | Claimed(items: seq<Acknowledgement>)

  /** How the ports answer: the claim, and the calls made for the i-th claimed item. */
  datatype Ports = Ports(claim: Claim, publish: nat -> Publication, mark: nat -> Completion, release: nat -> Completion)

  datatype Call =
    | Publish(item: Acknowledgement)
    | MarkPublished(scope: Scope, workerId: string, event: string, publishedAt: nat)
    | ReleaseForRetry(scope: Scope, workerId: string, event: string, retryAt: nat, errorCode: string)

  datatype Outcome =
    | Completed(claimed: nat, published: nat, deferred: nat)
    | InvalidInput
    | StorageUnavailable
    | Rejected

  predicate ValidInput(input: Input) {
    && IsIdentifier(input.workerId, 8, 128) && input.limit.Some? && 1 <= input.limit.value <= 100
    && input.leaseExpiresAt > input.now && input.retryAt >= input.now
  }

  predicate IsErrorCode(s: string) {
    && 1 <= |s| <= 64 && 'a' <= s[0] <= 'z'
    && forall c <- s :: 'a' <= c <= 'z' || '0' <= c <= '9' || c == '-'
  }

  function ErrorCodeOf(publication: Publication): (r: string)
    requires !publication.Published?
    ensures IsErrorCode(r)
  {
    if publication.PublisherThrew? then "publisher-exception"
    else if IsErrorCode(publication.errorCode) then publication.errorCode
    else "publisher-unavailable"
  }

  // ---------- what a delivery does ----------

  ghost predicate DistinctEvents(items: seq<Acknowledgement>) {
    forall i: nat, j: nat | i < j < |items| :: items[i].event != items[j].event
  }

  /** A claim the worker acts on: within the limit, all of its own scope and without duplicates. */
  ghost predicate Deliverable(input: Input, items: seq<Acknowledgement>)
    requires ValidInput(input)
  {
    |items| <= input.limit.value && (forall i: nat | i < |items| :: items[i].scope == input.scope)
      && DistinctEvents(items)
  }

  function Completes(input: Input, item: Acknowledgement, publication: Publication): Call {
    if publication.Published? then MarkPublished(input.scope, input.workerId, item.event, input.now)
    else ReleaseForRetry(input.scope, input.workerId, item.event, input.retryAt, ErrorCodeOf(publication))
  }

  function CompletionOf(ports: Ports, i: nat): Completion {
    if ports.publish(i).Published? then ports.mark(i) else ports.release(i)
  }

  /** The calls for the first k items, in order: each is published, then marked or released. */
  function CallsFor(input: Input, ports: Ports, items: seq<Acknowledgement>, k: nat): seq<Call>
    requires k <= |items|
  {
    if k == 0 then []
    else
      var last := [Publish(items[k - 1]), Completes(input, items[k - 1], ports.publish(k - 1))];
      CallsFor(input, ports, items, k - 1) + last
  }

  function CountPublished(ports: Ports, n: nat): (r: nat)
    ensures r <= n
  {
    if n == 0 then 0 else CountPublished(ports, n - 1) + if ports.publish(n - 1).Published? then 1 else 0
  }

  /** What a delivery of a claim it acts on leaves behind: the calls of the first k items, all
      confirmed but perhaps the last, and an outcome that says so. */
  ghost predicate Delivered(
      input: Input, ports: Ports, items: seq<Acknowledgement>, outcome: Outcome, calls: seq<Call>, k: nat)
  {
    && k <= |items| && calls == CallsFor(input, ports, items, k)
    && match outcome
      case Completed(claimed, published, deferred) =>
        && k == |items| == claimed && (forall i: nat | i < k :: CompletionOf(ports, i).Confirmed?)
        && published == CountPublished(ports, k) && published + deferred == claimed
      case _ =>
        && k > 0 && (forall i: nat | i < k - 1 :: CompletionOf(ports, i).Confirmed?)
        && !CompletionOf(ports, k - 1).Confirmed?
        && outcome == if CompletionOf(ports, k - 1).Threw? then Rejected else StorageUnavailable
  }

  /** The check of the claimed items, with the set of event ids seen so far. */
  method CheckClaim(input: Input, items: seq<Acknowledgement>) returns (ok: bool)
    requires ValidInput(input)
    ensures ok <==> Deliverable(input, items)
  {
    if |items| > input.limit.value { return false; }
    var eventIds := {};
    for i := 0 to |items|
      invariant eventIds == set j: nat | j < i :: items[j].event
      invariant forall j: nat | j < i :: items[j].scope == input.scope
      invariant DistinctEvents(items[..i])
    {
      if items[i].scope != input.scope || items[i].event in eventIds { return false; }
      eventIds := eventIds + {items[i].event};
    }
    assert items[..|items|] == items;
    ok := true;
  }

  /** One round of the loop: publish the item, then mark or release it. */
  method Attempt(input: Input, ports: Ports, item: Acknowledgement, i: nat)
    returns (publication: Publication, completion: Completion, calls: seq<Call>)
    ensures publication == ports.publish(i) && completion == CompletionOf(ports, i)
    ensures calls == [Publish(item), Completes(input, item, publication)]
  {
    publication := ports.publish(i);
    if publication.Published? {
      calls := [Publish(item), MarkPublished(input.scope, input.workerId, item.event, input.now)];
      completion := ports.mark(i);
    } else {
      var code := ErrorCodeOf(publication);
      calls := [Publish(item), ReleaseForRetry(input.scope, input.workerId, item.event, input.retryAt, code)];
      completion := ports.release(i);
    }
  }

  /** The loop that attempts each item until one is not confirmed. */
  method PublishAll(input: Input, ports: Ports, items: seq<Acknowledgement>)
    returns (outcome: Outcome, calls: seq<Call>)
    ensures exists attempted: nat :: Delivered(input, ports, items, outcome, calls, attempted)
  {
    var published, deferred := 0, 0;
    calls := [];
    for i := 0 to |items|
      invariant calls == CallsFor(input, ports, items, i)
      invariant forall j: nat | j < i :: CompletionOf(ports, j).Confirmed?
      invariant published == CountPublished(ports, i) && published + deferred == i
    {
      var publication, completion, made := Attempt(input, ports, items[i], i);
      calls := calls + made;
      assert calls == CallsFor(input, ports, items, i + 1);
      if !completion.Confirmed? {
        outcome := if completion.Threw? then Rejected else StorageUnavailable;
        assert Delivered(input, ports, items, outcome, calls, i + 1);
        return;
      }
      if publication.Published? {
        published := published + 1;
      } else {
        deferred := deferred + 1;
      }
    }
    outcome := Completed(|items|, published, deferred);
    assert Delivered(input, ports, items, outcome, calls, |items|);
  }

  method Deliver(input: Input, ports: Ports) returns (outcome: Outcome, calls: seq<Call>)
    ensures outcome.InvalidInput? <==> !ValidInput(input)
    ensures !ValidInput(input) || !ports.claim.Claimed? || !Deliverable(input, ports.claim.items) ==> calls == []
    ensures ValidInput(input) && !(ports.claim.Claimed? && Deliverable(input, ports.claim.items)) ==>
      outcome == if ports.claim.ClaimThrew? then Rejected else StorageUnavailable
    ensures ValidInput(input) && ports.claim.Claimed? && Deliverable(input, ports.claim.items) ==>
      && (exists k: nat :: Delivered(input, ports, ports.claim.items, outcome, calls, k))
      && (outcome.Completed? ==> outcome.published + outcome.deferred == outcome.claimed <= input.limit.value)
  {
    calls := [];
    if !ValidInput(input) { return InvalidInput, calls; }
    if ports.claim.ClaimThrew? { return Rejected, calls; }
    if ports.claim.ClaimUnavailable? { return StorageUnavailable, calls; }
    var ok := CheckClaim(input, ports.claim.items);
    if !ok { return StorageUnavailable, calls; }
    outcome, calls := PublishAll(input, ports, ports.claim.items);
  }

  // ---------- what the calls are ----------

  /** A bad worker id, a limit that is no number from 1 to 100, a lease that has run out, or a retry
      in the past. */
  ghost predicate Faulty(input: Input) {
    || input.limit.None? || input.limit.value < 1 || input.limit.value > 100
    || input.leaseExpiresAt <= input.now || input.retryAt < input.now
    || |input.workerId| < 8 || |input.workerId| > 128 || !IsAlphanumeric(input.workerId[0])
    || exists c <- input.workerId :: !IsAlphanumeric(c) && c !in "._:-"
  }

  lemma RefusedExactly(input: Input)
    ensures ValidInput(input) <==> !Faulty(input)
  {
  }

  /** The code that is stored for an item that was not published. */
  lemma ErrorCodeExactly(publication: Publication)
    requires !publication.Published?
    ensures publication.PublisherThrew? ==> ErrorCodeOf(publication) == "publisher-exception"
    ensures publication.Unavailable? ==>
      ErrorCodeOf(publication) ==
        if IsErrorCode(publication.errorCode) then publication.errorCode else "publisher-unavailable"
  {
  }

  /** The two calls made for the j-th item, field by field. */
  ghost predicate AttemptIs(input: Input, publication: Publication, item: Acknowledgement, first: Call, second: Call) {
    && first == Publish(item)
    && (publication.Published? ==>
      second == MarkPublished(input.scope, input.workerId, item.event, input.now))
    && (!publication.Published? ==>
      second == ReleaseForRetry(input.scope, input.workerId, item.event, input.retryAt, ErrorCodeOf(publication)))
  }

  /** Exactly two calls are made for each attempted item, in the order of the items. */
  lemma {:induction false} CallsExactly(input: Input, ports: Ports, items: seq<Acknowledgement>, k: nat, j: nat)
    requires k <= |items|
    ensures var calls := CallsFor(input, ports, items, k);
      && |calls| == 2 * k
      && (j < k ==> AttemptIs(input, ports.publish(j), items[j], calls[2 * j], calls[2 * j + 1]))
  {
    if k > 0 {
      CallsExactly(input, ports, items, k - 1, j);
    }
  }

  function PublishedItems(ports: Ports, n: nat): set<nat> {
    set i: nat | i < n && ports.publish(i).Published?
  }

  lemma PublishedItemsGrow(ports: Ports, n: nat)
    ensures PublishedItems(ports, n + 1) == PublishedItems(ports, n) + (if ports.publish(n).Published? then {n} else {})
    ensures n !in PublishedItems(ports, n)
  {
  }

  /** The count is the number of items whose publication succeeded. */
  lemma {:induction false} CountExactly(ports: Ports, n: nat)
    ensures CountPublished(ports, n) == |PublishedItems(ports, n)|
  {
    if n > 0 {
      CountExactly(ports, n - 1);
      PublishedItemsGrow(ports, n - 1);
    }
  }

  ghost predicate PublishedOnce(calls: seq<Call>) {
    forall p: nat, q: nat | p < q < |calls| && calls[p].Publish? && calls[q].Publish? ::
      calls[p].item.event != calls[q].item.event
  }

  /** The call before p published one of the first k items, and p marks it just when that succeeded. */
  ghost predicate PublishedItem(ports: Ports, items: seq<Acknowledgement>, calls: seq<Call>, k: nat, p: nat)
    requires k <= |items| && 0 < p < |calls| && calls[p - 1].Publish?
  {
    exists i: nat ::
      i < k && calls[p - 1].item == items[i] && (calls[p].MarkPublished? <==> ports.publish(i).Published?)
  }

  /** A completion follows the publication of its own item, and marks it just when that succeeded. */
  ghost predicate CompletedAsPublished(ports: Ports, items: seq<Acknowledgement>, calls: seq<Call>, k: nat)
    requires k <= |items|
  {
    forall p: nat | p < |calls| && !calls[p].Publish? ::
      && p > 0 && calls[p - 1].Publish? && calls[p - 1].item.event == calls[p].event
      && (calls[p].ReleaseForRetry? ==> IsErrorCode(calls[p].errorCode))
      && PublishedItem(ports, items, calls, k, p)
  }

  ghost predicate OnlyFirst(items: seq<Acknowledgement>, calls: seq<Call>, k: nat)
    requires k <= |items|
  {
    forall p: nat | p < |calls| && calls[p].Publish? :: calls[p].item in items[..k]
  }

  /** Among the calls of a delivery every item is published at most once, nothing is marked but an
      item whose own publication has just succeeded, and what was not attempted was not published. */
  lemma {:induction false} AttemptsAreSingleAndMarksEarned(
      input: Input, ports: Ports, items: seq<Acknowledgement>, k: nat)
    requires DistinctEvents(items) && k <= |items|
    ensures var calls := CallsFor(input, ports, items, k);
      PublishedOnce(calls) && CompletedAsPublished(ports, items, calls, k) && OnlyFirst(items, calls, k)
  {
    if k > 0 {
      AttemptsAreSingleAndMarksEarned(input, ports, items, k - 1);
      var before := CallsFor(input, ports, items, k - 1);
      var completion := Completes(input, items[k - 1], ports.publish(k - 1));
      PairKeepsOnce(items, before, k, completion);
      PairKeepsFirst(items, before, k, completion);
      PairKeepsCompleted(ports, items, before, k, completion);
    }
  }

  lemma PairKeepsFirst(items: seq<Acknowledgement>, before: seq<Call>, k: nat, completion: Call)
    requires 0 < k <= |items| && OnlyFirst(items, before, k - 1) && !completion.Publish?
    ensures OnlyFirst(items, before + [Publish(items[k - 1]), completion], k)
  {
    assert items[..k] == items[..k - 1] + [items[k - 1]];
  }

  lemma PairKeepsOnce(items: seq<Acknowledgement>, before: seq<Call>, k: nat, completion: Call)
    requires 0 < k <= |items| && DistinctEvents(items) && PublishedOnce(before) && OnlyFirst(items, before, k - 1)
    requires !completion.Publish?
    ensures PublishedOnce(before + [Publish(items[k - 1]), completion])
  {
  }

  lemma PairKeepsCompleted(ports: Ports, items: seq<Acknowledgement>, before: seq<Call>, k: nat, completion: Call)
    requires 0 < k <= |items| && CompletedAsPublished(ports, items, before, k - 1)
    requires !completion.Publish? && completion.event == items[k - 1].event
    requires completion.MarkPublished? <==> ports.publish(k - 1).Published?
    requires completion.ReleaseForRetry? ==> IsErrorCode(completion.errorCode)
    ensures CompletedAsPublished(ports, items, before + [Publish(items[k - 1]), completion], k)
  {
    var calls := before + [Publish(items[k - 1]), completion];
    forall p: nat | p < |calls| && !calls[p].Publish?
      ensures p > 0 && calls[p - 1].Publish? && calls[p - 1].item.event == calls[p].event
      ensures calls[p].ReleaseForRetry? ==> IsErrorCode(calls[p].errorCode)
      ensures PublishedItem(ports, items, calls, k, p)
    {
      if p < |before| {
        assert calls[p] == before[p] && calls[p - 1] == before[p - 1];
      } else {
        assert calls[p - 1].item == items[k - 1];
      }
    }
  }
}
