/**
 The host-connected relay queue (src/tunnel/relay.ts).

 A participant request waits in memory until the host tunnel client claims it over
 a poll and posts the response back. `Hub` is the abstract state: the two maps of
 the source plus the history the exactly-once claim talks about. The operations on
 `Hub` follow the source branch by branch and need no invariant; `RelayHub` is the
 mutable object, proved to move `Hub` by exactly these operations.
 */
module Relay {
  import opened Collections

  datatype Slug = Slug(text: string)
  datatype RequestId = RequestId(text: string)

  datatype Envelope = Envelope(verb: string, path: string, body: Option<string>)

  datatype ForwardedRequest = ForwardedRequest(requestId: RequestId, routeSlug: Slug, envelope: Envelope)

  datatype ForwardedResponse = ForwardedResponse(status: nat, bodyBytes: nat)

  datatype ErrorCode = HostUnavailable | ResponseTooLarge | RouteClosed

  datatype Outcome = Resolved(response: ForwardedResponse) | Rejected(code: ErrorCode)

  datatype RespondResult = Accepted | UnknownRequest | RefusedTooLarge

  /** `serial` is the request's position in the enqueue log, kept for the ordering claims only. */
  datatype InFlight = InFlight(request: ForwardedRequest, slug: Slug, claimed: bool, serial: nat)

  /** One call of a promise's `resolve` or `reject`. */
  datatype Settlement = Settlement(id: RequestId, outcome: Outcome)

  /** One request handed to a host by a poll. */
  datatype Handoff = Handoff(slug: Slug, id: RequestId, serial: nat)

  datatype Hub = Hub(
    pending: map<Slug, seq<RequestId>>,
    inflight: map<RequestId, InFlight>,
    log: seq<RequestId>,             // every id ever enqueued, in enqueue order
    settlements: seq<Settlement>,    // every settle call, in order
    handed: seq<Handoff>)            // every hand-over, in order

  const EMPTY := Hub(map[], map[], [], [], [])

  // ---- the operations of the source, on values ----

  function Enqueued(h: Hub, slug: Slug, envelope: Envelope, id: RequestId): Hub {
    var queue := if slug in h.pending then h.pending[slug] else [];
    h.(inflight := h.inflight[id := InFlight(ForwardedRequest(id, slug, envelope), slug, false, |h.log|)],
       pending := h.pending[slug := queue + [id]],
       log := h.log + [id])
  }

  /** How many ids the claim loop shifts off the queue, up to and including the one it takes. */
  function ShiftsToClaim(queue: seq<RequestId>, inflight: map<RequestId, InFlight>): (n: nat)
    ensures n <= |queue|
    ensures forall k :: 0 <= k < n - 1 ==> queue[k] !in inflight || inflight[queue[k]].claimed
  {
    if queue == [] then 0
    else if queue[0] in inflight && !inflight[queue[0]].claimed then 1
    else
      var rest := ShiftsToClaim(queue[1..], inflight);
      assert forall k :: 0 < k < |queue| ==> queue[k] == queue[1..][k - 1];
      1 + rest
  }

  function Claimable(queue: seq<RequestId>, inflight: map<RequestId, InFlight>): Option<RequestId> {
    if queue == [] then None
    else if queue[0] in inflight && !inflight[queue[0]].claimed then Some(queue[0])
    else Claimable(queue[1..], inflight)
  }

  lemma ClaimableIsInFlight(queue: seq<RequestId>, inflight: map<RequestId, InFlight>)
    ensures Claimable(queue, inflight).Some? ==>
              var id := Claimable(queue, inflight).value;
              id in queue && id in inflight && !inflight[id].claimed
  {
  }

  function SetQueue(pending: map<Slug, seq<RequestId>>, slug: Slug, queue: seq<RequestId>): map<Slug, seq<RequestId>> {
    if queue == [] then pending - {slug} else pending[slug := queue]
  }

  function ClaimedNext(h: Hub, slug: Slug): (Hub, Option<ForwardedRequest>) {
    if slug !in h.pending then (h, None)
    else
      var queue := h.pending[slug];
      var rest := queue[ShiftsToClaim(queue, h.inflight)..];
      var shifted := h.(pending := SetQueue(h.pending, slug, rest));
      ClaimableIsInFlight(queue, h.inflight);
      match Claimable(queue, h.inflight)
      case None => (shifted, None)
      case Some(id) =>
        var item := h.inflight[id];
        (shifted.(inflight := h.inflight[id := item.(claimed := true)],
                  handed := h.handed + [Handoff(slug, id, item.serial)]),
         Some(item.request))
  }

  function Removed(h: Hub, id: RequestId): Hub {
    if id !in h.inflight then h
    else
      var slug := h.inflight[id].slug;
      var unlinked := h.(inflight := h.inflight - {id});
      if slug !in h.pending then unlinked
      else unlinked.(pending := SetQueue(h.pending, slug, RemoveFirst(h.pending[slug], id)))
  }

  function SettledWith(h: Hub, id: RequestId, outcome: Outcome): Hub {
    var removed := Removed(h, id);
    removed.(settlements := h.settlements + [Settlement(id, outcome)])
  }

  /** `fail`: also what both timers run when they fire. */
  function Failed(h: Hub, id: RequestId, code: ErrorCode): Hub {
    if id in h.inflight then SettledWith(h, id, Rejected(code)) else h
  }

  function Responded(h: Hub, id: RequestId, response: ForwardedResponse, maxBytes: nat): (Hub, RespondResult) {
    if id !in h.inflight then (h, UnknownRequest)
    else if response.bodyBytes > maxBytes then (Failed(h, id, ResponseTooLarge), RefusedTooLarge)
    else (SettledWith(h, id, Resolved(response)), Accepted)
  }

  /** Fail each listed id that belongs to `slug`, in list order. */
  function FailAll(h: Hub, ids: seq<RequestId>, slug: Slug): Hub
    decreases |ids|
  {
    if ids == [] then h
    else
      var next := if ids[0] in h.inflight && h.inflight[ids[0]].slug == slug then Failed(h, ids[0], RouteClosed) else h;
      FailAll(next, ids[1..], slug)
  }

  // ---- the invariant ----

  predicate IsWaiting(inflight: map<RequestId, InFlight>, slug: Slug, id: RequestId) {
    id in inflight && inflight[id].slug == slug && !inflight[id].claimed
  }

  /** The in-flight unclaimed ids of a slug, in enqueue order. */
  function Waiting(log: seq<RequestId>, inflight: map<RequestId, InFlight>, slug: Slug): seq<RequestId> {
    if log == [] then []
    else
      var last := log[|log| - 1];
      var earlier := Waiting(log[..|log| - 1], inflight, slug);
      if IsWaiting(inflight, slug, last) then earlier + [last] else earlier
  }

  function QueueOf(h: Hub, slug: Slug): seq<RequestId> {
    if slug in h.pending then h.pending[slug] else []
  }

  ghost function SettledIds(settlements: seq<Settlement>): set<RequestId> {
    set i | 0 <= i < |settlements| :: settlements[i].id
  }

  ghost function HandedIds(handed: seq<Handoff>): set<RequestId> {
    set i | 0 <= i < |handed| :: handed[i].id
  }

  ghost predicate SettledOnce(settlements: seq<Settlement>) {
    forall i, j :: 0 <= i < j < |settlements| ==> settlements[i].id != settlements[j].id
  }

  ghost predicate HandedOnce(handed: seq<Handoff>) {
    forall i, j :: 0 <= i < j < |handed| ==> handed[i].id != handed[j].id
  }

  ghost predicate QueuesAreWaiting(h: Hub) {
    && (forall slug :: slug in h.pending ==> h.pending[slug] != [])
    && (forall slug :: QueueOf(h, slug) == Waiting(h.log, h.inflight, slug))
  }

  /** Every enqueued id is in flight or settled, never both, and nothing else is either. */
  ghost predicate Accounted(h: Hub) {
    && NoDuplicates(h.log)
    && SettledOnce(h.settlements)
    && h.inflight.Keys !! SettledIds(h.settlements)
    && (forall id :: id in h.log <==> id in h.inflight || id in SettledIds(h.settlements))
    && (forall id :: id in h.inflight ==>
          var item := h.inflight[id];
          item.request.requestId == id && item.serial < |h.log| && h.log[item.serial] == id)
  }

  /** Per slug, hand-over order is enqueue order, and what still waits was enqueued later. */
  ghost predicate HandedInOrder(h: Hub) {
    && HandedOnce(h.handed)
    && (forall id :: id in h.inflight ==> (h.inflight[id].claimed <==> id in HandedIds(h.handed)))
    && (forall i :: 0 <= i < |h.handed| ==> h.handed[i].serial < |h.log| && h.log[h.handed[i].serial] == h.handed[i].id)
    && (forall i, j :: 0 <= i < j < |h.handed| && h.handed[i].slug == h.handed[j].slug ==>
          h.handed[i].serial < h.handed[j].serial)
    && (forall i, id :: 0 <= i < |h.handed| && IsWaiting(h.inflight, h.handed[i].slug, id) ==>
          h.handed[i].serial < h.inflight[id].serial)
  }

  ghost predicate Inv(h: Hub) {
    Accounted(h) && QueuesAreWaiting(h) && HandedInOrder(h)
  }

  // ---- facts about the waiting list ----

  lemma WaitingMembers(log: seq<RequestId>, inflight: map<RequestId, InFlight>, slug: Slug, id: RequestId)
    ensures id in Waiting(log, inflight, slug) <==> id in log && IsWaiting(inflight, slug, id)
  {
    if log != [] {
      assert log == log[..|log| - 1] + [log[|log| - 1]];
      WaitingMembers(log[..|log| - 1], inflight, slug, id);
    }
  }

  /** The waiting list depends only on which logged ids wait. */
  lemma {:induction false} WaitingCongruent(log: seq<RequestId>, a: map<RequestId, InFlight>, b: map<RequestId, InFlight>, slug: Slug)
    requires forall id :: id in log ==> (IsWaiting(a, slug, id) <==> IsWaiting(b, slug, id))
    ensures Waiting(log, a, slug) == Waiting(log, b, slug)
  {
    if log != [] {
      assert log[|log| - 1] in log;
      WaitingCongruent(log[..|log| - 1], a, b, slug);
    }
  }

  lemma WaitingLast(log: seq<RequestId>, inflight: map<RequestId, InFlight>, slug: Slug, last: RequestId)
    ensures Waiting(log + [last], inflight, slug) ==
            if IsWaiting(inflight, slug, last) then Waiting(log, inflight, slug) + [last] else Waiting(log, inflight, slug)
  {
    assert (log + [last])[..|log|] == log;
  }

  /** If exactly `id` stops waiting, the list loses exactly its occurrence of `id`. */
  lemma {:induction false} WaitingLoses(log: seq<RequestId>, a: map<RequestId, InFlight>, b: map<RequestId, InFlight>, slug: Slug, id: RequestId)
    requires NoDuplicates(log)
    requires !IsWaiting(b, slug, id)
    requires forall x :: x in log && x != id ==> (IsWaiting(a, slug, x) <==> IsWaiting(b, slug, x))
    ensures Waiting(log, b, slug) == RemoveFirst(Waiting(log, a, slug), id)
  {
    if log != [] {
      var front, last := log[..|log| - 1], log[|log| - 1];
      LastIsNew(log);
      hide RemoveFirst, Waiting;
      assert log == front + [last];
      WaitingLast(front, a, slug, last);
      WaitingLast(front, b, slug, last);
      WaitingMembers(front, a, slug, id);
      if last == id {
        WaitingCongruent(front, a, b, slug);
        RemoveFirstAbsent(Waiting(front, a, slug), id);
        RemoveFirstIsLast(Waiting(front, a, slug), id);
      } else {
        WaitingLoses(front, a, b, slug, id);
        RemoveFirstBeforeLast(Waiting(front, a, slug), id, last);
      }
    }
  }

  /** Position of the head of the waiting list: nothing logged before it waits. */
  lemma {:induction false} WaitingHead(log: seq<RequestId>, inflight: map<RequestId, InFlight>, slug: Slug) returns (p: nat)
    requires Waiting(log, inflight, slug) != []
    ensures p < |log| && log[p] == Waiting(log, inflight, slug)[0] && IsWaiting(inflight, slug, log[p])
    ensures forall q :: 0 <= q < p ==> !IsWaiting(inflight, slug, log[q])
  {
    var front := log[..|log| - 1];
    if Waiting(front, inflight, slug) != [] {
      p := WaitingHead(front, inflight, slug);
    } else {
      p := |log| - 1;
      forall q | 0 <= q < p ensures !IsWaiting(inflight, slug, log[q]) {
        WaitingMembers(front, inflight, slug, log[q]);
        assert log[q] == front[q] && front[q] in front;
      }
    }
  }

  // ---- every operation keeps the invariant ----

  lemma EnqueueKeepsQueues(h: Hub, slug: Slug, envelope: Envelope, id: RequestId)
    requires Inv(h) && id !in h.log
    ensures QueuesAreWaiting(Enqueued(h, slug, envelope, id))
  {
    var next := Enqueued(h, slug, envelope, id);
    forall s ensures QueueOf(next, s) == Waiting(next.log, next.inflight, s) {
      assert QueueOf(h, s) == Waiting(h.log, h.inflight, s);
      WaitingCongruent(h.log, h.inflight, next.inflight, s);
      hide Waiting;
      WaitingLast(h.log, next.inflight, s, id);
    }
  }

  lemma EnqueueKeepsAccounted(h: Hub, slug: Slug, envelope: Envelope, id: RequestId)
    requires Accounted(h) && id !in h.log
    ensures Accounted(Enqueued(h, slug, envelope, id))
  {
    SnocKeepsNoDuplicates(h.log, id);
  }

  lemma EnqueueKeepsOrder(h: Hub, slug: Slug, envelope: Envelope, id: RequestId)
    requires Accounted(h) && HandedInOrder(h) && id !in h.log
    ensures HandedInOrder(Enqueued(h, slug, envelope, id))
  {
    hide NoDuplicates, SettledOnce;
    assert id !in HandedIds(h.handed) by {
      assert forall i :: 0 <= i < |h.handed| ==> h.handed[i].id in h.log;
    }
  }

  lemma EnqueueKeeps(h: Hub, slug: Slug, envelope: Envelope, id: RequestId)
    requires Inv(h) && id !in h.log
    ensures Inv(Enqueued(h, slug, envelope, id))
  {
    hide Accounted, QueuesAreWaiting, HandedInOrder;
    EnqueueKeepsQueues(h, slug, envelope, id);
    EnqueueKeepsAccounted(h, slug, envelope, id);
    EnqueueKeepsOrder(h, slug, envelope, id);
  }

  lemma ClaimTakesHead(h: Hub, slug: Slug)
    requires Inv(h) && slug in h.pending
    ensures var queue := h.pending[slug];
            && queue == Waiting(h.log, h.inflight, slug) && queue != []
            && IsWaiting(h.inflight, slug, queue[0])
            && Claimable(queue, h.inflight) == Some(queue[0]) && ShiftsToClaim(queue, h.inflight) == 1
            && (forall id :: IsWaiting(h.inflight, slug, id) ==> h.inflight[queue[0]].serial <= h.inflight[id].serial)
  {
    var queue := h.pending[slug];
    assert QueueOf(h, slug) == queue;
    var p := WaitingHead(h.log, h.inflight, slug);
    assert h.inflight[queue[0]].serial == p;
  }

  lemma ClaimKeepsQueues(h: Hub, slug: Slug)
    requires Inv(h) && slug in h.pending
    ensures QueuesAreWaiting(ClaimedNext(h, slug).0)
  {
    ClaimTakesHead(h, slug);
    var next := ClaimedNext(h, slug).0;
    var queue := h.pending[slug];
    forall s ensures QueueOf(next, s) == Waiting(next.log, next.inflight, s) {
      if s == slug {
        WaitingLoses(h.log, h.inflight, next.inflight, slug, queue[0]);
        assert RemoveFirst(queue, queue[0]) == queue[1..];
      } else {
        WaitingCongruent(h.log, h.inflight, next.inflight, s);
        assert QueueOf(next, s) == QueueOf(h, s);
      }
    }
  }

  lemma HandedIdsSnoc(handed: seq<Handoff>, last: Handoff)
    ensures HandedIds(handed + [last]) == HandedIds(handed) + {last.id}
  {
    var all := handed + [last];
    assert all[|handed|] == last;
    assert forall i :: 0 <= i < |handed| ==> all[i] == handed[i];
  }

  lemma SettledIdsSnoc(settlements: seq<Settlement>, last: Settlement)
    ensures SettledIds(settlements + [last]) == SettledIds(settlements) + {last.id}
  {
    var all := settlements + [last];
    assert all[|settlements|] == last;
    assert forall i :: 0 <= i < |settlements| ==> all[i] == settlements[i];
  }

  /** Handing over the slug's earliest waiting request keeps the hand-over order. */
  lemma HandOverKeepsOrder(h: Hub, id: RequestId, next: Hub)
    requires HandedInOrder(h) && id in h.inflight && !h.inflight[id].claimed
    requires var item := h.inflight[id];
             item.serial < |h.log| && h.log[item.serial] == id
             && (forall x :: IsWaiting(h.inflight, item.slug, x) && x != id ==> item.serial < h.inflight[x].serial)
    requires next.log == h.log && next.inflight == h.inflight[id := h.inflight[id].(claimed := true)]
    requires next.handed == h.handed + [Handoff(h.inflight[id].slug, id, h.inflight[id].serial)]
    ensures HandedInOrder(next)
  {
    HandedIdsSnoc(h.handed, next.handed[|h.handed|]);
    assert forall s, x :: IsWaiting(next.inflight, s, x) ==> IsWaiting(h.inflight, s, x) && x != id;
    assert forall i :: 0 <= i < |h.handed| ==> h.handed[i].id != id by {
      assert id !in HandedIds(h.handed);
    }
  }

  lemma SerialsDiffer(h: Hub, slug: Slug, id: RequestId)
    requires Accounted(h) && id in h.inflight
    requires forall x :: IsWaiting(h.inflight, slug, x) ==> h.inflight[id].serial <= h.inflight[x].serial
    ensures forall x :: IsWaiting(h.inflight, slug, x) && x != id ==> h.inflight[id].serial < h.inflight[x].serial
  {
  }

  lemma ClaimKeepsOrder(h: Hub, slug: Slug)
    requires Inv(h) && slug in h.pending
    ensures HandedInOrder(ClaimedNext(h, slug).0)
  {
    ClaimTakesHead(h, slug);
    var id := h.pending[slug][0];
    SerialsDiffer(h, slug, id);
    assert h.inflight[id].slug == slug && h.inflight[id].serial < |h.log| && h.log[h.inflight[id].serial] == id;
    hide Waiting, QueuesAreWaiting, Claimable, ShiftsToClaim, QueueOf, Accounted, HandedInOrder;
    HandOverKeepsOrder(h, id, ClaimedNext(h, slug).0);
  }

  lemma ClaimKeeps(h: Hub, slug: Slug)
    requires Inv(h)
    ensures Inv(ClaimedNext(h, slug).0)
  {
    hide HandedInOrder, QueuesAreWaiting;
    if slug in h.pending {
      ClaimTakesHead(h, slug);
      ClaimKeepsQueues(h, slug);
      ClaimKeepsOrder(h, slug);
    }
  }

  lemma RemovedQueues(h: Hub, id: RequestId, s: Slug)
    requires QueuesAreWaiting(h) && id in h.inflight
    ensures QueueOf(Removed(h, id), s) == if s == h.inflight[id].slug then RemoveFirst(QueueOf(h, s), id) else QueueOf(h, s)
    ensures s in Removed(h, id).pending ==> Removed(h, id).pending[s] != []
  {
    hide Waiting;
    RemoveFirstAbsent([], id);
  }

  lemma SettleKeepsQueue(h: Hub, id: RequestId, outcome: Outcome, s: Slug)
    requires NoDuplicates(h.log) && QueuesAreWaiting(h) && id in h.inflight
    ensures var next := SettledWith(h, id, outcome);
      QueueOf(next, s) == Waiting(next.log, next.inflight, s) && (s in next.pending ==> next.pending[s] != [])
  {
    hide Waiting, RemoveFirst, NoDuplicates;
    var next := SettledWith(h, id, outcome);
    assert QueueOf(h, s) == Waiting(h.log, h.inflight, s);
    RemovedQueues(h, id, s);
    if s == h.inflight[id].slug {
      WaitingLoses(h.log, h.inflight, next.inflight, s, id);
    } else {
      WaitingCongruent(h.log, h.inflight, next.inflight, s);
    }
  }

  lemma SettleKeepsQueues(h: Hub, id: RequestId, outcome: Outcome)
    requires Inv(h) && id in h.inflight
    ensures QueuesAreWaiting(SettledWith(h, id, outcome))
  {
    forall s
      ensures var next := SettledWith(h, id, outcome);
        QueueOf(next, s) == Waiting(next.log, next.inflight, s) && (s in next.pending ==> next.pending[s] != [])
    {
      SettleKeepsQueue(h, id, outcome, s);
    }
    hide Waiting, QueueOf, SettledWith, Accounted, HandedInOrder;
  }

  lemma SettleKeepsAccounted(h: Hub, id: RequestId, outcome: Outcome)
    requires Accounted(h) && id in h.inflight
    ensures Accounted(SettledWith(h, id, outcome))
  {
    hide NoDuplicates, RemoveFirst;
    SettledIdsSnoc(h.settlements, Settlement(id, outcome));
    assert forall i :: 0 <= i < |h.settlements| ==> h.settlements[i].id in SettledIds(h.settlements);
  }

  lemma SettleKeepsOrder(h: Hub, id: RequestId, outcome: Outcome)
    requires HandedInOrder(h) && id in h.inflight
    ensures HandedInOrder(SettledWith(h, id, outcome))
  {
    hide RemoveFirst;
    var next := SettledWith(h, id, outcome);
    assert forall s, x :: IsWaiting(next.inflight, s, x) ==> IsWaiting(h.inflight, s, x);
  }

  lemma SettleKeeps(h: Hub, id: RequestId, outcome: Outcome)
    requires Inv(h) && id in h.inflight
    ensures Inv(SettledWith(h, id, outcome))
    ensures var next := SettledWith(h, id, outcome);
      next.inflight == h.inflight - {id} && next.log == h.log && next.handed == h.handed
      && next.settlements == h.settlements + [Settlement(id, outcome)]
  {
    hide Accounted, QueuesAreWaiting, HandedInOrder;
    SettleKeepsQueues(h, id, outcome);
    SettleKeepsAccounted(h, id, outcome);
    SettleKeepsOrder(h, id, outcome);
  }

  /** The ids of `slug` that are in flight. */
  function InFlightOn(h: Hub, slug: Slug): set<RequestId> {
    set id | id in h.inflight && h.inflight[id].slug == slug
  }

  /** What `FailAll` leaves of the in-flight map. */
  ghost function Spared(h: Hub, ids: seq<RequestId>, slug: Slug): map<RequestId, InFlight> {
    map id | id in h.inflight && !(id in ids && h.inflight[id].slug == slug) :: h.inflight[id]
  }

  lemma SparedStep(h: Hub, ids: seq<RequestId>, slug: Slug, rest: map<RequestId, InFlight>)
    requires ids != []
    requires if ids[0] in h.inflight && h.inflight[ids[0]].slug == slug then rest == h.inflight - {ids[0]} else rest == h.inflight
    ensures Spared(h.(inflight := rest), ids[1..], slug) == Spared(h, ids, slug)
  {
    assert ids == [ids[0]] + ids[1..];
    assert forall id :: id in ids <==> id == ids[0] || id in ids[1..];
  }

  lemma {:induction false} FailAllKeeps(h: Hub, ids: seq<RequestId>, slug: Slug)
    requires Inv(h)
    ensures var next := FailAll(h, ids, slug);
            && Inv(next) && next.log == h.log && next.handed == h.handed
            && next.inflight == Spared(h, ids, slug)
            && h.settlements <= next.settlements
            && (forall i :: |h.settlements| <= i < |next.settlements| ==> next.settlements[i].outcome == Rejected(RouteClosed))
    decreases |ids|
  {
    hide Inv;
    if ids != [] {
      var id := ids[0];
      SparedStep(h, ids, slug, if id in h.inflight && h.inflight[id].slug == slug then h.inflight - {id} else h.inflight);
      if id in h.inflight && h.inflight[id].slug == slug {
        var next := Failed(h, id, RouteClosed);
        SettleKeeps(h, id, Rejected(RouteClosed));
        FailAllKeeps(next, ids[1..], slug);
        assert Spared(next, ids[1..], slug) == Spared(h.(inflight := next.inflight), ids[1..], slug);
      } else {
        FailAllKeeps(h, ids[1..], slug);
      }
    }
  }

  // ---- runs ----

  /** `TimerFires` stands for either timer of a request, at any moment, fired or stale. */
  datatype Event =
    | EnqueueEvent(slug: Slug, envelope: Envelope, id: RequestId)
    | ClaimEvent(slug: Slug)
    | RespondEvent(id: RequestId, response: ForwardedResponse)
    | TimerFires(id: RequestId)
    | CloseRouteEvent(slug: Slug, order: seq<RequestId>)

  /** Minted ids are fresh; closing a route visits every request in flight, in some order. */
  ghost predicate Possible(h: Hub, e: Event) {
    match e
    case EnqueueEvent(_, _, id) => id !in h.log
    case CloseRouteEvent(_, order) => forall id :: id in h.inflight ==> id in order
    case _ => true
  }

  function Apply(h: Hub, e: Event, maxBytes: nat): Hub {
    match e
    case EnqueueEvent(slug, envelope, id) => Enqueued(h, slug, envelope, id)
    case ClaimEvent(slug) => ClaimedNext(h, slug).0
    case RespondEvent(id, response) => Responded(h, id, response, maxBytes).0
    case TimerFires(id) => Failed(h, id, HostUnavailable)
    case CloseRouteEvent(slug, order) => FailAll(h, order, slug)
  }

  function Run(h: Hub, events: seq<Event>, maxBytes: nat): Hub
    decreases |events|
  {
    if events == [] then h else Run(Apply(h, events[0], maxBytes), events[1..], maxBytes)
  }

  ghost predicate PossibleRun(h: Hub, events: seq<Event>, maxBytes: nat)
    decreases |events|
  {
    events != [] ==> Possible(h, events[0]) && PossibleRun(Apply(h, events[0], maxBytes), events[1..], maxBytes)
  }

  lemma ApplyKeeps(h: Hub, e: Event, maxBytes: nat)
    requires Inv(h) && Possible(h, e)
    ensures Inv(Apply(h, e, maxBytes))
    ensures h.settlements <= Apply(h, e, maxBytes).settlements && h.handed <= Apply(h, e, maxBytes).handed
    ensures h.log <= Apply(h, e, maxBytes).log
  {
    hide Inv, Removed, SettledWith, Claimable, ShiftsToClaim, RemoveFirst;
    match e
    case EnqueueEvent(slug, envelope, id) => EnqueueKeeps(h, slug, envelope, id);
    case ClaimEvent(slug) => ClaimKeeps(h, slug);
    case RespondEvent(id, response) =>
      if id in h.inflight {
        SettleKeeps(h, id, Resolved(response));
        SettleKeeps(h, id, Rejected(ResponseTooLarge));
      }
    case TimerFires(id) =>
      if id in h.inflight { SettleKeeps(h, id, Rejected(HostUnavailable)); }
    case CloseRouteEvent(slug, order) => FailAllKeeps(h, order, slug);
  }

  lemma {:induction false} RunKeeps(h: Hub, events: seq<Event>, maxBytes: nat)
    requires Inv(h) && PossibleRun(h, events, maxBytes)
    ensures Inv(Run(h, events, maxBytes))
    ensures h.settlements <= Run(h, events, maxBytes).settlements && h.handed <= Run(h, events, maxBytes).handed
    decreases |events|
  {
    if events != [] {
      ApplyKeeps(h, events[0], maxBytes);
      RunKeeps(Apply(h, events[0], maxBytes), events[1..], maxBytes);
    }
  }

  /**
   After any run, from the empty hub, of enqueues, claims, responses, timers and
   route closes: a slug's queue is exactly its unclaimed in-flight ids in enqueue
   order; each enqueued id is in flight or settled, never both; it was settled at
   most once and handed to a host at most once; and per slug hosts receive requests
   in the order they were enqueued.
   */
  lemma ExactlyOnce(events: seq<Event>, maxBytes: nat)
    requires PossibleRun(EMPTY, events, maxBytes)
    ensures var h := Run(EMPTY, events, maxBytes);
            && (forall slug :: QueueOf(h, slug) == Waiting(h.log, h.inflight, slug))
            && NoDuplicates(h.log) && (forall id :: id in h.log <==> id in h.inflight || id in SettledIds(h.settlements))
            && h.inflight.Keys !! SettledIds(h.settlements)
            && SettledOnce(h.settlements) && HandedOnce(h.handed)
            && (forall i :: 0 <= i < |h.handed| ==> h.handed[i].serial < |h.log| && h.log[h.handed[i].serial] == h.handed[i].id)
            && (forall i, j :: 0 <= i < j < |h.handed| && h.handed[i].slug == h.handed[j].slug ==>
                  h.handed[i].serial < h.handed[j].serial)
  {
    assert Inv(EMPTY);
    RunKeeps(EMPTY, events, maxBytes);
  }

  /** Closing a route empties it, keeps every other request and tells each waiter the route closed. */
  lemma CloseRouteEmpties(h: Hub, slug: Slug, order: seq<RequestId>)
    requires Inv(h) && Possible(h, CloseRouteEvent(slug, order))
    ensures var next := FailAll(h, order, slug);
            && Inv(next) && InFlightOn(next, slug) == {} && QueueOf(next, slug) == []
            && (forall id :: id in h.inflight && h.inflight[id].slug != slug ==> id in next.inflight && next.inflight[id] == h.inflight[id])
            && (forall id :: id in InFlightOn(h, slug) ==>
                  exists i :: |h.settlements| <= i < |next.settlements| && next.settlements[i] == Settlement(id, Rejected(RouteClosed)))
  {
    FailAllKeeps(h, order, slug);
    var next := FailAll(h, order, slug);
    assert QueueOf(next, slug) == Waiting(next.log, next.inflight, slug);
    if QueueOf(next, slug) != [] {
      WaitingMembers(next.log, next.inflight, slug, QueueOf(next, slug)[0]);
    }
    forall id | id in InFlightOn(h, slug)
      ensures exists i :: |h.settlements| <= i < |next.settlements| && next.settlements[i] == Settlement(id, Rejected(RouteClosed))
    {
      assert id in h.log && id in SettledIds(next.settlements);
      var i :| 0 <= i < |next.settlements| && next.settlements[i].id == id;
      assert i < |h.settlements| ==> id in SettledIds(h.settlements);
    }
  }

  // ---- the mutable object ----

  class RelayHub {
    const responseBodyBytes: nat
    var pending: map<Slug, seq<RequestId>>
    var inflight: map<RequestId, InFlight>
    // The history the claims are about; no method decides anything from it.
    var log: seq<RequestId>
    var settlements: seq<Settlement>
    var handed: seq<Handoff>

    ghost function State(): Hub
      reads this
    {
      Hub(pending, inflight, log, settlements, handed)
    }

    constructor (responseBodyBytes: nat)
      ensures this.responseBodyBytes == responseBodyBytes && State() == EMPTY
    {
      this.responseBodyBytes := responseBodyBytes;
      pending, inflight := map[], map[];
      log, settlements, handed := [], [], [];
    }

    /** `requestId` is what `mintId()` returned. */
    method Enqueue(slug: Slug, envelope: Envelope, requestId: RequestId)
      modifies this
      ensures State() == Enqueued(old(State()), slug, envelope, requestId)
    {
      inflight := inflight[requestId := InFlight(ForwardedRequest(requestId, slug, envelope), slug, false, |log|)];
      var queue := if slug in pending then pending[slug] else [];
      queue := queue + [requestId];
      pending := pending[slug := queue];
      log := log + [requestId];
    }

    method Claim(slug: Slug) returns (request: Option<ForwardedRequest>)
      modifies this
      ensures (State(), request) == ClaimedNext(old(State()), slug)
    {
      if slug !in pending { return None; }
      var queue := pending[slug];
      ghost var all, shifts := queue, 0;
      while queue != []
        invariant 0 <= shifts <= |all| && queue == all[shifts..]
        invariant State() == old(State())
        invariant ShiftsToClaim(all, inflight) == shifts + ShiftsToClaim(queue, inflight)
        invariant Claimable(all, inflight) == Claimable(queue, inflight)
        decreases |queue|
      {
        var requestId := queue[0];
        queue := queue[1..];
        shifts := shifts + 1;
        if requestId !in inflight || inflight[requestId].claimed { continue; }
        var item := inflight[requestId];
        inflight := inflight[requestId := item.(claimed := true)];
        handed := handed + [Handoff(slug, requestId, item.serial)];
        pending := if queue == [] then pending - {slug} else pending[slug := queue];
        return Some(item.request);
      }
      pending := pending - {slug};
      return None;
    }

    method Respond(requestId: RequestId, response: ForwardedResponse) returns (result: RespondResult)
      modifies this
      ensures (State(), result) == Responded(old(State()), requestId, response, responseBodyBytes)
    {
      if requestId !in inflight { return UnknownRequest; }
      if response.bodyBytes > responseBodyBytes {
        Fail(requestId, ResponseTooLarge);
        return RefusedTooLarge;
      }
      Remove(requestId);
      settlements := settlements + [Settlement(requestId, Resolved(response))];
      return Accepted;
    }

    /** Reject every request in flight on the slug; `order` is the iteration order of the copied map. */
    method CloseRoute(slug: Slug) returns (ghost order: seq<RequestId>)
      modifies this
      ensures forall id :: id in old(inflight) ==> id in order
      ensures State() == FailAll(old(State()), order, slug)
    {
      var remaining := inflight.Keys;
      order := [];
      assert FailAll(State(), [], slug) == State();
      while remaining != {}
        invariant forall id :: id in old(inflight) ==> id in remaining || id in order
        invariant State() == FailAll(old(State()), order, slug)
        decreases |remaining|
      {
        var requestId :| requestId in remaining;
        remaining := remaining - {requestId};
        FailAllSnoc(old(State()), order, requestId, slug);
        order := order + [requestId];
        if requestId in inflight && inflight[requestId].slug == slug {
          Fail(requestId, RouteClosed);
        }
      }
    }

    method Fail(requestId: RequestId, code: ErrorCode)
      modifies this
      ensures State() == Failed(old(State()), requestId, code)
    {
      if requestId !in inflight { return; }
      Remove(requestId);
      settlements := settlements + [Settlement(requestId, Rejected(code))];
    }

    /** `indexOf` and `splice` on the copied queue. */
    method Spliced(queue: seq<RequestId>, requestId: RequestId) returns (rest: seq<RequestId>)
      ensures rest == RemoveFirst(queue, requestId)
    {
      var index := IndexOf(queue, requestId);
      rest := if index >= 0 then queue[..index] + queue[index + 1..] else queue;
    }

    method Remove(requestId: RequestId)
      modifies this
      ensures State() == Removed(old(State()), requestId)
    {
      if requestId !in inflight { return; }
      var item := inflight[requestId];
      inflight := inflight - {requestId};
      if item.slug !in pending { return; }
      var queue := Spliced(pending[item.slug], requestId);
      pending := if queue == [] then pending - {item.slug} else pending[item.slug := queue];
    }
  }

  lemma {:induction false} FailAllSnoc(h: Hub, ids: seq<RequestId>, id: RequestId, slug: Slug)
    ensures FailAll(h, ids + [id], slug) ==
            var mid := FailAll(h, ids, slug);
            if id in mid.inflight && mid.inflight[id].slug == slug then Failed(mid, id, RouteClosed) else mid
    decreases |ids|
  {
    if ids == [] {
      assert [] + [id] == [id];
    } else {
      var next := if ids[0] in h.inflight && h.inflight[ids[0]].slug == slug then Failed(h, ids[0], RouteClosed) else h;
      assert (ids + [id])[1..] == ids[1..] + [id];
      FailAllSnoc(next, ids[1..], id, slug);
    }
  }
}
