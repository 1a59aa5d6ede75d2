/**
 The managed tunnel broker (src/tunnel/broker.ts): one route per slug, its timed life
 cycle, and the host control calls in front of the relay hub.

 ISO timestamps are integer milliseconds. A call that reads the clock more than once
 takes one argument per reading, in call order. Every lookup refreshes the stored route
 in place, so a call that fails can still move a route to `Expired`.
 */
module Broker {
  import opened Collections
  import opened Relay

  datatype RouteId = RouteId(text: string)
  datatype ConnectionId = ConnectionId(text: string)
  datatype RouteStatus = Active | Expired | Closed

  /** `bornAt` is how many requests had been enqueued when the route was registered (history). */
  datatype Route = Route(
    slug: Slug, routeId: RouteId, connectionId: ConnectionId,
    createdAt: int, lastSeenAt: int, lastHeartbeatAt: int, expiresAt: int,
    status: RouteStatus, hostConnected: bool, bornAt: nat)

  datatype Timing = Timing(routeTtlMs: int, maxRouteLifetimeMs: int, hostGraceMs: int)

  datatype Registration = Registration(slug: Slug, target: Option<string>, targetIsLocal: bool)

  datatype Error = InvalidRegistration | RouteSlugTaken | InvalidHeartbeat | RouteNotFound | RouteIsExpired | RouteIsClosed | HostIsUnavailable

  datatype Result<+T> = Ok(value: T) | Err(error: Error)

  datatype RouteTable = RouteTable(routes: map<Slug, Route>, targets: map<Slug, string>)

  /** The whole broker; `issued` is every route id minted so far and `clock` the last reading (history). */
  datatype BrokerState = BrokerState(table: RouteTable, hub: Hub, issued: set<RouteId>, clock: int)

  // ---- the route table ----

  predicate IsSlugEdge(c: char) { 'a' <= c <= 'z' || '0' <= c <= '9' }

  /** `^[a-z0-9](?:[a-z0-9-]{0,61}[a-z0-9])?$` */
  predicate WellFormedSlug(slug: Slug) {
    var s := slug.text;
    && 1 <= |s| <= 63
    && IsSlugEdge(s[0]) && IsSlugEdge(s[|s| - 1])
    && forall i :: 0 <= i < |s| ==> IsSlugEdge(s[i]) || s[i] == '-'
  }

  function Refresh(route: Route, now: int, t: Timing): Route {
    var status :=
      if route.status == Active && (route.expiresAt <= now || route.createdAt + t.maxRouteLifetimeMs <= now)
      then Expired else route.status;
    route.(status := status, hostConnected := status == Active && now - route.lastHeartbeatAt <= t.hostGraceMs)
  }

  /** `currentRoute`: look a slug up and refresh what is found, in place. */
  function Current(table: RouteTable, slug: Slug, now: int, t: Timing): RouteTable {
    if slug in table.routes then table.(routes := table.routes[slug := Refresh(table.routes[slug], now, t)]) else table
  }

  function Touch(table: RouteTable, slug: Slug, now: int, t: Timing): RouteTable {
    if slug in table.routes && table.routes[slug].status == Active
    then table.(routes := table.routes[slug := table.routes[slug].(lastSeenAt := now, expiresAt := now + t.routeTtlMs)])
    else table
  }

  ghost predicate Names(table: RouteTable, slug: Slug, routeId: RouteId, connectionId: ConnectionId) {
    slug in table.routes && table.routes[slug].routeId == routeId && table.routes[slug].connectionId == connectionId
  }

  ghost predicate Known(table: RouteTable, routeId: RouteId, connectionId: ConnectionId) {
    exists slug :: Names(table, slug, routeId, connectionId)
  }

  ghost function SlugNamed(table: RouteTable, routeId: RouteId, connectionId: ConnectionId): Slug
    requires Known(table, routeId, connectionId)
  {
    var slug :| Names(table, slug, routeId, connectionId); slug
  }

  // ---- the calls, on values ----

  function FreshRoute(slug: Slug, routeId: RouteId, connectionId: ConnectionId, now: int, t: Timing, bornAt: nat): Route {
    Route(slug, routeId, connectionId, now, now, now, now + t.routeTtlMs, Active, true, bornAt)
  }

  /** Readings: `t1` by the lookup, `t2` for the new route. `order` is the hub's iteration order. */
  ghost function AfterRegister(s: BrokerState, r: Registration, routeId: RouteId, connectionId: ConnectionId,
                          order: seq<RequestId>, t1: int, t2: int, t: Timing): (BrokerState, Result<Route>)
  {
    if !WellFormedSlug(r.slug) || (r.target.Some? && !r.targetIsLocal) then (s, Err(InvalidRegistration))
    else
      var table := Current(s.table, r.slug, t1, t);
      var known := r.slug in table.routes;
      if known && table.routes[r.slug].status == Active && table.routes[r.slug].hostConnected
      then (s.(table := table, clock := t1), Err(RouteSlugTaken))
      else
        var hub := if known then FailAll(s.hub, order, r.slug) else s.hub;
        var route := FreshRoute(r.slug, routeId, connectionId, t2, t, |hub.log|);
        var targets := if r.target.Some? then table.targets[r.slug := r.target.value] else table.targets - {r.slug};
        (BrokerState(RouteTable(table.routes[r.slug := route], targets), hub, s.issued + {routeId}, t2), Ok(route))
  }

  /** Readings: lookup, new deadlines, presence, and the refresh of the returned copy. */
  ghost function AfterHeartbeat(s: BrokerState, routeId: RouteId, connectionId: ConnectionId,
                           t1: int, t2: int, t3: int, t4: int, t: Timing): (BrokerState, Result<Route>)
  {
    if !Known(s.table, routeId, connectionId) then (s, Err(RouteNotFound))
    else
      var slug := SlugNamed(s.table, routeId, connectionId);
      var table := Current(s.table, slug, t1, t);
      var route := table.routes[slug];
      if route.status == Closed then (s.(table := table, clock := t1), Err(RouteIsClosed))
      else if route.status == Expired then (s.(table := table, clock := t1), Err(RouteIsExpired))
      else
        var beaten := Refresh(route.(lastSeenAt := t2, expiresAt := t2 + t.routeTtlMs, lastHeartbeatAt := t3), t4, t);
        (s.(table := table.(routes := table.routes[slug := beaten]), clock := t4), Ok(beaten))
  }

  ghost function AfterClose(s: BrokerState, routeId: RouteId, connectionId: ConnectionId,
                            order: seq<RequestId>, t1: int, t: Timing): (BrokerState, Result<Slug>)
  {
    if !Known(s.table, routeId, connectionId) then (s, Err(RouteNotFound))
    else
      var slug := SlugNamed(s.table, routeId, connectionId);
      var table := Current(s.table, slug, t1, t);
      var closed := table.routes[slug].(status := Closed);
      (s.(table := RouteTable(table.routes[slug := closed], table.targets - {slug}),
          hub := FailAll(s.hub, order, slug), clock := t1),
       Ok(slug))
  }

  function AfterResolve(s: BrokerState, slug: Slug, t1: int, t: Timing): (BrokerState, Result<Route>) {
    var table := Current(s.table, slug, t1, t);
    var next := s.(table := table, clock := t1);
    if slug !in table.routes then (next, Err(RouteNotFound))
    else if table.routes[slug].status == Closed then (next, Err(RouteIsClosed))
    else if table.routes[slug].status == Expired then (next, Err(RouteIsExpired))
    else (next, Ok(table.routes[slug]))
  }

  /** A host poll. Readings: lookup, presence, idle deadline. */
  ghost function AfterPoll(s: BrokerState, routeId: RouteId, connectionId: ConnectionId,
                            t1: int, t2: int, t3: int, t: Timing): (BrokerState, Result<Option<ForwardedRequest>>)
  {
    if !Known(s.table, routeId, connectionId) then (s, Err(RouteNotFound))
    else
      var slug := SlugNamed(s.table, routeId, connectionId);
      var table := Current(s.table, slug, t1, t);
      if table.routes[slug].status != Active
      then (s.(table := table, clock := t1), Err(if table.routes[slug].status == Closed then RouteIsClosed else RouteIsExpired))
      else
        var seen := table.(routes := table.routes[slug := table.routes[slug].(lastHeartbeatAt := t2)]);
        var (hub, request) := ClaimedNext(s.hub, slug);
        (s.(table := Touch(seen, slug, t3, t), hub := hub, clock := t3), Ok(request))
  }

  ghost function AfterRespond(s: BrokerState, routeId: RouteId, connectionId: ConnectionId,
                              id: RequestId, response: ForwardedResponse, maxBytes: nat, t1: int, t: Timing): (BrokerState, Result<RespondResult>)
  {
    if !Known(s.table, routeId, connectionId) then (s, Err(RouteNotFound))
    else
      var slug := SlugNamed(s.table, routeId, connectionId);
      var (hub, result) := Responded(s.hub, id, response, maxBytes);
      (s.(table := Current(s.table, slug, t1, t), hub := hub, clock := t1), Ok(result))
  }

  /** The fail-fast check of a relayed forward; the enqueue comes later, after the body was read. */
  function HostAttends(s: BrokerState, slug: Slug, t1: int, t: Timing): (BrokerState, bool) {
    var table := Current(s.table, slug, t1, t);
    (s.(table := table, clock := t1), slug in table.routes && table.routes[slug].hostConnected)
  }

  // ---- runs ----

  datatype Event =
    | RegisterEvent(r: Registration, routeId: RouteId, connectionId: ConnectionId, order: seq<RequestId>, t1: int, t2: int)
    | HeartbeatEvent(routeId: RouteId, connectionId: ConnectionId, t1: int, t2: int, t3: int, t4: int)
    | CloseEvent(routeId: RouteId, connectionId: ConnectionId, order: seq<RequestId>, t1: int)
    | ResolveEvent(slug: Slug, t1: int)
    | PollEvent(routeId: RouteId, connectionId: ConnectionId, t1: int, t2: int, t3: int)
    | RespondEvent(routeId: RouteId, connectionId: ConnectionId, id: RequestId, response: ForwardedResponse, maxBytes: nat, t1: int)
    | ForwardTouch(slug: Slug, t1: int)
    | ForwardCheck(slug: Slug, t1: int)
    | ForwardEnqueue(slug: Slug, envelope: Envelope, id: RequestId)
    | RelayTimer(id: RequestId)

  ghost function Apply(s: BrokerState, e: Event, t: Timing): BrokerState {
    match e
    case RegisterEvent(r, routeId, connectionId, order, t1, t2) => AfterRegister(s, r, routeId, connectionId, order, t1, t2, t).0
    case HeartbeatEvent(routeId, connectionId, t1, t2, t3, t4) => AfterHeartbeat(s, routeId, connectionId, t1, t2, t3, t4, t).0
    case CloseEvent(routeId, connectionId, order, t1) => AfterClose(s, routeId, connectionId, order, t1, t).0
    case ResolveEvent(slug, t1) => AfterResolve(s, slug, t1, t).0
    case PollEvent(routeId, connectionId, t1, t2, t3) => AfterPoll(s, routeId, connectionId, t1, t2, t3, t).0
    case RespondEvent(routeId, connectionId, id, response, maxBytes, t1) => AfterRespond(s, routeId, connectionId, id, response, maxBytes, t1, t).0
    case ForwardTouch(slug, t1) => s.(table := Touch(s.table, slug, t1, t), clock := t1)
    case ForwardCheck(slug, t1) => HostAttends(s, slug, t1, t).0
    case ForwardEnqueue(slug, envelope, id) => s.(hub := Enqueued(s.hub, slug, envelope, id))
    case RelayTimer(id) => s.(hub := Failed(s.hub, id, HostUnavailable))
  }

  /** The hub visits every in-flight request when it closes a route. */
  ghost predicate Covers(h: Hub, order: seq<RequestId>) {
    forall id :: id in h.inflight ==> id in order
  }

  /** Clock readings never go back, minted ids are fresh, and only a registered slug is forwarded to. */
  ghost predicate Possible(s: BrokerState, e: Event) {
    match e
    case RegisterEvent(_, routeId, _, order, t1, t2) => s.clock <= t1 <= t2 && routeId !in s.issued && Covers(s.hub, order)
    case HeartbeatEvent(_, _, t1, t2, t3, t4) => s.clock <= t1 <= t2 <= t3 <= t4
    case CloseEvent(_, _, order, t1) => s.clock <= t1 && Covers(s.hub, order)
    case ResolveEvent(_, t1) => s.clock <= t1
    case PollEvent(_, _, t1, t2, t3) => s.clock <= t1 <= t2 <= t3
    case RespondEvent(_, _, _, _, _, t1) => s.clock <= t1
    case ForwardTouch(_, t1) => s.clock <= t1
    case ForwardCheck(_, t1) => s.clock <= t1
    case ForwardEnqueue(slug, _, id) => slug in s.table.routes && id !in s.hub.log
    case RelayTimer(_) => true
  }

  ghost function Run(s: BrokerState, events: seq<Event>, t: Timing): BrokerState
    decreases |events|
  {
    if events == [] then s else Run(Apply(s, events[0], t), events[1..], t)
  }

  ghost predicate PossibleRun(s: BrokerState, events: seq<Event>, t: Timing)
    decreases |events|
  {
    events != [] ==> Possible(s, events[0]) && PossibleRun(Apply(s, events[0], t), events[1..], t)
  }

  // ---- the invariant ----

  ghost predicate TableInv(table: RouteTable, issued: set<RouteId>) {
    && (forall slug :: slug in table.routes ==> table.routes[slug].slug == slug && table.routes[slug].routeId in issued)
    && (forall a, b :: a in table.routes && b in table.routes && table.routes[a].routeId == table.routes[b].routeId ==> a == b)
  }

  /** Nothing in flight on a slug is older than the route that serves it now. */
  ghost predicate BornInv(table: RouteTable, hub: Hub) {
    && (forall slug :: slug in table.routes ==> table.routes[slug].bornAt <= |hub.log|)
    && (forall id :: id in hub.inflight ==>
          hub.inflight[id].slug in table.routes && table.routes[hub.inflight[id].slug].bornAt <= hub.inflight[id].serial)
  }

  ghost predicate Inv(s: BrokerState) {
    Relay.Inv(s.hub) && TableInv(s.table, s.issued) && BornInv(s.table, s.hub)
  }

  const START := BrokerState(RouteTable(map[], map[]), EMPTY, {}, 0)

  // ---- what one event does to the routes ----

  ghost predicate StatusMoves(before: RouteStatus, after: RouteStatus) {
    before == after || (before == Active && after == Expired) || (before == Active && after == Closed) || (before == Expired && after == Closed)
  }

  /** The same registration, possibly later in its life. */
  ghost predicate Ages(before: Route, after: Route) {
    && after.slug == before.slug && after.routeId == before.routeId && after.connectionId == before.connectionId
    && after.createdAt == before.createdAt && after.bornAt == before.bornAt
    && StatusMoves(before.status, after.status)
  }

  /** Routes stay under their slug: each ages, or gives way to one with a new id. */
  ghost predicate TableMoves(a: RouteTable, issued: set<RouteId>, b: RouteTable) {
    && a.routes.Keys <= b.routes.Keys
    && (forall slug :: slug in b.routes ==>
          (slug in a.routes && Ages(a.routes[slug], b.routes[slug])) || b.routes[slug].routeId !in issued)
  }

  /** Rewriting one stored route to a later age of itself. */
  lemma AgingMoves(table: RouteTable, issued: set<RouteId>, slug: Slug, route: Route, targets: map<Slug, string>)
    requires TableInv(table, issued) && slug in table.routes && Ages(table.routes[slug], route)
    ensures var next := RouteTable(table.routes[slug := route], targets);
            TableInv(next, issued) && TableMoves(table, issued, next)
  {
  }

  lemma RegisterMoves(table: RouteTable, issued: set<RouteId>, slug: Slug, now: int, t: Timing, route: Route, targets: map<Slug, string>)
    requires TableInv(table, issued) && route.slug == slug && route.routeId !in issued
    ensures var next := RouteTable(Current(table, slug, now, t).routes[slug := route], targets);
            TableInv(next, issued + {route.routeId}) && TableMoves(table, issued, next)
  {
  }

  lemma CurrentMoves(table: RouteTable, issued: set<RouteId>, slug: Slug, now: int, t: Timing)
    requires TableInv(table, issued)
    ensures TableInv(Current(table, slug, now, t), issued) && TableMoves(table, issued, Current(table, slug, now, t))
  {
    if slug in table.routes {
      AgingMoves(table, issued, slug, Refresh(table.routes[slug], now, t), table.targets);
    }
  }

  lemma StepMoves(s: BrokerState, e: Event, t: Timing)
    requires Inv(s) && Possible(s, e)
    ensures var next := Apply(s, e, t);
            && TableInv(next.table, next.issued) && TableMoves(s.table, s.issued, next.table)
            && s.issued <= next.issued && s.clock <= next.clock
  {
    hide Relay.Inv, BornInv, FailAll, ClaimedNext, Responded, Enqueued, Failed, WellFormedSlug, TableMoves, TableInv;
    var table, issued := s.table, s.issued;
    var next := Apply(s, e, t);
    match e
    case RegisterEvent(r, _, _, _, t1, _) =>
      CurrentMoves(table, issued, r.slug, t1, t);
      SelfMoves(table, issued);
      if AfterRegister(s, r, e.routeId, e.connectionId, e.order, t1, e.t2, t).1.Ok? {
        RegisterMoves(table, issued, r.slug, t1, t, next.table.routes[r.slug], next.table.targets);
      }
    case HeartbeatEvent(routeId, connectionId, t1, _, _, _) =>
      SelfMoves(table, issued);
      if Known(table, routeId, connectionId) {
        var slug := SlugNamed(table, routeId, connectionId);
        CurrentMoves(table, issued, slug, t1, t);
        AgingMoves(table, issued, slug, next.table.routes[slug], next.table.targets);
        assert next.table.routes == table.routes[slug := next.table.routes[slug]];
      }
    case CloseEvent(routeId, connectionId, _, _) =>
      SelfMoves(table, issued);
      if Known(table, routeId, connectionId) {
        var slug := SlugNamed(table, routeId, connectionId);
        AgingMoves(table, issued, slug, next.table.routes[slug], next.table.targets);
        assert next.table.routes == table.routes[slug := next.table.routes[slug]];
      }
    case ResolveEvent(slug, t1) => CurrentMoves(table, issued, slug, t1, t);
    case PollEvent(routeId, connectionId, _, _, _) =>
      SelfMoves(table, issued);
      if Known(table, routeId, connectionId) {
        var slug := SlugNamed(table, routeId, connectionId);
        AgingMoves(table, issued, slug, next.table.routes[slug], next.table.targets);
        assert next.table.routes == table.routes[slug := next.table.routes[slug]];
      }
    case RespondEvent(routeId, connectionId, _, _, _, t1) =>
      SelfMoves(table, issued);
      if Known(table, routeId, connectionId) {
        CurrentMoves(table, issued, SlugNamed(table, routeId, connectionId), t1, t);
      }
    case ForwardTouch(slug, _) =>
      SelfMoves(table, issued);
      if slug in table.routes { AgingMoves(table, issued, slug, next.table.routes[slug], table.targets); }
    case ForwardCheck(slug, t1) => CurrentMoves(table, issued, slug, t1, t);
    case ForwardEnqueue(_, _, _) => SelfMoves(table, issued);
    case RelayTimer(_) => SelfMoves(table, issued);
  }

  lemma SelfMoves(table: RouteTable, issued: set<RouteId>)
    ensures TableMoves(table, issued, table)
  {
  }

  /** Whatever is in flight afterwards was in flight before, unmoved, or was enqueued since on a registered slug. */
  ghost predicate HubMoves(a: Hub, b: Hub, slugs: set<Slug>) {
    && a.log <= b.log
    && (forall id :: id in b.inflight ==>
          || (id in a.inflight && b.inflight[id].slug == a.inflight[id].slug && b.inflight[id].serial == a.inflight[id].serial)
          || (b.inflight[id].serial >= |a.log| && b.inflight[id].slug in slugs))
  }

  lemma ClosingMovesHub(h: Hub, order: seq<RequestId>, slug: Slug, slugs: set<Slug>)
    requires Relay.Inv(h)
    ensures Relay.Inv(FailAll(h, order, slug)) && HubMoves(h, FailAll(h, order, slug), slugs)
  {
    hide Relay.Inv;
    FailAllKeeps(h, order, slug);
  }

  lemma ClaimMovesHub(h: Hub, slug: Slug, slugs: set<Slug>)
    requires Relay.Inv(h)
    ensures Relay.Inv(ClaimedNext(h, slug).0) && HubMoves(h, ClaimedNext(h, slug).0, slugs)
  {
    hide Relay.Inv;
    ClaimKeeps(h, slug);
    if slug in h.pending { ClaimableIsInFlight(h.pending[slug], h.inflight); }
  }

  lemma SettlingMovesHub(h: Hub, id: RequestId, outcome: Outcome, slugs: set<Slug>)
    requires Relay.Inv(h)
    ensures id in h.inflight ==> Relay.Inv(SettledWith(h, id, outcome)) && HubMoves(h, SettledWith(h, id, outcome), slugs)
  {
    hide Relay.Inv, SettledWith;
    if id in h.inflight { SettleKeeps(h, id, outcome); }
  }

  lemma EnqueueMovesHub(h: Hub, slug: Slug, envelope: Envelope, id: RequestId, slugs: set<Slug>)
    requires Relay.Inv(h) && id !in h.log && slug in slugs
    ensures Relay.Inv(Enqueued(h, slug, envelope, id)) && HubMoves(h, Enqueued(h, slug, envelope, id), slugs)
  {
    hide Relay.Inv;
    EnqueueKeeps(h, slug, envelope, id);
  }

  lemma StepKeepsHub(s: BrokerState, e: Event, t: Timing)
    requires Inv(s) && Possible(s, e)
    ensures Relay.Inv(Apply(s, e, t).hub) && HubMoves(s.hub, Apply(s, e, t).hub, s.table.routes.Keys)
  {
    hide Relay.Inv, HubMoves, FailAll, ClaimedNext, SettledWith, Enqueued, Known, TableInv, BornInv, Refresh, WellFormedSlug;
    var slugs := s.table.routes.Keys;
    HubStays(s.hub, slugs);
    match e
    case RegisterEvent(r, _, _, order, _, _) => ClosingMovesHub(s.hub, order, r.slug, slugs);
    case CloseEvent(routeId, connectionId, order, _) =>
      if Known(s.table, routeId, connectionId) { ClosingMovesHub(s.hub, order, SlugNamed(s.table, routeId, connectionId), slugs); }
    case PollEvent(routeId, connectionId, _, _, _) =>
      if Known(s.table, routeId, connectionId) { ClaimMovesHub(s.hub, SlugNamed(s.table, routeId, connectionId), slugs); }
    case RespondEvent(_, _, id, response, maxBytes, _) =>
      SettlingMovesHub(s.hub, id, Resolved(response), slugs);
      SettlingMovesHub(s.hub, id, Rejected(ResponseTooLarge), slugs);
    case ForwardEnqueue(slug, envelope, id) => EnqueueMovesHub(s.hub, slug, envelope, id, slugs);
    case RelayTimer(id) => SettlingMovesHub(s.hub, id, Rejected(HostUnavailable), slugs);
    case _ =>
  }

  lemma HubStays(h: Hub, slugs: set<Slug>)
    ensures HubMoves(h, h, slugs)
  {
  }

  /** A successful registration leaves nothing of its slug in flight, and takes the birth mark of that moment. */
  lemma RegisterClears(s: BrokerState, e: Event, t: Timing)
    requires Inv(s) && Possible(s, e) && e.RegisterEvent?
    requires AfterRegister(s, e.r, e.routeId, e.connectionId, e.order, e.t1, e.t2, t).1.Ok?
    ensures var next := Apply(s, e, t);
            && InFlightOn(next.hub, e.r.slug) == {} && next.hub.log == s.hub.log
            && next.table.routes[e.r.slug].bornAt == |next.hub.log|
            && (forall slug :: slug in s.table.routes && slug != e.r.slug ==>
                  slug in next.table.routes && next.table.routes[slug].bornAt == s.table.routes[slug].bornAt)
  {
    hide Relay.Inv;
    if e.r.slug in s.table.routes {
      CloseRouteEmpties(s.hub, e.r.slug, e.order);
      FailAllKeeps(s.hub, e.order, e.r.slug);
    }
  }

  lemma BornStays(a: RouteTable, hubA: Hub, b: RouteTable, hubB: Hub, issued: set<RouteId>)
    requires BornInv(a, hubA) && HubMoves(hubA, hubB, a.routes.Keys)
    requires TableMoves(a, issued, b) && TableInv(b, issued)
    ensures BornInv(b, hubB)
  {
    assert forall slug :: slug in b.routes ==> slug in a.routes && b.routes[slug].bornAt == a.routes[slug].bornAt;
  }

  lemma BornAnew(a: RouteTable, hubA: Hub, b: RouteTable, hubB: Hub, slug: Slug)
    requires BornInv(a, hubA) && HubMoves(hubA, hubB, a.routes.Keys) && hubB.log == hubA.log
    requires b.routes.Keys == a.routes.Keys + {slug} && InFlightOn(hubB, slug) == {} && b.routes[slug].bornAt == |hubB.log|
    requires forall other :: other in a.routes && other != slug ==> b.routes[other].bornAt == a.routes[other].bornAt
    requires forall id :: id in hubB.inflight ==> hubB.inflight[id].serial < |hubB.log|
    ensures BornInv(b, hubB)
  {
    forall id | id in hubB.inflight
      ensures hubB.inflight[id].slug in b.routes && b.routes[hubB.inflight[id].slug].bornAt <= hubB.inflight[id].serial
    {
      assert id !in InFlightOn(hubB, slug);
    }
  }

  lemma StepKeepsBorn(s: BrokerState, e: Event, t: Timing)
    requires Inv(s) && Possible(s, e)
    ensures BornInv(Apply(s, e, t).table, Apply(s, e, t).hub)
  {
    hide BornInv, HubMoves, TableMoves, TableInv, QueuesAreWaiting, HandedInOrder;
    StepKeepsHub(s, e, t);
    StepMoves(s, e, t);
    var next := Apply(s, e, t);
    if e.RegisterEvent? && AfterRegister(s, e.r, e.routeId, e.connectionId, e.order, e.t1, e.t2, t).1.Ok? {
      RegisterClears(s, e, t);
      BornAnew(s.table, s.hub, next.table, next.hub, e.r.slug);
    } else {
      BornStays(s.table, s.hub, next.table, next.hub, s.issued);
    }
  }

  lemma StepKeeps(s: BrokerState, e: Event, t: Timing)
    requires Inv(s) && Possible(s, e)
    ensures Inv(Apply(s, e, t))
  {
    StepKeepsHub(s, e, t);
    StepMoves(s, e, t);
    StepKeepsBorn(s, e, t);
  }

  /** Over a run routes only age or give way, the log only grows, and the invariant stays. */
  lemma {:induction false} RunMoves(s: BrokerState, events: seq<Event>, t: Timing)
    requires Inv(s) && PossibleRun(s, events, t)
    ensures var last := Run(s, events, t);
            && Inv(last) && TableMoves(s.table, s.issued, last.table)
            && s.issued <= last.issued && s.clock <= last.clock && s.hub.log <= last.hub.log
    decreases |events|
  {
    hide Inv;
    if events == [] {
      SelfMoves(s.table, s.issued);
    } else {
      var next := Apply(s, events[0], t);
      StepKeeps(s, events[0], t);
      assert TableMoves(s.table, s.issued, next.table) && s.issued <= next.issued && s.clock <= next.clock by { StepMoves(s, events[0], t); }
      assert s.hub.log <= next.hub.log by { StepKeepsHub(s, events[0], t); }
      RunMoves(next, events[1..], t);
      MovesCompose(s.table, s.issued, next.table, next.issued, Run(s, events, t).table);
    }
  }

  lemma MovesCompose(a: RouteTable, issuedA: set<RouteId>, b: RouteTable, issuedB: set<RouteId>, c: RouteTable)
    requires TableMoves(a, issuedA, b) && TableMoves(b, issuedB, c) && issuedA <= issuedB
    ensures TableMoves(a, issuedA, c)
  {
  }

  // ---- main results ----

  /**
   Route life cycle. In any run, a route that is still stored keeps its slug, its
   identifiers and its creation time, and its status has moved only active to expired,
   active to closed, or expired to closed.
   */
  lemma LifeCycle(before: seq<Event>, after: seq<Event>, slug: Slug, t: Timing)
    requires PossibleRun(START, before, t) && PossibleRun(Run(START, before, t), after, t)
    requires slug in Run(START, before, t).table.routes
    ensures var s := Run(START, before, t); var last := Run(s, after, t);
            && slug in last.table.routes
            && (last.table.routes[slug].routeId == s.table.routes[slug].routeId ==> Ages(s.table.routes[slug], last.table.routes[slug]))
            && (last.table.routes[slug].routeId != s.table.routes[slug].routeId ==> last.table.routes[slug].routeId !in s.issued)
  {
    StartInv();
    RunMoves(START, before, t);
    RunMoves(Run(START, before, t), after, t);
  }

  lemma StartInv()
    ensures Inv(START)
  {
  }

  /**
   Whatever refreshed the idle deadline in between, a route registered in state `s`
   is resolved, heartbeats or is polled only while the clock at the call is before its
   creation time plus the maximum lifetime.
   */
  lemma NeverPastLifetime(s: BrokerState, between: seq<Event>, slug: Slug, t1: int, t2: int, t3: int, t4: int, t: Timing)
    requires Inv(s) && PossibleRun(s, between, t) && slug in s.table.routes
    requires Run(s, between, t).clock <= t1
    ensures var r := s.table.routes[slug]; var last := Run(s, between, t);
            t1 >= r.createdAt + t.maxRouteLifetimeMs ==>
              && (AfterResolve(last, slug, t1, t).1.Ok? ==> AfterResolve(last, slug, t1, t).1.value.routeId != r.routeId)
              && AfterHeartbeat(last, r.routeId, r.connectionId, t1, t2, t3, t4, t).1.Err?
              && AfterPoll(last, r.routeId, r.connectionId, t1, t2, t3, t).1.Err?
  {
    RunMoves(s, between, t);
  }

  /** When exactly a well-formed registration is refused: the slug's route is live and its host was seen lately. */
  lemma RegisterRefusedExactly(s: BrokerState, r: Registration, routeId: RouteId, connectionId: ConnectionId,
                               order: seq<RequestId>, t1: int, t2: int, t: Timing)
    requires WellFormedSlug(r.slug) && (r.target.None? || r.targetIsLocal)
    ensures AfterRegister(s, r, routeId, connectionId, order, t1, t2, t).1.Err? <==>
              && r.slug in s.table.routes
              && s.table.routes[r.slug].status == Active
              && t1 < s.table.routes[r.slug].expiresAt
              && t1 < s.table.routes[r.slug].createdAt + t.maxRouteLifetimeMs
              && t1 - s.table.routes[r.slug].lastHeartbeatAt <= t.hostGraceMs
  {
  }

  /**
   Route replacement. When a registration takes over a slug, every request then in
   flight on it is rejected as `route_closed` and requests of other slugs stay.
   */
  lemma ReplacementRejects(s: BrokerState, e: Event, t: Timing)
    requires Inv(s) && Possible(s, e) && e.RegisterEvent? && e.r.slug in s.table.routes
    requires AfterRegister(s, e.r, e.routeId, e.connectionId, e.order, e.t1, e.t2, t).1.Ok?
    ensures var next := Apply(s, e, t);
            && InFlightOn(next.hub, e.r.slug) == {} && QueueOf(next.hub, e.r.slug) == []
            && (forall id :: id in InFlightOn(s.hub, e.r.slug) ==>
                  exists i :: |s.hub.settlements| <= i < |next.hub.settlements| && next.hub.settlements[i] == Settlement(id, Rejected(RouteClosed)))
            && (forall id :: id in s.hub.inflight && s.hub.inflight[id].slug != e.r.slug ==>
                  id in next.hub.inflight && next.hub.inflight[id] == s.hub.inflight[id])
  {
    CloseRouteEmpties(s.hub, e.r.slug, e.order);
  }

  /**
   After a replacement, and whatever happens next, the replaced identifiers match no
   route: heartbeat, poll, respond and close all answer `route_not_found` and change nothing.
   */
  lemma ReplacedIdentifiersAreDead(s: BrokerState, e: Event, after: seq<Event>, connectionId: ConnectionId, t: Timing,
                                   t1: int, t2: int, t3: int, t4: int, id: RequestId, response: ForwardedResponse, maxBytes: nat, order: seq<RequestId>)
    requires Inv(s) && Possible(s, e) && e.RegisterEvent? && e.r.slug in s.table.routes
    requires AfterRegister(s, e.r, e.routeId, e.connectionId, e.order, e.t1, e.t2, t).1.Ok?
    requires PossibleRun(Apply(s, e, t), after, t)
    ensures var gone := s.table.routes[e.r.slug].routeId; var last := Run(Apply(s, e, t), after, t);
            && AfterHeartbeat(last, gone, connectionId, t1, t2, t3, t4, t) == (last, Err(RouteNotFound))
            && AfterPoll(last, gone, connectionId, t1, t2, t3, t) == (last, Err(RouteNotFound))
            && AfterRespond(last, gone, connectionId, id, response, maxBytes, t1, t) == (last, Err(RouteNotFound))
            && AfterClose(last, gone, connectionId, order, t1, t) == (last, Err(RouteNotFound))
  {
    var next := Apply(s, e, t);
    var gone := s.table.routes[e.r.slug].routeId;
    StepKeeps(s, e, t);
    StepMoves(s, e, t);
    assert forall slug :: slug in next.table.routes ==> next.table.routes[slug].routeId != gone;
    RunMoves(next, after, t);
    hide Relay.Inv, Apply, Run, PossibleRun, BornInv;
  }

  /**
   A request claimed under a route's identifiers was enqueued after that route was
   registered: it is not in the enqueue log of any state up to the registration.
   */
  lemma ClaimsAreYoungerThanTheRoute(s: BrokerState, e: Event, after: seq<Event>, t: Timing, t1: int, t2: int, t3: int)
    requires Inv(s) && Possible(s, e) && e.RegisterEvent?
    requires AfterRegister(s, e.r, e.routeId, e.connectionId, e.order, e.t1, e.t2, t).1.Ok?
    requires PossibleRun(Apply(s, e, t), after, t)
    ensures var last := Run(Apply(s, e, t), after, t);
            var claim := AfterPoll(last, e.routeId, e.connectionId, t1, t2, t3, t).1;
            claim.Ok? && claim.value.Some? ==> claim.value.value.requestId in last.hub.log && claim.value.value.requestId !in s.hub.log
  {
    var next := Apply(s, e, t);
    var last := Run(next, after, t);
    StepKeeps(s, e, t);
    RegisterClears(s, e, t);
    assert e.routeId in next.issued && next.table.routes[e.r.slug].routeId == e.routeId;
    hide Apply, Run, PossibleRun, AfterRegister, Relay.Inv, TableInv, BornInv;
    RunMoves(next, after, t);
    var claim := AfterPoll(last, e.routeId, e.connectionId, t1, t2, t3, t).1;
    if claim.Ok? && claim.value.Some? {
      var slug := SlugNamed(last.table, e.routeId, e.connectionId);
      assert slug in last.table.routes && last.table.routes[slug].bornAt == |s.hub.log| by { BirthMarkStays(next, last, e.r.slug, slug); }
      ClaimIsYoung(last, slug, |s.hub.log|);
      assert s.hub.log <= last.hub.log;
    }
  }

  lemma BirthMarkStays(next: BrokerState, last: BrokerState, registered: Slug, slug: Slug)
    requires TableInv(next.table, next.issued) && TableMoves(next.table, next.issued, last.table)
    requires registered in next.table.routes && slug in last.table.routes
    requires last.table.routes[slug].routeId == next.table.routes[registered].routeId
    ensures last.table.routes[slug].bornAt == next.table.routes[registered].bornAt
  {
  }

  /** What a poll hands over was enqueued no earlier than the route's birth mark. */
  lemma ClaimIsYoung(s: BrokerState, slug: Slug, mark: nat)
    requires Inv(s) && slug in s.table.routes && s.table.routes[slug].bornAt == mark
    ensures var request := ClaimedNext(s.hub, slug).1;
      request.Some? ==> exists k :: mark <= k < |s.hub.log| && s.hub.log[k] == request.value.requestId
    ensures NoDuplicates(s.hub.log)
  {
    if slug in s.hub.pending {
      ClaimTakesHead(s.hub, slug);
      hide Waiting, QueuesAreWaiting, HandedInOrder;
      var id := s.hub.pending[slug][0];
      var k := s.hub.inflight[id].serial;
      assert mark <= k < |s.hub.log| && s.hub.log[k] == id;
    }
  }

  // ---- a response under one route's identifiers to another route's request ----

  ghost predicate OthersUntouched(before: Hub, after: Hub, slug: Slug) {
    && (forall id :: id in before.inflight && before.inflight[id].slug != slug ==>
          id in after.inflight && after.inflight[id] == before.inflight[id])
    && (forall other :: other != slug ==> QueueOf(after, other) == QueueOf(before, other))
  }

  /**
   A response only checks that its identifiers name a route, never which route the request
   was made on: other slugs keep their requests and queues exactly when the answered
   request, if it is still in flight, was made on the slug the identifiers name.
   */
  lemma RespondStaysOnItsSlugExactly(s: BrokerState, routeId: RouteId, connectionId: ConnectionId,
                                     id: RequestId, response: ForwardedResponse, maxBytes: nat, t1: int, t: Timing)
    requires Known(s.table, routeId, connectionId)
    ensures var slug := SlugNamed(s.table, routeId, connectionId);
            var after := AfterRespond(s, routeId, connectionId, id, response, maxBytes, t1, t).0;
            OthersUntouched(s.hub, after.hub, slug) <==> (id in s.hub.inflight ==> s.hub.inflight[id].slug == slug)
  {
    var after := AfterRespond(s, routeId, connectionId, id, response, maxBytes, t1, t).0;
    if id in s.hub.inflight {
      assert id !in after.hub.inflight;
      SettlingOneSlug(s.hub, after.hub, id);
    }
  }

  lemma SettlingOneSlug(h: Hub, after: Hub, id: RequestId)
    requires id in h.inflight && after.inflight == Removed(h, id).inflight && after.pending == Removed(h, id).pending
    ensures forall other :: other != h.inflight[id].slug ==> QueueOf(after, other) == QueueOf(h, other)
  {
  }

  /** An id once enqueued is never enqueued again, so what is in flight under it stays on its slug. */
  lemma StepKeepsRequestSlug(s: BrokerState, e: Event, t: Timing, id: RequestId, slug: Slug)
    requires Inv(s) && Possible(s, e) && id in s.hub.log
    requires id in s.hub.inflight ==> s.hub.inflight[id].slug == slug
    ensures var next := Apply(s, e, t).hub;
      id in next.log && (id in next.inflight ==> next.inflight[id].slug == slug)
  {
    StepKeepsHub(s, e, t);
    hide Apply, Possible, QueuesAreWaiting, HandedInOrder, TableInv, BornInv;
    var next := Apply(s, e, t).hub;
    var k :| 0 <= k < |s.hub.log| && s.hub.log[k] == id;
    assert next.log[k] == id;
  }

  lemma {:induction false} RunKeepsRequestSlug(s: BrokerState, events: seq<Event>, t: Timing, id: RequestId, slug: Slug)
    requires Inv(s) && PossibleRun(s, events, t) && id in s.hub.log
    requires id in s.hub.inflight ==> s.hub.inflight[id].slug == slug
    ensures var last := Run(s, events, t).hub; id in last.inflight ==> last.inflight[id].slug == slug
    decreases |events|
  {
    hide Inv, Apply, Possible;
    if events != [] {
      StepKeeps(s, events[0], t);
      StepKeepsRequestSlug(s, events[0], t, id, slug);
      RunKeepsRequestSlug(Apply(s, events[0], t), events[1..], t, id, slug);
    }
  }

  /** What a poll hands over was made on the slug its identifiers name. */
  lemma HandedOnItsSlug(s: BrokerState, e: Event, t: Timing)
    requires Inv(s) && Possible(s, e) && e.PollEvent?
    requires var answer := AfterPoll(s, e.routeId, e.connectionId, e.t1, e.t2, e.t3, t).1; answer.Ok? && answer.value.Some?
    ensures var id := AfterPoll(s, e.routeId, e.connectionId, e.t1, e.t2, e.t3, t).1.value.value.requestId;
      var slug := SlugNamed(s.table, e.routeId, e.connectionId); var next := Apply(s, e, t);
      && id in next.hub.log && id in next.hub.inflight && next.hub.inflight[id].slug == slug
      && Names(next.table, slug, e.routeId, e.connectionId)
  {
    var slug := SlugNamed(s.table, e.routeId, e.connectionId);
    hide Waiting, QueuesAreWaiting, HandedInOrder, BornInv, TableInv;
    ClaimTakesHead(s.hub, slug);
  }

  /** A route's identifiers go on naming the slug they were registered for, or name none. */
  lemma NamedForGood(next: BrokerState, last: BrokerState, slug: Slug, routeId: RouteId, connectionId: ConnectionId)
    requires TableInv(next.table, next.issued) && TableMoves(next.table, next.issued, last.table)
    requires Names(next.table, slug, routeId, connectionId) && Known(last.table, routeId, connectionId)
    ensures SlugNamed(last.table, routeId, connectionId) == slug
  {
    hide Ages;
    var named := SlugNamed(last.table, routeId, connectionId);
    assert Names(last.table, named, routeId, connectionId);
    AgedRoutesKeepTheirId(next, last, named);
  }

  lemma AgedRoutesKeepTheirId(next: BrokerState, last: BrokerState, slug: Slug)
    requires TableMoves(next.table, next.issued, last.table) && slug in last.table.routes
    requires last.table.routes[slug].routeId in next.issued
    ensures slug in next.table.routes && next.table.routes[slug].routeId == last.table.routes[slug].routeId
  {
  }

  /**
   A host that answers only what its own polls handed it never reaches another slug: in
   every later state, its response to such a request touches its own slug alone.
   */
  lemma HandedRequestsStayHome(s: BrokerState, poll: Event, after: seq<Event>, t: Timing,
                               response: ForwardedResponse, maxBytes: nat, t1: int)
    requires Inv(s) && Possible(s, poll) && poll.PollEvent? && PossibleRun(Apply(s, poll, t), after, t)
    requires var answer := AfterPoll(s, poll.routeId, poll.connectionId, poll.t1, poll.t2, poll.t3, t).1; answer.Ok? && answer.value.Some?
    requires Known(Run(Apply(s, poll, t), after, t).table, poll.routeId, poll.connectionId)
    ensures var id := AfterPoll(s, poll.routeId, poll.connectionId, poll.t1, poll.t2, poll.t3, t).1.value.value.requestId;
      var last := Run(Apply(s, poll, t), after, t);
      OthersUntouched(last.hub, AfterRespond(last, poll.routeId, poll.connectionId, id, response, maxBytes, t1, t).0.hub,
                      SlugNamed(s.table, poll.routeId, poll.connectionId))
  {
    var id := AfterPoll(s, poll.routeId, poll.connectionId, poll.t1, poll.t2, poll.t3, t).1.value.value.requestId;
    var next, slug := Apply(s, poll, t), SlugNamed(s.table, poll.routeId, poll.connectionId);
    var last := Run(next, after, t);
    HandedOnItsSlug(s, poll, t);
    StepKeeps(s, poll, t);
    assert TableInv(next.table, next.issued);
    hide Inv, Apply, Possible, AfterPoll, AfterRespond, TableInv, TableMoves, OthersUntouched, SlugNamed, Known;
    RunMoves(next, after, t);
    RunKeepsRequestSlug(next, after, t, id, slug);
    NamedForGood(next, last, slug, poll.routeId, poll.connectionId);
    RespondStaysOnItsSlugExactly(last, poll.routeId, poll.connectionId, id, response, maxBytes, t1, t);
  }

  /** Two routes are registered, and a request is made on the second. */
  function TwoRoutes(a: Slug, b: Slug, first: RouteId, second: RouteId, connection: ConnectionId, id: RequestId, envelope: Envelope): seq<Event> {
    [RegisterEvent(Registration(a, None, false), first, connection, [], 0, 0),
     RegisterEvent(Registration(b, None, false), second, connection, [], 0, 0),
     ForwardEnqueue(b, envelope, id)]
  }

  lemma ThreeEvents(s: BrokerState, d: Event, e: Event, f: Event, t: Timing)
    requires Possible(s, d) && Possible(Apply(s, d, t), e) && Possible(Apply(Apply(s, d, t), e, t), f)
    ensures PossibleRun(s, [d, e, f], t) && Run(s, [d, e, f], t) == Apply(Apply(Apply(s, d, t), e, t), f, t)
  {
    hide Apply, Possible;
    var last := Apply(Apply(Apply(s, d, t), e, t), f, t);
    assert [d, e, f][1..] == [e, f] && [e, f][1..] == [f] && [f][1..] == [];
    assert Run(last, [], t) == last && PossibleRun(last, [], t);
    assert Run(Apply(Apply(s, d, t), e, t), [f], t) == last && PossibleRun(Apply(Apply(s, d, t), e, t), [f], t);
    assert Run(Apply(s, d, t), [e, f], t) == last && PossibleRun(Apply(s, d, t), [e, f], t);
  }

  /** A run in which the host of one slug settles a request made on another. */
  lemma ResponseCrossesSlugs(a: Slug, b: Slug, first: RouteId, second: RouteId, connection: ConnectionId,
                             id: RequestId, envelope: Envelope, response: ForwardedResponse, maxBytes: nat, t: Timing)
    requires WellFormedSlug(a) && WellFormedSlug(b) && a != b && first != second && response.bodyBytes <= maxBytes
    ensures var events := TwoRoutes(a, b, first, second, connection, id, envelope); var s := Run(START, events, t);
      && PossibleRun(START, events, t) && Known(s.table, first, connection) && SlugNamed(s.table, first, connection) == a
      && id in s.hub.inflight && s.hub.inflight[id].slug == b
      && AfterRespond(s, first, connection, id, response, maxBytes, 0, t).1 == Ok(Accepted)
      && id !in AfterRespond(s, first, connection, id, response, maxBytes, 0, t).0.hub.inflight
  {
    var events := TwoRoutes(a, b, first, second, connection, id, envelope);
    var s1 := Apply(START, events[0], t);
    var s2 := Apply(s1, events[1], t);
    var s3 := Apply(s2, events[2], t);
    assert s2.table.routes.Keys == {a, b} && s2.table.routes[a].routeId == first && s2.table.routes[b].routeId == second;
    assert Possible(START, events[0]) && Possible(s1, events[1]) && Possible(s2, events[2]);
    assert Names(s3.table, a, first, connection) && !Names(s3.table, b, first, connection);
    assert id in s3.hub.inflight && s3.hub.inflight[id].slug == b;
    hide Apply, Possible, WellFormedSlug;
    ThreeEvents(START, events[0], events[1], events[2], t);
  }

  // ---- the mutable object ----

  class TunnelBroker {
    const timing: Timing
    var routes: map<Slug, Route>
    var targets: map<Slug, string>
    const relay: RelayHub
    ghost var issued: set<RouteId>
    ghost var clock: int

    ghost function State(): BrokerState
      reads this, relay
    {
      BrokerState(RouteTable(routes, targets), relay.State(), issued, clock)
    }

    constructor (timing: Timing, responseBodyBytes: nat)
      ensures this.timing == timing && fresh(relay) && State() == START && relay.responseBodyBytes == responseBodyBytes
    {
      this.timing := timing;
      routes, targets := map[], map[];
      relay := new RelayHub(responseBodyBytes);
      issued, clock := {}, 0;
    }

    /** `routeId` and `connectionId` are the minted identifiers; `order` is the relay's iteration order. */
    method Register(r: Registration, routeId: RouteId, connectionId: ConnectionId, t1: int, t2: int)
      returns (result: Result<Route>, ghost order: seq<RequestId>)
      modifies this, relay
      ensures Covers(old(relay.State()), order)
      ensures (State(), result) == AfterRegister(old(State()), r, routeId, connectionId, order, t1, t2, timing)
    {
      order := EveryKey(relay.inflight);
      if !WellFormedSlug(r.slug) || (r.target.Some? && !r.targetIsLocal) { return Err(InvalidRegistration), order; }
      var existing := CurrentRoute(r.slug, t1);
      if existing.Some? && existing.value.status == Active && existing.value.hostConnected {
        return Err(RouteSlugTaken), order;
      }
      if existing.Some? { order := relay.CloseRoute(r.slug); }
      var route := Route(r.slug, routeId, connectionId, t2, t2, t2, t2 + timing.routeTtlMs, Active, true, |relay.log|);
      routes := routes[r.slug := route];
      if r.target.Some? { targets := targets[r.slug := r.target.value]; } else { targets := targets - {r.slug}; }
      issued, clock := issued + {routeId}, t2;
      return Ok(route), order;
    }

    method Heartbeat(routeId: Option<RouteId>, connectionId: Option<ConnectionId>, t1: int, t2: int, t3: int, t4: int)
      returns (result: Result<Route>)
      requires TableInv(RouteTable(routes, targets), issued)
      modifies this
      ensures routeId.None? || connectionId.None? ==> result == Err(InvalidHeartbeat) && State() == old(State())
      ensures routeId.Some? && connectionId.Some? ==>
                (State(), result) == AfterHeartbeat(old(State()), routeId.value, connectionId.value, t1, t2, t3, t4, timing)
    {
      if routeId.None? || connectionId.None? { return Err(InvalidHeartbeat); }
      var found := FindByConnection(routeId.value, connectionId.value, t1);
      if found.None? { return Err(RouteNotFound); }
      var route := routes[found.value];
      if route.status == Closed { return Err(RouteIsClosed); }
      if route.status == Expired { return Err(RouteIsExpired); }
      route := route.(lastSeenAt := t2, expiresAt := t2 + timing.routeTtlMs);
      route := route.(lastHeartbeatAt := t3);
      route := Refresh(route, t4, timing);
      routes := routes[found.value := route];
      clock := t4;
      return Ok(route);
    }

    method CloseRoute(routeId: RouteId, connectionId: ConnectionId, t1: int)
      returns (result: Result<Slug>, ghost order: seq<RequestId>)
      requires TableInv(RouteTable(routes, targets), issued)
      modifies this, relay
      ensures Covers(old(relay.State()), order)
      ensures (State(), result) == AfterClose(old(State()), routeId, connectionId, order, t1, timing)
    {
      order := EveryKey(relay.inflight);
      var found := FindByConnection(routeId, connectionId, t1);
      if found.None? { return Err(RouteNotFound), order; }
      var slug := found.value;
      routes := routes[slug := routes[slug].(status := Closed)];
      targets := targets - {slug};
      order := relay.CloseRoute(slug);
      return Ok(slug), order;
    }

    method Resolve(slug: Slug, t1: int) returns (result: Result<Route>)
      modifies this
      ensures (State(), result) == AfterResolve(old(State()), slug, t1, timing)
    {
      var route := CurrentRoute(slug, t1);
      if route.None? { return Err(RouteNotFound); }
      if route.value.status == Closed { return Err(RouteIsClosed); }
      if route.value.status == Expired { return Err(RouteIsExpired); }
      return Ok(route.value);
    }

    method ClaimRelay(routeId: RouteId, connectionId: ConnectionId, t1: int, t2: int, t3: int)
      returns (result: Result<Option<ForwardedRequest>>)
      requires TableInv(RouteTable(routes, targets), issued)
      modifies this, relay
      ensures (State(), result) == AfterPoll(old(State()), routeId, connectionId, t1, t2, t3, timing)
    {
      var found := FindByConnection(routeId, connectionId, t1);
      if found.None? { return Err(RouteNotFound); }
      var slug := found.value;
      if routes[slug].status != Active {
        return Err(if routes[slug].status == Closed then RouteIsClosed else RouteIsExpired);
      }
      routes := routes[slug := routes[slug].(lastHeartbeatAt := t2)];
      TouchRoute(slug, t3);
      var request := relay.Claim(slug);
      return Ok(request);
    }

    method RespondRelay(routeId: RouteId, connectionId: ConnectionId, id: RequestId, response: ForwardedResponse, t1: int)
      returns (result: Result<RespondResult>)
      requires TableInv(RouteTable(routes, targets), issued)
      modifies this, relay
      ensures (State(), result) == AfterRespond(old(State()), routeId, connectionId, id, response, relay.responseBodyBytes, t1, timing)
    {
      var found := FindByConnection(routeId, connectionId, t1);
      if found.None? { return Err(RouteNotFound); }
      var responded := relay.Respond(id, response);
      return Ok(responded);
    }

    /** `touch`: an active route's idle deadline moves on. */
    method TouchRoute(slug: Slug, t1: int)
      modifies this
      ensures State() == old(State()).(table := Touch(old(State()).table, slug, t1, timing), clock := t1)
    {
      if slug in routes && routes[slug].status == Active {
        routes := routes[slug := routes[slug].(lastSeenAt := t1, expiresAt := t1 + timing.routeTtlMs)];
      }
      clock := t1;
    }

    method CurrentRoute(slug: Slug, t1: int) returns (route: Option<Route>)
      modifies this
      ensures State() == old(State()).(table := Current(old(State()).table, slug, t1, timing), clock := t1)
      ensures route == if slug in routes then Some(routes[slug]) else None
    {
      clock := t1;
      if slug !in routes { return None; }
      routes := routes[slug := Refresh(routes[slug], t1, timing)];
      return Some(routes[slug]);
    }

    /** Scan the stored routes for the pair of identifiers and refresh the one found. */
    method FindByConnection(routeId: RouteId, connectionId: ConnectionId, t1: int) returns (found: Option<Slug>)
      requires TableInv(RouteTable(routes, targets), issued)
      modifies this
      ensures found.None? <==> !Known(old(State()).table, routeId, connectionId)
      ensures found.None? ==> State() == old(State())
      ensures found.Some? ==>
                && found.value == SlugNamed(old(State()).table, routeId, connectionId)
                && State() == old(State()).(table := Current(old(State()).table, found.value, t1, timing), clock := t1)
    {
      var remaining := routes.Keys;
      while remaining != {}
        invariant remaining <= routes.Keys && State() == old(State())
        invariant forall slug :: slug in routes && slug !in remaining ==> !Names(State().table, slug, routeId, connectionId)
        decreases |remaining|
      {
        var slug :| slug in remaining;
        remaining := remaining - {slug};
        if routes[slug].routeId == routeId && routes[slug].connectionId == connectionId {
          assert Names(State().table, slug, routeId, connectionId);
          routes := routes[slug := Refresh(routes[slug], t1, timing)];
          clock := t1;
          return Some(slug);
        }
      }
      return None;
    }
  }

  ghost function EveryKey(m: map<RequestId, InFlight>): (order: seq<RequestId>)
    ensures forall id :: id in m ==> id in order
    decreases |m|
  {
    if m == map[] then []
    else
      var id :| id in m;
      [id] + EveryKey(m - {id})
  }
}
