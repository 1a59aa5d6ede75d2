/**
 The broker's request guards (src/tunnel/limits.ts): per-route concurrency counters and
 the release handles that give the slots back.

 A release handle is a closure over its slug, its wait flag and a private `released`
 flag; here it is a record in `handles`, named by the position at which it was issued.
 */
module Guards {
  import opened Relay
  import opened RateWindows

  datatype Limits = Limits(
    concurrentRequestsPerRoute: nat, concurrentWaitsPerRoute: nat,
    unauthenticatedPerIpPerMinute: nat, requestsPerRoutePerMinute: nat)

  datatype Counts = Counts(total: int, waits: int)

  datatype Handle = Handle(slug: Slug, isWait: bool, released: bool)

  datatype Input = Input(slug: Slug, clientIp: string, isWait: bool, authenticated: bool)

  datatype LimitError = RateLimited | RouteRequestLimit | WaitLimit

  datatype Entry = Entered(handle: nat) | Refused(error: LimitError)

  datatype GuardState = GuardState(
    inflight: map<Slug, Counts>,
    handles: seq<Handle>,
    routeRate: map<Slug, Window>,
    ipRate: map<string, Window>)

  const START := GuardState(map[], [], map[], map[])

  function CountsOf(g: GuardState, slug: Slug): Counts {
    if slug in g.inflight then g.inflight[slug] else Counts(0, 0)
  }

  /** Two clock readings, one per rate window. */
  function Enter(g: GuardState, input: Input, limits: Limits, t1: int, t2: int): (GuardState, Entry) {
    var (routeRate, routeOk) := BrokerAdmit(g.routeRate, input.slug, t1, limits.requestsPerRoutePerMinute);
    if !routeOk then (g, Refused(RateLimited))
    else
      var (ipRate, ipOk) :=
        if input.authenticated then (g.ipRate, true)
        else BrokerAdmit(g.ipRate, input.clientIp, t2, limits.unauthenticatedPerIpPerMinute);
      var rated := g.(routeRate := routeRate, ipRate := ipRate);
      var counts := CountsOf(g, input.slug);
      if !ipOk then (rated, Refused(RateLimited))
      else if counts.total >= limits.concurrentRequestsPerRoute then (rated, Refused(RouteRequestLimit))
      else if input.isWait && counts.waits >= limits.concurrentWaitsPerRoute then (rated, Refused(WaitLimit))
      else
        (rated.(inflight := g.inflight[input.slug := Counts(counts.total + 1, counts.waits + if input.isWait then 1 else 0)],
                handles := g.handles + [Handle(input.slug, input.isWait, false)]),
         Entered(|g.handles|))
  }

  function AtLeastZero(n: int): int {
    if n < 0 then 0 else n
  }

  function Release(g: GuardState, handle: nat): GuardState
    requires handle < |g.handles|
  {
    var h := g.handles[handle];
    if h.released then g
    else
      var flagged := g.(handles := g.handles[handle := h.(released := true)]);
      if h.slug !in g.inflight then flagged
      else
        var current := g.inflight[h.slug];
        var next := Counts(AtLeastZero(current.total - 1), if h.isWait then AtLeastZero(current.waits - 1) else current.waits);
        flagged.(inflight := if next.total == 0 && next.waits == 0 then g.inflight - {h.slug} else g.inflight[h.slug := next])
  }

  // ---- the counters count the open handles ----

  function OpenOn(handles: seq<Handle>, slug: Slug): nat {
    if handles == [] then 0
    else
      var last := handles[|handles| - 1];
      OpenOn(handles[..|handles| - 1], slug) + if last.slug == slug && !last.released then 1 else 0
  }

  function OpenWaitsOn(handles: seq<Handle>, slug: Slug): (n: nat)
    ensures n <= OpenOn(handles, slug)
  {
    if handles == [] then 0
    else
      var last := handles[|handles| - 1];
      OpenWaitsOn(handles[..|handles| - 1], slug) + if last.slug == slug && last.isWait && !last.released then 1 else 0
  }

  ghost predicate Inv(g: GuardState) {
    && (forall slug :: CountsOf(g, slug) == Counts(OpenOn(g.handles, slug), OpenWaitsOn(g.handles, slug)))
    && (forall slug :: slug in g.inflight ==> g.inflight[slug].total > 0)
  }

  ghost predicate WithinLimits(g: GuardState, limits: Limits) {
    forall slug :: OpenOn(g.handles, slug) <= limits.concurrentRequestsPerRoute
                   && OpenWaitsOn(g.handles, slug) <= limits.concurrentWaitsPerRoute
  }

  lemma OpenSnoc(handles: seq<Handle>, last: Handle, slug: Slug)
    ensures OpenOn(handles + [last], slug) == OpenOn(handles, slug) + if last.slug == slug && !last.released then 1 else 0
    ensures OpenWaitsOn(handles + [last], slug) == OpenWaitsOn(handles, slug) + if last.slug == slug && last.isWait && !last.released then 1 else 0
  {
    assert (handles + [last])[..|handles|] == handles;
  }

  /** Flipping one open handle takes exactly one off its own slug's counts. */
  lemma {:induction false} OpenAfterFlip(handles: seq<Handle>, i: nat, slug: Slug)
    requires i < |handles| && !handles[i].released
    ensures var flipped := handles[i := handles[i].(released := true)];
            && OpenOn(flipped, slug) == OpenOn(handles, slug) - (if handles[i].slug == slug then 1 else 0)
            && OpenWaitsOn(flipped, slug) == OpenWaitsOn(handles, slug) - (if handles[i].slug == slug && handles[i].isWait then 1 else 0)
  {
    var front := handles[..|handles| - 1];
    var flipped := handles[i := handles[i].(released := true)];
    if i < |front| {
      OpenAfterFlip(front, i, slug);
      assert flipped[..|handles| - 1] == front[i := front[i].(released := true)];
    } else {
      assert flipped[..|handles| - 1] == front;
    }
  }

  lemma EnterKeeps(g: GuardState, input: Input, limits: Limits, t1: int, t2: int)
    requires Inv(g) && WithinLimits(g, limits)
    ensures Inv(Enter(g, input, limits, t1, t2).0) && WithinLimits(Enter(g, input, limits, t1, t2).0, limits)
  {
    hide OpenOn, OpenWaitsOn;
    var (next, entry) := Enter(g, input, limits, t1, t2);
    forall slug
      ensures CountsOf(next, slug) == Counts(OpenOn(next.handles, slug), OpenWaitsOn(next.handles, slug))
      ensures OpenOn(next.handles, slug) <= limits.concurrentRequestsPerRoute && OpenWaitsOn(next.handles, slug) <= limits.concurrentWaitsPerRoute
    {
      OpenSnoc(g.handles, Handle(input.slug, input.isWait, false), slug);
      assert CountsOf(g, slug) == Counts(OpenOn(g.handles, slug), OpenWaitsOn(g.handles, slug));
    }
  }

  lemma ReleaseKeeps(g: GuardState, handle: nat, limits: Limits)
    requires Inv(g) && WithinLimits(g, limits) && handle < |g.handles|
    ensures Inv(Release(g, handle)) && WithinLimits(Release(g, handle), limits)
  {
    var h := g.handles[handle];
    if !h.released {
      ReleaseNeverClamps(g, handle);
      var next := Release(g, handle);
      forall slug
        ensures CountsOf(next, slug) == Counts(OpenOn(next.handles, slug), OpenWaitsOn(next.handles, slug))
        ensures OpenOn(next.handles, slug) <= limits.concurrentRequestsPerRoute && OpenWaitsOn(next.handles, slug) <= limits.concurrentWaitsPerRoute
      {
        OpenAfterFlip(g.handles, handle, slug);
        assert CountsOf(g, slug) == Counts(OpenOn(g.handles, slug), OpenWaitsOn(g.handles, slug));
      }
    }
  }

  /**
   The clamps to zero never act and a release never misses its counter: the slot an open
   handle stands for is there, and it is the only thing the release takes.
   */
  lemma ReleaseNeverClamps(g: GuardState, handle: nat)
    requires Inv(g) && handle < |g.handles| && !g.handles[handle].released
    ensures var h := g.handles[handle]; var next := Release(g, handle);
            && h.slug in g.inflight && g.inflight[h.slug].total >= 1 && (h.isWait ==> g.inflight[h.slug].waits >= 1)
            && CountsOf(next, h.slug) == Counts(g.inflight[h.slug].total - 1, g.inflight[h.slug].waits - if h.isWait then 1 else 0)
            && (forall slug :: slug != h.slug ==> CountsOf(next, slug) == CountsOf(g, slug))
  {
    var h := g.handles[handle];
    OpenAfterFlip(g.handles, handle, h.slug);
    assert CountsOf(g, h.slug) == Counts(OpenOn(g.handles, h.slug), OpenWaitsOn(g.handles, h.slug));
  }

  // ---- runs ----

  datatype Event = EnterEvent(input: Input, t1: int, t2: int) | ReleaseEvent(handle: nat)

  function Apply(g: GuardState, e: Event, limits: Limits): GuardState {
    match e
    case EnterEvent(input, t1, t2) => Enter(g, input, limits, t1, t2).0
    case ReleaseEvent(handle) => if handle < |g.handles| then Release(g, handle) else g
  }

  function Run(g: GuardState, events: seq<Event>, limits: Limits): GuardState
    decreases |events|
  {
    if events == [] then g else Run(Apply(g, events[0], limits), events[1..], limits)
  }

  /**
   After any run of entries and (repeated) releases each counter is exactly the number of
   unreleased handles of its slug, within both limits, and a second release does nothing.
   */
  lemma {:induction false} CountersAreOpenHandles(g: GuardState, events: seq<Event>, limits: Limits)
    requires Inv(g) && WithinLimits(g, limits)
    ensures var last := Run(g, events, limits);
            && Inv(last) && WithinLimits(last, limits)
            && (forall handle :: 0 <= handle < |last.handles| ==> Release(Release(last, handle), handle) == Release(last, handle))
    decreases |events|
  {
    if events != [] {
      match events[0] {
        case EnterEvent(input, t1, t2) => EnterKeeps(g, input, limits, t1, t2);
        case ReleaseEvent(handle) => if handle < |g.handles| { ReleaseKeeps(g, handle, limits); }
      }
      CountersAreOpenHandles(Apply(g, events[0], limits), events[1..], limits);
    }
  }

  // ---- the mutable object ----

  class BrokerGuards {
    const limits: Limits
    var inflight: map<Slug, Counts>
    var handles: seq<Handle>
    var routeRate: map<Slug, Window>
    var ipRate: map<string, Window>

    function State(): GuardState
      reads this
    {
      GuardState(inflight, handles, routeRate, ipRate)
    }

    constructor (limits: Limits)
      ensures this.limits == limits && State() == START
    {
      this.limits := limits;
      inflight, handles, routeRate, ipRate := map[], [], map[], map[];
    }

    method EnterRequest(input: Input, t1: int, t2: int) returns (entry: Entry)
      modifies this
      ensures (State(), entry) == Enter(old(State()), input, limits, t1, t2)
    {
      var admitted: bool;
      routeRate, admitted := AdmitRate(routeRate, input.slug, t1, limits.requestsPerRoutePerMinute);
      if !admitted { return Refused(RateLimited); }
      if !input.authenticated {
        ipRate, admitted := AdmitRate(ipRate, input.clientIp, t2, limits.unauthenticatedPerIpPerMinute);
        if !admitted { return Refused(RateLimited); }
      }
      var counts := if input.slug in inflight then inflight[input.slug] else Counts(0, 0);
      if counts.total >= limits.concurrentRequestsPerRoute { return Refused(RouteRequestLimit); }
      if input.isWait && counts.waits >= limits.concurrentWaitsPerRoute { return Refused(WaitLimit); }
      counts := counts.(total := counts.total + 1);
      if input.isWait { counts := counts.(waits := counts.waits + 1); }
      inflight := inflight[input.slug := counts];
      handles := handles + [Handle(input.slug, input.isWait, false)];
      return Entered(|handles| - 1);
    }

    method ReleaseHandle(handle: nat)
      requires handle < |handles|
      modifies this
      ensures State() == Release(old(State()), handle)
    {
      var h := handles[handle];
      if h.released { return; }
      handles := handles[handle := h.(released := true)];
      if h.slug !in inflight { return; }
      var current := inflight[h.slug];
      current := current.(total := AtLeastZero(current.total - 1));
      if h.isWait { current := current.(waits := AtLeastZero(current.waits - 1)); }
      inflight := if current.total == 0 && current.waits == 0 then inflight - {h.slug} else inflight[h.slug := current];
    }

    static method AdmitRate<K>(windows: map<K, Window>, key: K, now: int, perMinute: nat) returns (next: map<K, Window>, admitted: bool)
      ensures (next, admitted) == BrokerAdmit(windows, key, now, perMinute)
    {
      if key !in windows || now >= windows[key].resetAt {
        return windows[key := Window(now + RATE_WINDOW_MS, 1)], true;
      }
      if windows[key].count >= perMinute { return windows, false; }
      return windows[key := windows[key].(count := windows[key].count + 1)], true;
    }
  }
}
