/**
 A second ceiling on the relay_requests counter, from the per-minute limit: what one slug
 is charged in a quota window cannot exceed what was open when the window began plus what
 the rate limiter admits while it lasts. With small per-minute limits it lies below the
 quota, which a slug then never reaches.
 */
module QuotaRate {
  import opened Collections
  import opened Metering
  import opened QuotaBound
  import opened RateWindows
  import Guards
  import Relay

  /** The forward may still be charged, now or in a later window. */
  predicate MayBeCharged(phase: Phase) {
    phase.Held? || phase.Read? || phase.Admitted?
  }

  ghost function PendingOn(s: State, slug: Relay.Slug, n: nat): nat
    requires n <= |s.phases| == |s.guards.handles|
  {
    if n == 0 then 0
    else PendingOn(s, slug, n - 1) + if s.guards.handles[n - 1].slug == slug && MayBeCharged(s.phases[n - 1]) then 1 else 0
  }

  /** The slug of every forward, and whether it may be charged, is the same in both. */
  ghost predicate SamePending(a: State, b: State, slug: Relay.Slug, n: nat)
    requires n <= |a.phases| == |a.guards.handles| && n <= |b.phases| == |b.guards.handles|
  {
    forall h :: 0 <= h < n ==>
      (a.guards.handles[h].slug == slug && MayBeCharged(a.phases[h]) <==> b.guards.handles[h].slug == slug && MayBeCharged(b.phases[h]))
  }

  lemma {:induction false} PendingSame(a: State, b: State, slug: Relay.Slug, n: nat)
    requires n <= |a.phases| == |a.guards.handles| && n <= |b.phases| == |b.guards.handles| && SamePending(a, b, slug, n)
    ensures PendingOn(a, slug, n) == PendingOn(b, slug, n)
  {
    if n > 0 { PendingSame(a, b, slug, n - 1); }
  }

  /** One forward changes its phase. */
  lemma {:induction false} PendingMoves(s: State, h: nat, phase: Phase, slug: Relay.Slug, n: nat)
    requires h < |s.phases| == |s.guards.handles| && n <= |s.phases|
    ensures var next := s.(phases := s.phases[h := phase]);
      PendingOn(next, slug, n) == PendingOn(s, slug, n) +
        if h < n && s.guards.handles[h].slug == slug
        then (if MayBeCharged(phase) then 1 else 0) - (if MayBeCharged(s.phases[h]) then 1 else 0) else 0
  {
    hide MayBeCharged;
    if n > 0 { PendingMoves(s, h, phase, slug, n - 1); }
  }

  lemma {:induction false} PendingHoldsSlots(s: State, slug: Relay.Slug, n: nat)
    requires n <= |s.phases| == |s.guards.handles| && SlotsHeld(s)
    ensures PendingOn(s, slug, n) <= Guards.OpenOn(s.guards.handles[..n], slug)
  {
    if n > 0 {
      PendingHoldsSlots(s, slug, n - 1);
      assert s.guards.handles[..n][..n - 1] == s.guards.handles[..n - 1];
    }
  }

  lemma PendingWithinConcurrency(s: State, slug: Relay.Slug, limit: Limit)
    requires |s.phases| == |s.guards.handles| && SlotsHeld(s) && Guards.WithinLimits(s.guards, limit.guards)
    ensures PendingOn(s, slug, |s.phases|) <= limit.guards.concurrentRequestsPerRoute
  {
    PendingHoldsSlots(s, slug, |s.phases|);
    assert s.guards.handles[..|s.phases|] == s.guards.handles;
  }

  // ---- what the rate limiter admits ----

  /** A rate window's first call is always admitted. */
  function PerMinute(limit: Limit): (n: nat)
    ensures n > 0
  {
    if limit.guards.requestsPerRoutePerMinute > 0 then limit.guards.requestsPerRoutePerMinute else 1
  }

  function WindowStart(now: int, quota: Quota): int
    requires quota.windowMs > 0
  {
    WindowId(now, quota.windowMs) * quota.windowMs
  }

  /** How many whole rate windows may have passed since `start` before one began at `began`. */
  function Before(began: int, start: int): nat {
    if began < start then 0 else 1 + (began - start) / RATE_WINDOW_MS
  }

  /** At most so many calls of the slug were admitted since `start`. */
  function AdmittedSince(windows: map<Relay.Slug, Window>, slug: Relay.Slug, start: int, limit: Limit): int {
    if slug !in windows then 0
    else PerMinute(limit) * Before(windows[slug].resetAt - RATE_WINDOW_MS, start) + windows[slug].count
  }

  ghost predicate RatePast(windows: map<Relay.Slug, Window>, slug: Relay.Slug, now: int, limit: Limit) {
    slug in windows ==> windows[slug].resetAt - RATE_WINDOW_MS <= now && 0 <= windows[slug].count <= PerMinute(limit)
  }

  lemma LaterWindow(began: int, now: int, start: int)
    requires start <= now && began + RATE_WINDOW_MS <= now
    ensures Before(began, start) + 1 <= Before(now, start)
  {
  }

  lemma Scaled(r: nat, a: nat, b: nat)
    requires a <= b
    ensures r * a <= r * b
  {
  }

  /** A call that opens a new rate window: the elapsed one may have been full. */
  lemma OpeningCounts(windows: map<Relay.Slug, Window>, slug: Relay.Slug, now: int, start: int, limit: Limit)
    requires start <= now && RatePast(windows, slug, now, limit) && Opens(windows, slug, now)
    ensures PerMinute(limit) * Before(now, start) + 1 >= AdmittedSince(windows, slug, start, limit) + 1
  {
    var r := PerMinute(limit);
    if slug in windows {
      var began := windows[slug].resetAt - RATE_WINDOW_MS;
      LaterWindow(began, now, start);
      Scaled(r, Before(began, start) + 1, Before(now, start));
      assert r * (Before(began, start) + 1) == r * Before(began, start) + r;
      hide Before, PerMinute;
    }
  }

  /** One more admitted call counts as one more; a refused one, or one of another slug, changes nothing. */
  lemma AdmitCounts(windows: map<Relay.Slug, Window>, key: Relay.Slug, slug: Relay.Slug, now: int, start: int, limit: Limit)
    requires start <= now && RatePast(windows, slug, now, limit)
    ensures var (next, ok) := BrokerAdmit(windows, key, now, limit.guards.requestsPerRoutePerMinute);
      && RatePast(next, slug, now, limit)
      && AdmittedSince(next, slug, start, limit) >= AdmittedSince(windows, slug, start, limit) + if ok && key == slug then 1 else 0
  {
    if key == slug && Opens(windows, slug, now) { OpeningCounts(windows, slug, now, start, limit); }
    hide Before;
  }

  // ---- the invariant ----

  /** Charged in the current window, and what may still be, against what was open at its start and was admitted since. */
  ghost predicate Paced(s: State, slug: Relay.Slug, limit: Limit)
    requires WellFormed(limit.quota) && |s.phases| == |s.guards.handles|
  {
    && RatePast(s.guards.routeRate, slug, s.clock, limit)
    && InWindow(s.store, slug.text, RelayRequests, s.clock, limit.quota) + PendingOn(s, slug, |s.phases|)
       <= limit.guards.concurrentRequestsPerRoute + AdmittedSince(s.guards.routeRate, slug, WindowStart(s.clock, limit.quota), limit)
  }

  lemma StartsInThePast(now: int, quota: Quota)
    requires quota.windowMs > 0
    ensures WindowStart(now, quota) <= now < WindowStart(now, quota) + quota.windowMs
  {
  }

  lemma AdmittedIsNat(s: State, slug: Relay.Slug, start: int, limit: Limit)
    requires RatePast(s.guards.routeRate, slug, s.clock, limit)
    ensures AdmittedSince(s.guards.routeRate, slug, start, limit) >= 0
  {
    hide Before;
  }

  /** What the clock's passing relies on. */
  ghost predicate Steady(s: State, limit: Limit) {
    && WellFormed(limit.quota) && |s.phases| == |s.guards.handles|
    && SlotsHeld(s) && Guards.WithinLimits(s.guards, limit.guards) && WindowsPast(s, limit.quota)
  }

  lemma AdvancePaces(s: State, now: int, slug: Relay.Slug, limit: Limit)
    requires Steady(s, limit) && Paced(s, slug, limit) && s.clock <= now
    ensures Paced(s.(clock := now), slug, limit)
  {
    var next, quota := s.(clock := now), limit.quota;
    hide AdmittedSince, PendingOn;
    PendingSame(s, next, slug, |s.phases|);
    WindowsGrow(s.clock, now, quota.windowMs);
    if WindowId(s.clock, quota.windowMs) != WindowId(now, quota.windowMs) {
      PendingWithinConcurrency(s, slug, limit);
      AdmittedIsNat(next, slug, WindowStart(now, quota), limit);
    }
  }

  /** What entering does: the route's rate window takes the call, and an entered one is held. */
  lemma EnterMoves(s: State, input: Guards.Input, t1: int, t2: int, limit: Limit)
    requires WellFormed(limit.quota) && |s.phases| == |s.guards.handles| && s.clock <= t1 <= t2
    ensures var (windows, ok) := BrokerAdmit(s.guards.routeRate, input.slug, t1, limit.guards.requestsPerRoutePerMinute);
            var next := Apply(s, Enter(input, t1, t2), limit);
      && next.store == s.store && next.clock == t2
      && ((next.guards.routeRate == s.guards.routeRate && !ok) || (next.guards.routeRate == windows && ok))
      && ((next.phases == s.phases && next.guards.handles == s.guards.handles)
          || (ok && next.phases == s.phases + [Held] && next.guards.handles == s.guards.handles + [Guards.Handle(input.slug, input.isWait, false)]))
  {
    hide BrokerAdmit;
  }

  lemma PendingGrows(s: State, next: State, slug: Relay.Slug, last: Guards.Handle)
    requires |s.phases| == |s.guards.handles| && next.phases == s.phases + [Held] && next.guards.handles == s.guards.handles + [last]
    ensures PendingOn(next, slug, |next.phases|) == PendingOn(s, slug, |s.phases|) + if last.slug == slug then 1 else 0
  {
    PendingSame(s, next, slug, |s.phases|);
  }

  lemma EnterPaces(s: State, input: Guards.Input, t1: int, t2: int, slug: Relay.Slug, limit: Limit)
    requires Inv(s, limit) && Paced(s, slug, limit) && s.clock <= t1 <= t2
    ensures Paced(Apply(s, Enter(input, t1, t2), limit), slug, limit)
  {
    var now, next := s.(clock := t1), Apply(s, Enter(input, t1, t2), limit);
    var mid := next.(clock := t1);
    AdvancePaces(s, t1, slug, limit);
    AdvanceKeeps(s, t1, limit);
    EnterKeepsBound(s, input, t1, t2, limit);
    EnterMoves(s, input, t1, t2, limit);
    AdmitCounts(s.guards.routeRate, input.slug, slug, t1, WindowStart(t1, limit.quota), limit);
    StartsInThePast(t1, limit.quota);
    assert Steady(mid, limit) && Paced(mid, slug, limit) by {
      hide BrokerAdmit, AdmittedSince, RatePast, InWindow, WindowStart, PendingOn, Bounded, LiveOn, Apply, Guards.Inv;
      if next.phases == s.phases {
        PendingSame(now, mid, slug, |s.phases|);
      } else {
        PendingGrows(now, mid, slug, Guards.Handle(input.slug, input.isWait, false));
      }
    }
    hide Inv, Paced, Apply, Steady;
    AdvancePaces(mid, t2, slug, limit);
  }

  /** A step of one forward that charges nothing. */
  lemma PhasePaces(s: State, h: nat, phase: Phase, slug: Relay.Slug, limit: Limit)
    requires WellFormed(limit.quota) && h < |s.phases| == |s.guards.handles| && Paced(s, slug, limit)
    requires MayBeCharged(phase) ==> MayBeCharged(s.phases[h])
    ensures Paced(s.(phases := s.phases[h := phase]), slug, limit)
  {
    hide AdmittedSince, RatePast, InWindow, WindowStart, PendingOn, MayBeCharged;
    PendingMoves(s, h, phase, slug, |s.phases|);
  }

  lemma ChargePaces(s: State, h: nat, t1: int, t2: int, slug: Relay.Slug, limit: Limit)
    requires Inv(s, limit) && Paced(s, slug, limit) && h < |s.phases| && s.phases[h].Admitted? && s.clock <= t1 <= t2
    ensures Paced(Apply(s, ChargeRequest(h, t1, t2), limit), slug, limit)
  {
    var now, next := s.(clock := t1), Apply(s, ChargeRequest(h, t1, t2), limit);
    var mid := next.(clock := t1);
    AdvancePaces(s, t1, slug, limit);
    ChargeKeeps(s, h, t1, t2, limit);
    ChargeKeeps(s, h, t1, t1, limit);
    ChargeAddsOnce(s.store, SubjectOf(s, h), RelayRequests, 1, t1, t2, limit.quota, slug.text, RelayRequests);
    assert Relay.Slug(SubjectOf(s, h)) == s.guards.handles[h].slug && Relay.Slug(slug.text) == slug;
    AdvanceKeeps(s, t1, limit);
    ChargedIsPast(now, mid, SubjectOf(s, h), h, limit);
    assert Paced(mid, slug, limit) by {
      hide AdmittedSince, RatePast, InWindow, WindowStart, PendingOn, Charged, Inv;
      PendingMoves(now, h, Over, slug, |s.phases|);
      PendingSame(now.(phases := now.phases[h := Over]), mid, slug, |s.phases|);
    }
    hide Inv, Paced, Apply, Steady;
    AdvancePaces(mid, t2, slug, limit);
  }

  lemma ChargedIsPast(now: State, mid: State, subject: string, h: nat, limit: Limit)
    requires Inv(now, limit) && h < |now.phases| && mid.clock == now.clock && mid.guards == now.guards && mid.phases == now.phases[h := Over]
    requires mid.store.Keys == now.store.Keys + {subject} && mid.store[subject].window.id == WindowId(now.clock, limit.quota.windowMs)
    requires forall other :: other in now.store && other != subject ==> mid.store[other] == now.store[other]
    ensures Steady(mid, limit)
  {
    hide WindowId, Bounded, Guards.WithinLimits, Guards.Inv;
  }

  lemma ChargeOtherPaces(s: State, subject: string, d: Dimension, amount: nat, t1: int, t2: int, slug: Relay.Slug, limit: Limit)
    requires Inv(s, limit) && Paced(s, slug, limit) && d != RelayRequests && s.clock <= t1 <= t2
    ensures Paced(Apply(s, ChargeOther(subject, d, amount, t1, t2), limit), slug, limit)
  {
    var now, next := s.(clock := t1), Apply(s, ChargeOther(subject, d, amount, t1, t2), limit);
    var mid := next.(clock := t1);
    AdvancePaces(s, t1, slug, limit);
    AdvanceKeeps(s, t1, limit);
    ChargeAddsOnce(s.store, subject, d, amount, t1, t2, limit.quota, slug.text, RelayRequests);
    OtherIsPast(now, mid, subject, limit);
    assert Paced(mid, slug, limit) by {
      hide AdmittedSince, RatePast, InWindow, WindowStart, PendingOn, Charged, Inv;
      PendingSame(now, mid, slug, |s.phases|);
    }
    hide Inv, Paced, Apply, Steady;
    AdvancePaces(mid, t2, slug, limit);
  }

  lemma OtherIsPast(now: State, mid: State, subject: string, limit: Limit)
    requires Inv(now, limit) && mid.clock == now.clock && mid.guards == now.guards && mid.phases == now.phases
    requires mid.store.Keys == now.store.Keys + {subject} && mid.store[subject].window.id == WindowId(now.clock, limit.quota.windowMs)
    requires forall other :: other in now.store && other != subject ==> mid.store[other] == now.store[other]
    ensures Steady(mid, limit)
  {
    hide WindowId, Bounded, Guards.WithinLimits, Guards.Inv;
  }

  lemma ReleasePaces(s: State, h: nat, slug: Relay.Slug, limit: Limit)
    requires WellFormed(limit.quota) && |s.phases| == |s.guards.handles| && Paced(s, slug, limit) && h < |s.phases|
    requires s.phases[h].Over? || s.phases[h].Direct?
    ensures |Guards.Release(s.guards, h).handles| == |s.phases| && Paced(s.(guards := Guards.Release(s.guards, h)), slug, limit)
  {
    hide AdmittedSince, RatePast, InWindow, WindowStart, PendingOn;
    PendingSame(s, s.(guards := Guards.Release(s.guards, h)), slug, |s.phases|);
  }

  lemma StepPaces(s: State, e: Event, slug: Relay.Slug, limit: Limit)
    requires Inv(s, limit) && Paced(s, slug, limit) && Possible(s, e)
    requires |Apply(s, e, limit).phases| == |Apply(s, e, limit).guards.handles|
    ensures Paced(Apply(s, e, limit), slug, limit)
  {
    match e
    case Enter(input, t1, t2) => EnterPaces(s, input, t1, t2, slug, limit);
    case RouteDirectly(h) => PhasePaces(s, h, Direct, slug, limit);
    case ReadQuota(h) => PhasePaces(s, h, Read(Lookup(s.store, SubjectOf(s, h))), slug, limit);
    case Decide(h, t1) =>
      hide Paced;
      AdvancePaces(s, t1, slug, limit);
      PhasePaces(s.(clock := t1), h, Admitted, slug, limit);
      PhasePaces(s.(clock := t1), h, Over, slug, limit);
    case ChargeRequest(h, t1, t2) => ChargePaces(s, h, t1, t2, slug, limit);
    case ChargeOther(subject, d, amount, t1, t2) => ChargeOtherPaces(s, subject, d, amount, t1, t2, slug, limit);
    case Fail(h) => PhasePaces(s, h, Over, slug, limit);
    case ReleaseSlot(h) => ReleasePaces(s, h, slug, limit);
  }

  lemma {:induction false} RunPaces(s: State, events: seq<Event>, slug: Relay.Slug, limit: Limit)
    requires Inv(s, limit) && Paced(s, slug, limit) && PossibleRun(s, events, limit)
    ensures Inv(Run(s, events, limit), limit) && Paced(Run(s, events, limit), slug, limit)
    decreases |events|
  {
    hide Paced, Apply, Possible, Bounded, WindowsPast, Guards.WithinLimits, Guards.Inv;
    if events != [] {
      StepKeeps(s, events[0], limit);
      StepPaces(s, events[0], slug, limit);
      RunPaces(Apply(s, events[0], limit), events[1..], slug, limit);
    }
  }

  // ---- the ceiling ----

  /** How many calls of one slug the rate limiter admits, at most, from a quota window's start to its end. */
  function AdmittedPerWindow(limit: Limit): nat
    requires limit.quota.windowMs > 0
  {
    PerMinute(limit) * (2 + (limit.quota.windowMs - 1) / RATE_WINDOW_MS)
  }

  lemma AdmittedInWindow(windows: map<Relay.Slug, Window>, slug: Relay.Slug, now: int, limit: Limit)
    requires limit.quota.windowMs > 0 && RatePast(windows, slug, now, limit)
    ensures AdmittedSince(windows, slug, WindowStart(now, limit.quota), limit) <= AdmittedPerWindow(limit)
  {
    StartsInThePast(now, limit.quota);
    if slug in windows {
      var start, began := WindowStart(now, limit.quota), windows[slug].resetAt - RATE_WINDOW_MS;
      hide WindowStart;
      assert Before(began, start) <= 1 + (limit.quota.windowMs - 1) / RATE_WINDOW_MS;
      hide Before;
      Scaled(PerMinute(limit), Before(began, start), 1 + (limit.quota.windowMs - 1) / RATE_WINDOW_MS);
    }
  }

  lemma StartPaces(slug: Relay.Slug, limit: Limit)
    requires WellFormed(limit.quota)
    ensures Inv(START, limit) && Paced(START, slug, limit)
  {
  }

  /**
   Over every interleaving the relay_requests counter of a slug's current window is at most
   the concurrent requests allowed per route plus the smaller of its quota and what the
   per-minute limit admits in a quota window.
   */
  lemma RateBound(events: seq<Event>, slug: Relay.Slug, limit: Limit)
    requires WellFormed(limit.quota) && PossibleRun(START, events, limit)
    ensures var last := Run(START, events, limit);
      InWindow(last.store, slug.text, RelayRequests, last.clock, limit.quota)
      <= limit.guards.concurrentRequestsPerRoute
         + if limit.quota.limits[RelayRequests] < AdmittedPerWindow(limit) then limit.quota.limits[RelayRequests] else AdmittedPerWindow(limit)
  {
    StartPaces(slug, limit);
    hide Run, PossibleRun, AdmittedPerWindow, AdmittedSince;
    RunPaces(START, events, slug, limit);
    OvershootBound(events, slug, limit);
    AdmittedInWindow(Run(START, events, limit).guards.routeRate, slug, Run(START, events, limit).clock, limit);
  }

  /** With the shipped limits, 600 a minute and 1,000,000 a day, one slug's counter never exceeds its quota of requests. */
  lemma ShippedQuotaIsOutOfReach(events: seq<Event>, slug: Relay.Slug, limit: Limit)
    requires WellFormed(limit.quota) && PossibleRun(START, events, limit)
    requires limit.guards.requestsPerRoutePerMinute == 600 && limit.guards.concurrentRequestsPerRoute == 64
    requires limit.quota.limits[RelayRequests] == 1_000_000 && limit.quota.windowMs == 86_400_000
    ensures var last := Run(START, events, limit);
      InWindow(last.store, slug.text, RelayRequests, last.clock, limit.quota) <= limit.quota.limits[RelayRequests]
  {
    hide Run, PossibleRun;
    RateBound(events, slug, limit);
  }
}
