/**
 The overshoot bound of `QuotaBound` cannot be improved: a run that reaches it, for every
 quota and every concurrency limit that the per-minute limit leaves room for in one quota
 window. The run fills one rate window after the other.
 */
module QuotaReached {
  import opened Metering
  import opened QuotaBound
  import opened QuotaRate
  import Guards
  import RateWindows
  import Relay

  ghost predicate Reachable(s: State, limit: Limit)
    requires WellFormed(limit.quota)
  {
    exists events :: PossibleRun(START, events, limit) && Run(START, events, limit) == s
  }

  lemma {:induction false} RunSnoc(s: State, events: seq<Event>, e: Event, limit: Limit)
    requires WellFormed(limit.quota) && |s.phases| == |s.guards.handles| && PossibleRun(s, events, limit)
    requires var last := Run(s, events, limit);
             |last.phases| == |last.guards.handles| && Possible(last, e)
             && |Apply(last, e, limit).phases| == |Apply(last, e, limit).guards.handles|
    ensures PossibleRun(s, events + [e], limit) && Run(s, events + [e], limit) == Apply(Run(s, events, limit), e, limit)
    decreases |events|
  {
    hide Apply, Possible;
    var all := events + [e];
    if events == [] {
      assert all[0] == e && all[1..] == [];
    } else {
      assert all[0] == events[0] && all[1..] == events[1..] + [e];
      RunSnoc(Apply(s, events[0], limit), events[1..], e, limit);
    }
  }

  lemma ReachesNext(s: State, e: Event, limit: Limit)
    requires WellFormed(limit.quota) && Reachable(s, limit) && Possible(s, e)
    requires |s.phases| == |s.guards.handles| && |Apply(s, e, limit).phases| == |Apply(s, e, limit).guards.handles|
    ensures Reachable(Apply(s, e, limit), limit)
  {
    hide Apply, Possible, Run, PossibleRun;
    var events :| PossibleRun(START, events, limit) && Run(START, events, limit) == s;
    RunSnoc(START, events, e, limit);
  }

  /** Where a run of calls stands that fills one rate window after the other. */
  datatype Place = Place(minute: nat, used: nat)

  function Placed(calls: nat, limit: Limit): (p: Place)
    ensures calls > 0 ==> p.used > 0
  {
    if calls == 0 then Place(0, 0)
    else
      var p := Placed(calls - 1, limit);
      if p.used < PerMinute(limit) then Place(p.minute, p.used + 1) else Place(p.minute + 1, 1)
  }

  lemma {:induction false} PlacedCounts(calls: nat, limit: Limit)
    ensures var p := Placed(calls, limit); calls == p.minute * PerMinute(limit) + p.used && p.used <= PerMinute(limit)
  {
    if calls > 0 { PlacedCounts(calls - 1, limit); }
  }

  function TimeOf(calls: nat, limit: Limit): int {
    RateWindows.RATE_WINDOW_MS * Placed(calls, limit).minute
  }

  /** As many calls as whole rate windows admit all fall into the first quota window. */
  lemma CallsFit(calls: nat, limit: Limit)
    requires 0 < calls <= PerMinute(limit) * (limit.quota.windowMs / RateWindows.RATE_WINDOW_MS)
    ensures TimeOf(calls, limit) < limit.quota.windowMs
  {
    PlacedCounts(calls, limit);
    var p, minutes, per := Placed(calls, limit), limit.quota.windowMs / RateWindows.RATE_WINDOW_MS, PerMinute(limit);
    assert p.minute >= minutes ==> p.minute * per >= minutes * per;
  }

  lemma FirstWindow(now: int, windowMs: nat)
    requires 0 <= now < windowMs
    ensures WindowId(now, windowMs) == 0
  {
  }

  /** The slug's rate window after so many calls. */
  ghost predicate Counted(windows: map<Relay.Slug, RateWindows.Window>, slug: Relay.Slug, limit: Limit, calls: nat) {
    && (slug in windows <==> calls > 0)
    && (slug in windows ==>
          windows[slug] == RateWindows.Window(TimeOf(calls, limit) + RateWindows.RATE_WINDOW_MS, Placed(calls, limit).used))
  }

  lemma AdmitsNextCall(windows: map<Relay.Slug, RateWindows.Window>, slug: Relay.Slug, limit: Limit, calls: nat)
    requires Counted(windows, slug, limit, calls)
    ensures var (next, ok) := RateWindows.BrokerAdmit(windows, slug, TimeOf(calls + 1, limit), limit.guards.requestsPerRoutePerMinute);
      ok && Counted(next, slug, limit, calls + 1)
    ensures TimeOf(calls, limit) <= TimeOf(calls + 1, limit)
  {
    PlacedCounts(calls, limit);
  }

  /** So many slots open, calls made and relay requests charged on one slug, in the first quota window, and nothing else. */
  ghost predicate Calm(s: State, slug: Relay.Slug, limit: Limit, open: nat, calls: nat, charged: nat)
    requires WellFormed(limit.quota)
  {
    && s.clock == TimeOf(calls, limit) && s.clock < limit.quota.windowMs && |s.phases| == |s.guards.handles|
    && Guards.CountsOf(s.guards, slug) == Guards.Counts(open, 0)
    && Counted(s.guards.routeRate, slug, limit, calls)
    && (forall d: Dimension :: InWindow(s.store, slug.text, d, 0, limit.quota) == if d == RelayRequests then charged else 0)
  }

  ghost predicate Roomy(slug: Relay.Slug, limit: Limit, open: nat, calls: nat, charged: nat)
    requires WellFormed(limit.quota)
  {
    && open < limit.guards.concurrentRequestsPerRoute
    && calls < PerMinute(limit) * (limit.quota.windowMs / RateWindows.RATE_WINDOW_MS)
    && charged <= limit.quota.limits[RelayRequests]
  }

  lemma EnterOne(s: State, slug: Relay.Slug, limit: Limit, open: nat, calls: nat, charged: nat) returns (next: State)
    requires WellFormed(limit.quota) && Reachable(s, limit)
    requires Calm(s, slug, limit, open, calls, charged) && Roomy(slug, limit, open, calls, charged)
    ensures Reachable(next, limit) && Calm(next, slug, limit, open + 1, calls + 1, charged)
    ensures next.phases == s.phases + [Held] && next.guards.handles == s.guards.handles + [Guards.Handle(slug, false, false)]
    ensures next.store == s.store
  {
    CallsFit(calls + 1, limit);
    AdmitsNextCall(s.guards.routeRate, slug, limit, calls);
    hide InWindow, Reachable, TimeOf, Counted, RateWindows.BrokerAdmit;
    var now := TimeOf(calls + 1, limit);
    var e := Enter(Guards.Input(slug, "", false, true), now, now);
    next := Apply(s, e, limit);
    ReachesNext(s, e, limit);
  }

  /** A counter at the quota is not over it, so a forward that reads it is admitted. */
  lemma PassesAtQuota(s: State, slug: Relay.Slug, limit: Limit, open: nat, calls: nat, charged: nat)
    requires WellFormed(limit.quota) && Calm(s, slug, limit, open, calls, charged)
    requires charged <= limit.quota.limits[RelayRequests]
    ensures Passes(Lookup(s.store, slug.text), slug.text, s.clock, limit.quota)
  {
    FirstWindow(s.clock, limit.quota.windowMs);
    FirstWindow(0, limit.quota.windowMs);
    assert forall d: Dimension :: InWindow(s.store, slug.text, d, s.clock, limit.quota) == InWindow(s.store, slug.text, d, 0, limit.quota);
    hide InWindow;
    ExceededExactly(s.store, slug.text, s.clock, limit.quota);
  }

  lemma PhasesMove(s: State, phases: seq<Phase>, slug: Relay.Slug, limit: Limit, open: nat, calls: nat, charged: nat)
    requires WellFormed(limit.quota) && Calm(s, slug, limit, open, calls, charged) && |phases| == |s.phases|
    ensures Calm(s.(phases := phases), slug, limit, open, calls, charged)
  {
    hide InWindow;
  }

  /** A forward admitted while the counter is at most the quota. */
  lemma AdmitOne(s: State, slug: Relay.Slug, limit: Limit, open: nat, calls: nat, charged: nat) returns (next: State)
    requires WellFormed(limit.quota) && Reachable(s, limit)
    requires Calm(s, slug, limit, open, calls, charged) && Roomy(slug, limit, open, calls, charged)
    ensures Reachable(next, limit) && Calm(next, slug, limit, open + 1, calls + 1, charged)
    ensures next.phases == s.phases + [Admitted] && next.guards.handles == s.guards.handles + [Guards.Handle(slug, false, false)]
  {
    var h := |s.phases|;
    var entered := EnterOne(s, slug, limit, open, calls, charged);
    assert h == |s.guards.handles|;
    PassesAtQuota(entered, slug, limit, open + 1, calls + 1, charged);
    hide Reachable, Calm, Passes, Apply, Possible, Lookup, Roomy;
    next := ReadThenDecide(entered, h, slug, limit);
    PhasesMove(entered, next.phases, slug, limit, open + 1, calls + 1, charged);
    assert next.phases == s.phases + [Admitted];
  }

  lemma ReadThenDecide(s: State, h: nat, slug: Relay.Slug, limit: Limit) returns (next: State)
    requires WellFormed(limit.quota) && Reachable(s, limit)
    requires h < |s.phases| == |s.guards.handles| && s.phases[h].Held? && s.guards.handles[h].slug == slug
    requires Passes(Lookup(s.store, slug.text), slug.text, s.clock, limit.quota)
    ensures Reachable(next, limit) && next == s.(phases := s.phases[h := Admitted])
  {
    hide Reachable, Passes, Lookup;
    var read := s.(phases := s.phases[h := Read(Lookup(s.store, slug.text))]);
    assert Apply(s, ReadQuota(h), limit) == read;
    ReachesNext(s, ReadQuota(h), limit);
    next := read.(phases := read.phases[h := Admitted]);
    assert Apply(read, Decide(h, s.clock), limit) == next;
    ReachesNext(read, Decide(h, s.clock), limit);
    assert read.phases[h := Admitted] == s.phases[h := Admitted];
  }

  /** A charge at any time of the first quota window. */
  lemma ChargeInFirstWindow(store: map<string, MeterRecord>, subject: string, d: Dimension, now: int, quota: Quota)
    requires WellFormed(quota) && 0 <= now < quota.windowMs
    ensures var next := Charged(store, subject, RelayRequests, 1, now, now, quota);
            var counted := InWindow(store, subject, d, 0, quota) + if d == RelayRequests then 1 else 0;
      && InWindow(next, subject, d, 0, quota) == counted
      && subject in next && CounterOf(next[subject].window.counters, d) == counted
  {
    FirstWindow(now, quota.windowMs);
    FirstWindow(0, quota.windowMs);
    ChargeAddsOnce(store, subject, RelayRequests, 1, now, now, quota, subject, d);
  }

  lemma ChargeOne(s: State, h: nat, slug: Relay.Slug, limit: Limit, open: nat, calls: nat, charged: nat) returns (next: State)
    requires WellFormed(limit.quota) && Reachable(s, limit) && Calm(s, slug, limit, open, calls, charged)
    requires h < |s.phases| && s.phases[h].Admitted? && s.guards.handles[h].slug == slug
    ensures Reachable(next, limit) && Calm(next, slug, limit, open, calls, charged + 1)
    ensures next.phases == s.phases[h := Over] && next.guards == s.guards
    ensures slug.text in next.store && CounterOf(next.store[slug.text].window.counters, RelayRequests) == charged + 1
  {
    var now := s.clock;
    FirstWindow(now, limit.quota.windowMs);
    FirstWindow(0, limit.quota.windowMs);
    next := Apply(s, ChargeRequest(h, now, now), limit);
    hide Reachable;
    ReachesNext(s, ChargeRequest(h, now, now), limit);
    forall d: Dimension ensures InWindow(next.store, slug.text, d, 0, limit.quota) == if d == RelayRequests then charged + 1 else 0 {
      ChargeInFirstWindow(s.store, slug.text, d, now, limit.quota);
    }
    ChargeInFirstWindow(s.store, slug.text, RelayRequests, now, limit.quota);
  }

  lemma ReleaseOne(s: State, h: nat, slug: Relay.Slug, limit: Limit, open: nat, calls: nat, charged: nat) returns (next: State)
    requires WellFormed(limit.quota) && Reachable(s, limit) && Calm(s, slug, limit, open, calls, charged) && open > 0
    requires h < |s.phases| && s.phases[h].Over? && s.guards.handles[h] == Guards.Handle(slug, false, false)
    ensures Reachable(next, limit) && Calm(next, slug, limit, open - 1, calls, charged)
  {
    hide InWindow, Reachable;
    next := Apply(s, ReleaseSlot(h), limit);
    ReachesNext(s, ReleaseSlot(h), limit);
  }

  /** Forwards one after another, each charged and released, up to the quota. */
  lemma {:induction false} FillsQuota(slug: Relay.Slug, limit: Limit, n: nat) returns (s: State)
    requires WellFormed(limit.quota) && limit.guards.concurrentRequestsPerRoute > 0
    requires n <= limit.quota.limits[RelayRequests] && n <= PerMinute(limit) * (limit.quota.windowMs / RateWindows.RATE_WINDOW_MS)
    ensures Reachable(s, limit) && Calm(s, slug, limit, 0, n, n)
    decreases n
  {
    if n == 0 {
      s := START;
      assert PossibleRun(START, [], limit) && Run(START, [], limit) == s;
    } else {
      s := FillsQuota(slug, limit, n - 1);
      var h := |s.phases|;
      assert h == |s.guards.handles|;
      hide Reachable, Calm;
      s := AdmitOne(s, slug, limit, 0, n - 1, n - 1);
      s := ChargeOne(s, h, slug, limit, 1, n, n - 1);
      s := ReleaseOne(s, h, slug, limit, 1, n, n);
    }
  }

  /** Then as many at once as the guard allows, all admitted on the same reading of the counter. */
  lemma {:induction false} AdmitsTogether(slug: Relay.Slug, limit: Limit, base: State, quota: nat, k: nat) returns (s: State)
    requires WellFormed(limit.quota) && Reachable(base, limit) && Calm(base, slug, limit, 0, quota, quota)
    requires quota == limit.quota.limits[RelayRequests] && k <= limit.guards.concurrentRequestsPerRoute
    requires quota + k <= PerMinute(limit) * (limit.quota.windowMs / RateWindows.RATE_WINDOW_MS)
    ensures Reachable(s, limit) && Calm(s, slug, limit, k, quota + k, quota)
    ensures |s.phases| == |base.phases| + k == |s.guards.handles|
    ensures forall i :: |base.phases| <= i < |s.phases| ==> s.phases[i].Admitted? && s.guards.handles[i].slug == slug
    decreases k
  {
    if k == 0 {
      s := base;
    } else {
      var before := AdmitsTogether(slug, limit, base, quota, k - 1);
      hide Reachable, Calm, PerMinute, Placed;
      assert Roomy(slug, limit, k - 1, quota + k - 1, quota);
      hide Roomy;
      s := AdmitOne(before, slug, limit, k - 1, quota + k - 1, quota);
    }
  }

  lemma {:induction false} ChargesTogether(slug: Relay.Slug, limit: Limit, full: State, open: nat, calls: nat, quota: nat, first: nat, k: nat) returns (s: State)
    requires WellFormed(limit.quota) && Reachable(full, limit) && Calm(full, slug, limit, open, calls, quota)
    requires first + k <= |full.phases| == |full.guards.handles| && k > 0
    requires forall i :: first <= i < first + k ==> full.phases[i].Admitted? && full.guards.handles[i].slug == slug
    ensures Reachable(s, limit) && Calm(s, slug, limit, open, calls, quota + k)
    ensures s.guards == full.guards && |s.phases| == |full.phases|
    ensures forall i :: first + k <= i < |s.phases| ==> s.phases[i] == full.phases[i]
    ensures slug.text in s.store && CounterOf(s.store[slug.text].window.counters, RelayRequests) == quota + k
    decreases k
  {
    hide Reachable, Calm;
    var before := full;
    if k > 1 { before := ChargesTogether(slug, limit, full, open, calls, quota, first, k - 1); }
    s := ChargeOne(before, first + k - 1, slug, limit, open, calls, quota + k - 1);
  }

  /**
   The bound cannot be improved: whenever the rate limit admits that many calls in one quota
   window, some run charges exactly the quota plus the concurrent requests allowed per route.
   */
  lemma OvershootIsReached(slug: Relay.Slug, limit: Limit) returns (s: State)
    requires WellFormed(limit.quota) && limit.guards.concurrentRequestsPerRoute > 0
    requires limit.quota.limits[RelayRequests] + limit.guards.concurrentRequestsPerRoute
          <= PerMinute(limit) * (limit.quota.windowMs / RateWindows.RATE_WINDOW_MS)
    ensures Reachable(s, limit) && slug.text in s.store
    ensures CounterOf(s.store[slug.text].window.counters, RelayRequests)
         == limit.quota.limits[RelayRequests] + limit.guards.concurrentRequestsPerRoute
  {
    hide Reachable, Calm;
    var quota, many := limit.quota.limits[RelayRequests], limit.guards.concurrentRequestsPerRoute;
    var base := FillsQuota(slug, limit, quota);
    var full := AdmitsTogether(slug, limit, base, quota, many);
    s := ChargesTogether(slug, limit, full, many, quota + many, quota, |base.phases|, many);
  }
}
