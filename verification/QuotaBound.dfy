/**
 How far public routing can overshoot its quota: the forward path of the broker
 (src/tunnel/broker.ts) composed of the guards (src/tunnel/limits.ts) and the metering
 ledger (src/platform/metering.ts), with the slug as metering subject.

 A forward takes a guard slot, reads its subject's record, decides on what it read, is
 relayed, charges one relay request and gives the slot back. Other forwards, other
 charges and the clock interleave between any two of these steps; in particular the
 decision may be taken on a record that has changed, or in a later window.
 */
module QuotaBound {
  import opened Collections
  import opened Relay
  import opened Guards
  import opened Metering

  /** Where the forward holding a guard handle stands. */
  datatype Phase =
    | Held                                  // slot taken, quota not looked at yet
    | Direct                                // local target: never metered
    | Read(record: Option<MeterRecord>)     // the store has answered
    | Admitted                              // will be charged if the relay succeeds
    | Over                                  // charged, refused or failed

  datatype State = State(guards: GuardState, phases: seq<Phase>, store: map<string, MeterRecord>, clock: int)

  datatype Limit = Limit(guards: Limits, quota: Quota)

  datatype Event =
    | Enter(input: Input, t1: int, t2: int)
    | RouteDirectly(handle: nat)
    | ReadQuota(handle: nat)
    | Decide(handle: nat, t1: int)
    | ChargeRequest(handle: nat, t1: int, t2: int)
    | ChargeOther(subject: string, d: Dimension, amount: nat, t1: int, t2: int)
    | Fail(handle: nat)
    | ReleaseSlot(handle: nat)

  function SubjectOf(s: State, handle: nat): string
    requires handle < |s.guards.handles|
  {
    s.guards.handles[handle].slug.text
  }

  ghost predicate Passes(record: Option<MeterRecord>, subject: string, now: int, quota: Quota)
    requires WellFormed(quota)
  {
    !Usage(subject, record, now, quota).exceeded
  }

  ghost predicate Possible(s: State, e: Event) {
    match e
    case Enter(_, t1, t2) => s.clock <= t1 <= t2
    case RouteDirectly(h) => h < |s.phases| && s.phases[h].Held?
    case ReadQuota(h) => h < |s.phases| && s.phases[h].Held?
    case Decide(h, t1) => h < |s.phases| && s.phases[h].Read? && s.clock <= t1
    case ChargeRequest(h, t1, t2) => h < |s.phases| && s.phases[h].Admitted? && s.clock <= t1 <= t2
    case ChargeOther(_, d, _, t1, t2) => d != RelayRequests && s.clock <= t1 <= t2
    case Fail(h) => h < |s.phases|
    case ReleaseSlot(h) => h < |s.phases| && (s.phases[h].Over? || s.phases[h].Direct?)
  }

  ghost function Apply(s: State, e: Event, limit: Limit): State
    requires WellFormed(limit.quota) && Possible(s, e) && |s.phases| == |s.guards.handles|
  {
    match e
    case Enter(input, t1, t2) =>
      var (guards, entry) := Guards.Enter(s.guards, input, limit.guards, t1, t2);
      s.(guards := guards, phases := if entry.Entered? then s.phases + [Held] else s.phases, clock := t2)
    case RouteDirectly(h) => s.(phases := s.phases[h := Direct])
    case ReadQuota(h) => s.(phases := s.phases[h := Read(Lookup(s.store, SubjectOf(s, h)))])
    case Decide(h, t1) =>
      var passes := Passes(s.phases[h].record, SubjectOf(s, h), t1, limit.quota);
      s.(phases := s.phases[h := if passes then Admitted else Over], clock := t1)
    case ChargeRequest(h, t1, t2) =>
      s.(phases := s.phases[h := Over],
         store := Charged(s.store, SubjectOf(s, h), RelayRequests, 1, t1, t2, limit.quota), clock := t2)
    case ChargeOther(subject, d, amount, t1, t2) =>
      s.(store := Charged(s.store, subject, d, amount, t1, t2, limit.quota), clock := t2)
    case Fail(h) => s.(phases := s.phases[h := Over])
    case ReleaseSlot(h) => s.(guards := Release(s.guards, h))
  }

  ghost predicate PossibleRun(s: State, events: seq<Event>, limit: Limit)
    requires WellFormed(limit.quota) && |s.phases| == |s.guards.handles|
    decreases |events|
  {
    events != [] ==>
      && Possible(s, events[0])
      && |Apply(s, events[0], limit).phases| == |Apply(s, events[0], limit).guards.handles|
      && PossibleRun(Apply(s, events[0], limit), events[1..], limit)
  }

  ghost function Run(s: State, events: seq<Event>, limit: Limit): State
    requires WellFormed(limit.quota) && |s.phases| == |s.guards.handles| && PossibleRun(s, events, limit)
    decreases |events|
  {
    if events == [] then s else Run(Apply(s, events[0], limit), events[1..], limit)
  }

  // ---- the forwards that may still be charged ----

  /** The forward may still be charged, should it decide at the current reading of the clock. */
  ghost predicate Live(s: State, slug: Slug, h: nat, quota: Quota)
    requires WellFormed(quota) && h < |s.phases| == |s.guards.handles|
  {
    && s.guards.handles[h].slug == slug
    && (s.phases[h].Admitted? || (s.phases[h].Read? && Passes(s.phases[h].record, slug.text, s.clock, quota)))
  }

  ghost function LiveOn(s: State, slug: Slug, n: nat, quota: Quota): nat
    requires WellFormed(quota) && n <= |s.phases| == |s.guards.handles|
  {
    if n == 0 then 0 else LiveOn(s, slug, n - 1, quota) + if Live(s, slug, n - 1, quota) then 1 else 0
  }

  lemma {:induction false} LiveSame(a: State, b: State, slug: Slug, n: nat, quota: Quota)
    requires WellFormed(quota) && n <= |a.phases| == |a.guards.handles| && n <= |b.phases| == |b.guards.handles|
    requires forall h :: 0 <= h < n ==> (Live(a, slug, h, quota) <==> Live(b, slug, h, quota))
    ensures LiveOn(a, slug, n, quota) == LiveOn(b, slug, n, quota)
  {
    if n > 0 { LiveSame(a, b, slug, n - 1, quota); }
  }

  lemma {:induction false} LiveLoses(a: State, b: State, slug: Slug, n: nat, i: nat, quota: Quota)
    requires WellFormed(quota) && n <= |a.phases| == |a.guards.handles| && n <= |b.phases| == |b.guards.handles|
    requires i < n && Live(a, slug, i, quota) && !Live(b, slug, i, quota)
    requires forall h :: 0 <= h < n && h != i ==> (Live(a, slug, h, quota) <==> Live(b, slug, h, quota))
    ensures LiveOn(b, slug, n, quota) == LiveOn(a, slug, n, quota) - 1
  {
    if i == n - 1 { LiveSame(a, b, slug, n - 1, quota); } else { LiveLoses(a, b, slug, n - 1, i, quota); }
  }

  lemma {:induction false} LiveAtMost(a: State, b: State, slug: Slug, n: nat, quota: Quota)
    requires WellFormed(quota) && n <= |a.phases| == |a.guards.handles| && n <= |b.phases| == |b.guards.handles|
    requires forall h :: 0 <= h < n ==> (Live(b, slug, h, quota) ==> Live(a, slug, h, quota))
    ensures LiveOn(b, slug, n, quota) <= LiveOn(a, slug, n, quota)
  {
    if n > 0 { LiveAtMost(a, b, slug, n - 1, quota); }
  }

  lemma {:induction false} LiveHoldsSlots(s: State, slug: Slug, n: nat, quota: Quota)
    requires WellFormed(quota) && n <= |s.phases| == |s.guards.handles|
    requires SlotsHeld(s)
    ensures LiveOn(s, slug, n, quota) <= OpenOn(s.guards.handles[..n], slug)
  {
    if n > 0 {
      LiveHoldsSlots(s, slug, n - 1, quota);
      assert s.guards.handles[..n][..n - 1] == s.guards.handles[..n - 1];
    }
  }

  // ---- the invariant ----

  /** A forward that can still be charged holds its slot. */
  ghost predicate SlotsHeld(s: State)
    requires |s.phases| == |s.guards.handles|
  {
    forall h :: 0 <= h < |s.phases| && (s.phases[h].Held? || s.phases[h].Read? || s.phases[h].Admitted?) ==> !s.guards.handles[h].released
  }

  ghost predicate WindowsPast(s: State, quota: Quota)
    requires WellFormed(quota)
  {
    && (forall subject :: subject in s.store ==> s.store[subject].window.id <= WindowId(s.clock, quota.windowMs))
    && (forall h :: 0 <= h < |s.phases| && s.phases[h].Read? && s.phases[h].record.Some? ==>
          s.phases[h].record.value.window.id <= WindowId(s.clock, quota.windowMs))
  }

  function Ceiling(limit: Limit): nat {
    CounterOf(limit.quota.limits, RelayRequests) + limit.guards.concurrentRequestsPerRoute
  }

  /** What is charged in the current window plus what may still be charged. */
  ghost predicate Bounded(s: State, slug: Slug, limit: Limit)
    requires WellFormed(limit.quota) && |s.phases| == |s.guards.handles|
  {
    InWindow(s.store, slug.text, RelayRequests, s.clock, limit.quota) + LiveOn(s, slug, |s.phases|, limit.quota) <= Ceiling(limit)
  }

  ghost predicate Inv(s: State, limit: Limit) {
    && WellFormed(limit.quota)
    && |s.phases| == |s.guards.handles|
    && Guards.Inv(s.guards) && WithinLimits(s.guards, limit.guards)
    && SlotsHeld(s)
    && WindowsPast(s, limit.quota)
    && (forall slug :: Bounded(s, slug, limit))
    && (forall slug: Slug :: slug.text in s.store ==> CounterOf(s.store[slug.text].window.counters, RelayRequests) <= Ceiling(limit))
  }

  lemma LiveWithinConcurrency(s: State, slug: Slug, limit: Limit)
    requires WellFormed(limit.quota) && |s.phases| == |s.guards.handles| && SlotsHeld(s) && WithinLimits(s.guards, limit.guards)
    ensures LiveOn(s, slug, |s.phases|, limit.quota) <= limit.guards.concurrentRequestsPerRoute
  {
    LiveHoldsSlots(s, slug, |s.phases|, limit.quota);
    assert s.guards.handles[..|s.phases|] == s.guards.handles;
  }

  /** What passes depends on the reading only through its window. */
  lemma PassesByWindow(record: Option<MeterRecord>, subject: string, t1: int, t2: int, quota: Quota)
    requires WellFormed(quota) && WindowId(t1, quota.windowMs) == WindowId(t2, quota.windowMs)
    ensures Passes(record, subject, t1, quota) <==> Passes(record, subject, t2, quota)
  {
  }

  lemma WindowsGrow(t1: int, t2: int, windowMs: nat)
    requires windowMs > 0 && t1 <= t2
    ensures WindowId(t1, windowMs) <= WindowId(t2, windowMs)
  {
    var a, b := t1 / windowMs, t2 / windowMs;
    assert t1 == windowMs * a + t1 % windowMs && t2 == windowMs * b + t2 % windowMs;
    if b < a { ScaledUp(b + 1, a, windowMs); }
  }

  lemma ScaledUp(x: int, y: int, factor: nat)
    requires x <= y
    ensures factor * x <= factor * y
  {
  }

  /** Time passing keeps the invariant, also across a window boundary. */
  lemma AdvanceKeeps(s: State, now: int, limit: Limit)
    requires Inv(s, limit) && s.clock <= now
    ensures Inv(s.(clock := now), limit)
  {
    var next := s.(clock := now);
    var quota := limit.quota;
    WindowsGrow(s.clock, now, quota.windowMs);
    forall slug ensures Bounded(next, slug, limit) {
      if WindowId(s.clock, quota.windowMs) == WindowId(now, quota.windowMs) {
        forall h | 0 <= h < |s.phases| ensures Live(s, slug, h, quota) <==> Live(next, slug, h, quota) {
          if s.phases[h].Read? { PassesByWindow(s.phases[h].record, slug.text, s.clock, now, quota); }
        }
        LiveSame(s, next, slug, |s.phases|, quota);
        assert Bounded(s, slug, limit);
      } else {
        LiveWithinConcurrency(next, slug, limit);
      }
    }
  }

  // ---- every step keeps the invariant ----

  /** Entering adds at most one slot, held, and leaves the ledger alone. */
  ghost predicate Grown(now: State, next: State) {
    && next.store == now.store && next.clock == now.clock
    && ((next.phases == now.phases && next.guards.handles == now.guards.handles)
        || (next.phases == now.phases + [Held]
            && exists last: Handle :: !last.released && next.guards.handles == now.guards.handles + [last]))
  }

  lemma EnterGrows(s: State, input: Input, t1: int, t2: int, limit: Limit)
    requires WellFormed(limit.quota) && |s.phases| == |s.guards.handles| && s.clock <= t1 <= t2
    ensures Grown(s.(clock := t2), Apply(s, Enter(input, t1, t2), limit))
  {
    var next := Apply(s, Enter(input, t1, t2), limit);
    var last := Handle(input.slug, input.isWait, false);
    assert next.guards.handles == s.guards.handles || next.guards.handles == s.guards.handles + [last];
  }

  lemma GrowthKeepsBound(now: State, next: State, slug: Slug, limit: Limit)
    requires WellFormed(limit.quota) && |now.phases| == |now.guards.handles| && |next.phases| == |next.guards.handles|
    requires Grown(now, next) && Bounded(now, slug, limit)
    ensures Bounded(next, slug, limit)
  {
    hide Passes, InWindow, CounterOf;
    LiveSame(now, next, slug, |now.phases|, limit.quota);
  }

  lemma GrowthKeepsSlots(now: State, next: State, limit: Limit)
    requires WellFormed(limit.quota) && |now.phases| == |now.guards.handles| && |next.phases| == |next.guards.handles|
    requires Grown(now, next) && SlotsHeld(now) && WindowsPast(now, limit.quota)
    ensures SlotsHeld(next) && WindowsPast(next, limit.quota)
  {
    hide WindowId;
  }

  lemma EnterKeepsBound(s: State, input: Input, t1: int, t2: int, limit: Limit)
    requires Inv(s, limit) && s.clock <= t1 <= t2
    ensures Inv(Apply(s, Enter(input, t1, t2), limit), limit)
  {
    var now, next := s.(clock := t2), Apply(s, Enter(input, t1, t2), limit);
    AdvanceKeeps(s, t2, limit);
    EnterGrows(s, input, t1, t2, limit);
    Guards.EnterKeeps(s.guards, input, limit.guards, t1, t2);
    hide Guards.Inv, WithinLimits, Guards.Enter, Bounded, SlotsHeld, WindowsPast, WindowId;
    GrowthKeepsSlots(now, next, limit);
    forall slug ensures Bounded(next, slug, limit) {
      GrowthKeepsBound(now, next, slug, limit);
    }
  }

  /** A slot changing its phase to one that is never charged. */
  lemma QuietPhaseKeeps(s: State, h: nat, phase: Phase, limit: Limit)
    requires Inv(s, limit) && h < |s.phases| && (phase.Direct? || phase.Over?)
    ensures Inv(s.(phases := s.phases[h := phase]), limit)
  {
    var next := s.(phases := s.phases[h := phase]);
    forall slug ensures Bounded(next, slug, limit) {
      assert Bounded(s, slug, limit);
      LiveAtMost(s, next, slug, |s.phases|, limit.quota);
    }
  }

  lemma ReadKeeps(s: State, h: nat, limit: Limit)
    requires Inv(s, limit) && h < |s.phases| && s.phases[h].Held?
    ensures Inv(Apply(s, ReadQuota(h), limit), limit)
  {
    var next := Apply(s, ReadQuota(h), limit);
    var subject := SubjectOf(s, h);
    forall slug ensures Bounded(next, slug, limit) {
      assert Bounded(s, slug, limit);
      if Live(next, slug, h, limit.quota) {
        LiveWithinConcurrency(next, slug, limit);
        ExceededExactly(s.store, subject, s.clock, limit.quota);
        assert InWindow(s.store, subject, RelayRequests, s.clock, limit.quota) <= limit.quota.limits[RelayRequests];
      } else {
        LiveAtMost(s, next, slug, |s.phases|, limit.quota);
      }
    }
  }

  lemma DecideKeeps(s: State, h: nat, t1: int, limit: Limit)
    requires Inv(s, limit) && h < |s.phases| && s.phases[h].Read? && s.clock <= t1
    ensures Inv(Apply(s, Decide(h, t1), limit), limit)
  {
    AdvanceKeeps(s, t1, limit);
    var now := s.(clock := t1);
    var next := Apply(s, Decide(h, t1), limit);
    forall slug ensures Bounded(next, slug, limit) {
      assert Bounded(now, slug, limit);
      LiveAtMost(now, next, slug, |s.phases|, limit.quota);
    }
  }

  /** A charge of one forward moves it from what may be charged to what is. */
  lemma ChargeKeeps(s: State, h: nat, t1: int, t2: int, limit: Limit)
    requires Inv(s, limit) && h < |s.phases| && s.phases[h].Admitted? && s.clock <= t1 <= t2
    ensures Inv(Apply(s, ChargeRequest(h, t1, t2), limit), limit)
  {
    hide Passes, InWindow, WindowId, Guards.Inv, WithinLimits;
    AdvanceKeeps(s, t1, limit);
    var now := s.(clock := t1);
    var subject := SubjectOf(s, h);
    var mid := Apply(s, ChargeRequest(h, t1, t2), limit).(clock := t1);
    var slugOfH := s.guards.handles[h].slug;
    assert slugOfH == Slug(subject);
    ChargeAddsOnce(s.store, subject, RelayRequests, 1, t1, t2, limit.quota, subject, RelayRequests);
    forall slug ensures Bounded(mid, slug, limit) {
      assert Bounded(now, slug, limit);
      ChargeAddsOnce(s.store, subject, RelayRequests, 1, t1, t2, limit.quota, slug.text, RelayRequests);
      assert slug == Slug(slug.text);
      if slug == slugOfH {
        LiveLoses(now, mid, slug, |s.phases|, h, limit.quota);
      } else {
        LiveSame(now, mid, slug, |s.phases|, limit.quota);
      }
    }
    StoreStaysUnderCeiling(now, mid, subject, limit);
    AdvanceKeeps(mid, t2, limit);
  }

  lemma ChargeOtherKeeps(s: State, subject: string, d: Dimension, amount: nat, t1: int, t2: int, limit: Limit)
    requires Inv(s, limit) && d != RelayRequests && s.clock <= t1 <= t2
    ensures Inv(Apply(s, ChargeOther(subject, d, amount, t1, t2), limit), limit)
  {
    hide Passes, InWindow, WindowId, Guards.Inv, WithinLimits;
    AdvanceKeeps(s, t1, limit);
    var now := s.(clock := t1);
    var mid := Apply(s, ChargeOther(subject, d, amount, t1, t2), limit).(clock := t1);
    ChargeAddsOnce(s.store, subject, d, amount, t1, t2, limit.quota, subject, RelayRequests);
    forall slug ensures Bounded(mid, slug, limit) {
      assert Bounded(now, slug, limit);
      ChargeAddsOnce(s.store, subject, d, amount, t1, t2, limit.quota, slug.text, RelayRequests);
      LiveSame(now, mid, slug, |s.phases|, limit.quota);
    }
    StoreStaysUnderCeiling(now, mid, subject, limit);
    AdvanceKeeps(mid, t2, limit);
  }

  /** A rewritten record belongs to the current window, so the live bound covers its counter. */
  lemma StoreStaysUnderCeiling(now: State, mid: State, subject: string, limit: Limit)
    requires Inv(now, limit) && mid.clock == now.clock && |mid.phases| == |mid.guards.handles|
    requires subject in mid.store && mid.store[subject].window.id == WindowId(mid.clock, limit.quota.windowMs)
    requires forall other :: other in mid.store && other != subject ==> other in now.store && mid.store[other] == now.store[other]
    requires forall slug :: Bounded(mid, slug, limit)
    ensures forall slug: Slug :: slug.text in mid.store ==> CounterOf(mid.store[slug.text].window.counters, RelayRequests) <= Ceiling(limit)
  {
    forall slug: Slug | slug.text in mid.store
      ensures CounterOf(mid.store[slug.text].window.counters, RelayRequests) <= Ceiling(limit)
    {
      assert Bounded(mid, slug, limit);
      assert slug.text == subject ==> InWindow(mid.store, subject, RelayRequests, mid.clock, limit.quota) <= Ceiling(limit);
    }
  }

  lemma ReleaseKeepsBound(s: State, h: nat, limit: Limit)
    requires Inv(s, limit) && h < |s.phases| && (s.phases[h].Over? || s.phases[h].Direct?)
    ensures Inv(Apply(s, ReleaseSlot(h), limit), limit)
  {
    var next := Apply(s, ReleaseSlot(h), limit);
    Guards.ReleaseKeeps(s.guards, h, limit.guards);
    forall slug ensures Bounded(next, slug, limit) {
      assert Bounded(s, slug, limit);
      LiveSame(s, next, slug, |s.phases|, limit.quota);
    }
  }

  lemma StepKeeps(s: State, e: Event, limit: Limit)
    requires Inv(s, limit) && Possible(s, e)
    ensures Inv(Apply(s, e, limit), limit)
  {
    match e
    case Enter(input, t1, t2) => EnterKeepsBound(s, input, t1, t2, limit);
    case RouteDirectly(h) => QuietPhaseKeeps(s, h, Direct, limit);
    case ReadQuota(h) => ReadKeeps(s, h, limit);
    case Decide(h, t1) => DecideKeeps(s, h, t1, limit);
    case ChargeRequest(h, t1, t2) => ChargeKeeps(s, h, t1, t2, limit);
    case ChargeOther(subject, d, amount, t1, t2) => ChargeOtherKeeps(s, subject, d, amount, t1, t2, limit);
    case Fail(h) => QuietPhaseKeeps(s, h, Over, limit);
    case ReleaseSlot(h) => ReleaseKeepsBound(s, h, limit);
  }

  const START := State(Guards.START, [], map[], 0)

  lemma {:induction false} RunKeeps(s: State, events: seq<Event>, limit: Limit)
    requires Inv(s, limit) && PossibleRun(s, events, limit)
    ensures Inv(Run(s, events, limit), limit)
    decreases |events|
  {
    if events != [] {
      StepKeeps(s, events[0], limit);
      RunKeeps(Apply(s, events[0], limit), events[1..], limit);
    }
  }

  /**
   Whatever forwards, other charges and window rollovers interleave, the relay_requests
   counter ever stored for a slug is at most the quota plus the concurrent requests
   allowed per route.
   */
  lemma OvershootBound(events: seq<Event>, slug: Slug, limit: Limit)
    requires WellFormed(limit.quota) && PossibleRun(START, events, limit)
    ensures var last := Run(START, events, limit);
            slug.text in last.store ==>
              CounterOf(last.store[slug.text].window.counters, RelayRequests)
              <= limit.quota.limits[RelayRequests] + limit.guards.concurrentRequestsPerRoute
  {
    RunKeeps(START, events, limit);
  }
}
