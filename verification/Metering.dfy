/**
 Free-quota metering of public routing (src/platform/metering.ts): per-subject counters in
 the current reset window, changed only inside the store's atomic update.

 Window ids are the integers whose decimal form the source stores.
 */
module Metering {
  import opened Collections

  datatype Dimension = RouteMinutes | ActivePublicRooms | ParticipantJoins | RelayRequests | BandwidthBytes

  /** A stored record may lack a dimension; a missing counter reads as zero. */
  type Counters = map<Dimension, nat>

  const DIMENSIONS: seq<Dimension> := [RouteMinutes, ActivePublicRooms, ParticipantJoins, RelayRequests, BandwidthBytes]

  const ZERO_COUNTERS: Counters :=
    map[RouteMinutes := 0, ActivePublicRooms := 0, ParticipantJoins := 0, RelayRequests := 0, BandwidthBytes := 0]

  datatype Quota = Quota(limits: Counters, windowMs: nat)

  datatype MeterWindow = MeterWindow(id: int, startedAt: int, counters: Counters)

  datatype MeterRecord = MeterRecord(subject: string, window: MeterWindow, exceeded: bool, reasons: seq<Dimension>, updatedAt: int)

  datatype MeterError = BadSubject | BadAmount | QuotaExceeded(reasons: seq<Dimension>)

  datatype Metered<+T> = Done(value: T) | Failed(error: MeterError)

  ghost predicate WellFormed(q: Quota) {
    q.windowMs > 0 && forall d: Dimension :: d in q.limits
  }

  predicate IsSubjectChar(c: char) {
    'a' <= c <= 'z' || 'A' <= c <= 'Z' || '0' <= c <= '9' || c == '_' || c == '-'
  }

  predicate ValidSubject(subject: string) {
    1 <= |subject| <= 128 && forall i :: 0 <= i < |subject| ==> IsSubjectChar(subject[i])
  }

  function WindowId(now: int, windowMs: nat): int
    requires windowMs > 0
  {
    now / windowMs
  }

  function CounterOf(counters: Counters, d: Dimension): nat {
    if d in counters then counters[d] else 0
  }

  lemma ZeroIsTotal()
    ensures forall d: Dimension :: d in ZERO_COUNTERS && ZERO_COUNTERS[d] == 0
  {
    forall d: Dimension ensures d in ZERO_COUNTERS && ZERO_COUNTERS[d] == 0 {
      match d case RouteMinutes => case ActivePublicRooms => case ParticipantJoins => case RelayRequests => case BandwidthBytes =>
    }
  }

  /** `{ ...zeroCounters(), ...counters }` */
  function Filled(counters: Counters): (filled: Counters)
    ensures forall d: Dimension :: d in filled && filled[d] == CounterOf(counters, d)
  {
    assert forall d: Dimension :: d in ZERO_COUNTERS && ZERO_COUNTERS[d] == 0 by { ZeroIsTotal(); }
    ZERO_COUNTERS + counters
  }

  function WindowFor(existing: Option<MeterRecord>, now: int, q: Quota): MeterWindow
    requires q.windowMs > 0
  {
    var id := WindowId(now, q.windowMs);
    if existing.Some? && existing.value.window.id == id
    then existing.value.window.(counters := Filled(existing.value.window.counters))
    else MeterWindow(id, now, Filled(map[]))
  }

  /** The dimensions over quota, in the source's fixed order. */
  function ReasonsFrom(ds: seq<Dimension>, counters: Counters, q: Quota): (reasons: seq<Dimension>)
    requires WellFormed(q)
    ensures forall d :: d in reasons <==> d in ds && CounterOf(counters, d) > q.limits[d]
  {
    if ds == [] then []
    else if CounterOf(counters, ds[0]) > q.limits[ds[0]] then [ds[0]] + ReasonsFrom(ds[1..], counters, q)
    else ReasonsFrom(ds[1..], counters, q)
  }

  function Finalize(subject: string, window: MeterWindow, q: Quota, now: int): MeterRecord
    requires WellFormed(q)
  {
    var reasons := ReasonsFrom(DIMENSIONS, window.counters, q);
    MeterRecord(subject, window, reasons != [], reasons, now)
  }

  function Lookup(store: map<string, MeterRecord>, subject: string): Option<MeterRecord> {
    if subject in store then Some(store[subject]) else None
  }

  /** `check` on a record read earlier: what admission decides at `now`. */
  function Usage(subject: string, read: Option<MeterRecord>, now: int, q: Quota): MeterRecord
    requires WellFormed(q)
  {
    Finalize(subject, WindowFor(read, now, q), q, now)
  }

  /** One `update` transaction; readings for the window and for `updated_at`. */
  function Charged(store: map<string, MeterRecord>, subject: string, d: Dimension, amount: nat, t1: int, t2: int, q: Quota): map<string, MeterRecord>
    requires WellFormed(q)
  {
    var window := WindowFor(Lookup(store, subject), t1, q);
    var bumped := window.(counters := window.counters[d := CounterOf(window.counters, d) + amount]);
    store[subject := Finalize(subject, bumped, q, t2)]
  }

  /** A subject's counter in the window the clock is in; zero once its record's window has passed. */
  function InWindow(store: map<string, MeterRecord>, subject: string, d: Dimension, now: int, q: Quota): nat
    requires q.windowMs > 0
  {
    if subject in store && store[subject].window.id == WindowId(now, q.windowMs)
    then CounterOf(store[subject].window.counters, d) else 0
  }

  lemma DimensionsAreAll(d: Dimension)
    ensures d in DIMENSIONS
  {
    match d
    case RouteMinutes => assert DIMENSIONS[0] == d;
    case ActivePublicRooms => assert DIMENSIONS[1] == d;
    case ParticipantJoins => assert DIMENSIONS[2] == d;
    case RelayRequests => assert DIMENSIONS[3] == d;
    case BandwidthBytes => assert DIMENSIONS[4] == d;
  }

  /** Admission sees exactly the counters of the current window: it refuses iff one is over quota. */
  lemma ExceededExactly(store: map<string, MeterRecord>, subject: string, now: int, q: Quota)
    requires WellFormed(q)
    ensures Usage(subject, Lookup(store, subject), now, q).exceeded <==>
            exists d: Dimension :: InWindow(store, subject, d, now, q) > q.limits[d]
  {
    var usage := Usage(subject, Lookup(store, subject), now, q);
    if usage.exceeded {
      var d := usage.reasons[0];
      assert d in usage.reasons;
      assert InWindow(store, subject, d, now, q) > q.limits[d];
    }
    if d: Dimension :| InWindow(store, subject, d, now, q) > q.limits[d] {
      DimensionsAreAll(d);
      assert d in usage.reasons;
    }
  }

  lemma WindowForCounts(store: map<string, MeterRecord>, subject: string, t1: int, q: Quota, e: Dimension)
    requires q.windowMs > 0
    ensures var window := WindowFor(Lookup(store, subject), t1, q);
            CounterOf(window.counters, e) == InWindow(store, subject, e, t1, q) && window.id == WindowId(t1, q.windowMs)
  {
    hide WindowId;
  }

  lemma ChargeCounts(store: map<string, MeterRecord>, subject: string, d: Dimension, amount: nat, t1: int, t2: int, q: Quota, e: Dimension)
    requires WellFormed(q)
    ensures var next := Charged(store, subject, d, amount, t1, t2, q);
            InWindow(next, subject, e, t1, q) == InWindow(store, subject, e, t1, q) + if e == d then amount else 0
  {
    WindowForCounts(store, subject, t1, q, d);
    WindowForCounts(store, subject, t1, q, e);
    hide WindowId, WindowFor, ReasonsFrom;
  }

  lemma ChargeRewritesOne(store: map<string, MeterRecord>, subject: string, d: Dimension, amount: nat, t1: int, t2: int, q: Quota)
    requires WellFormed(q)
    ensures var next := Charged(store, subject, d, amount, t1, t2, q);
            && next.Keys == store.Keys + {subject} && next[subject].window.id == WindowId(t1, q.windowMs)
            && (forall s :: s in store && s != subject ==> next[s] == store[s])
  {
    WindowForCounts(store, subject, t1, q, d);
    hide WindowId, WindowFor, ReasonsFrom;
  }

  /** A charge adds to one counter of one subject in the window of its reading, and to nothing else. */
  lemma ChargeAddsOnce(store: map<string, MeterRecord>, subject: string, d: Dimension, amount: nat, t1: int, t2: int, q: Quota, other: string, e: Dimension)
    requires WellFormed(q)
    ensures var next := Charged(store, subject, d, amount, t1, t2, q);
            && InWindow(next, other, e, t1, q) == InWindow(store, other, e, t1, q) + (if other == subject && e == d then amount else 0)
            && next.Keys == store.Keys + {subject} && next[subject].window.id == WindowId(t1, q.windowMs)
            && (forall s :: s in store && s != subject ==> next[s] == store[s])
  {
    ChargeRewritesOne(store, subject, d, amount, t1, t2, q);
    ChargeCounts(store, subject, d, amount, t1, t2, q, e);
    hide WindowId, Charged, CounterOf;
  }

  // ---- the mutable ledger ----

  class MeteringLedger {
    const quota: Quota
    var store: map<string, MeterRecord>

    constructor (quota: Quota)
      ensures this.quota == quota && store == map[]
    {
      this.quota := quota;
      store := map[];
    }

    method Record(subject: string, d: Dimension, amount: int, isPublicRoute: bool, t1: int, t2: int)
      returns (result: Metered<Option<MeterRecord>>)
      requires WellFormed(quota)
      modifies this
      ensures !isPublicRoute ==> result == Done(None) && store == old(store)
      ensures isPublicRoute && !ValidSubject(subject) ==> result == Failed(BadSubject) && store == old(store)
      ensures isPublicRoute && ValidSubject(subject) && amount < 0 ==> result == Failed(BadAmount) && store == old(store)
      ensures isPublicRoute && ValidSubject(subject) && amount >= 0 ==>
                store == Charged(old(store), subject, d, amount, t1, t2, quota) && result == Done(Some(store[subject]))
    {
      hide ValidSubject, WindowFor, Finalize, WindowId;
      if !isPublicRoute { return Done(None); }
      if !ValidSubject(subject) { return Failed(BadSubject); }
      if amount < 0 { return Failed(BadAmount); }
      var current := Lookup(store, subject);
      var window := WindowFor(current, t1, quota);
      window := window.(counters := window.counters[d := CounterOf(window.counters, d) + amount]);
      var next := Finalize(subject, window, quota, t2);
      store := store[subject := next];
      return Done(Some(next));
    }

    method AssertWithinQuota(subject: string, isPublicRoute: bool, now: int) returns (result: Metered<()>)
      requires WellFormed(quota)
      ensures isPublicRoute && ValidSubject(subject) ==>
                (result.Done? <==> forall d: Dimension :: InWindow(store, subject, d, now, quota) <= quota.limits[d])
      ensures !isPublicRoute ==> result == Done(())
      ensures isPublicRoute && !ValidSubject(subject) ==> result == Failed(BadSubject)
    {
      if !isPublicRoute { return Done(()); }
      if !ValidSubject(subject) { return Failed(BadSubject); }
      var usage := Usage(subject, Lookup(store, subject), now, quota);
      ExceededExactly(store, subject, now, quota);
      if usage.exceeded { return Failed(QuotaExceeded(usage.reasons)); }
      return Done(());
    }
  }
}
