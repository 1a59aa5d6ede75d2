/**
 The two fixed-window rate limiters: `admitRate` of the broker guards
 (src/tunnel/limits.ts) and `enforceRateLimit` of the room server (src/server/http.ts).

 Both open a 60 second window at a key's first call and count inside it. They differ in
 what a refused call leaves behind, and the server also drops every elapsed window on
 each call. Neither difference can be seen in the decisions, and both obey one bound.
 */
module RateWindows {

  const RATE_WINDOW_MS := 60_000

  datatype Window = Window(resetAt: int, count: int)

  datatype Call<K> = Call(key: K, at: int)

  predicate Opens<K>(windows: map<K, Window>, key: K, now: int) {
    key !in windows || now >= windows[key].resetAt
  }

  /** `admitRate`: a refused call changes nothing. */
  function BrokerAdmit<K>(windows: map<K, Window>, key: K, now: int, perMinute: int): (map<K, Window>, bool) {
    if Opens(windows, key, now) then (windows[key := Window(now + RATE_WINDOW_MS, 1)], true)
    else if windows[key].count >= perMinute then (windows, false)
    else (windows[key := windows[key].(count := windows[key].count + 1)], true)
  }

  function Pruned<K>(windows: map<K, Window>, now: int): map<K, Window> {
    map key | key in windows && now < windows[key].resetAt :: windows[key]
  }

  /** `enforceRateLimit` after its pruning pass: a refused call still counts. */
  function ServerAdmit<K>(windows: map<K, Window>, key: K, now: int, limit: int): (map<K, Window>, bool) {
    if Opens(windows, key, now) then (windows[key := Window(now + RATE_WINDOW_MS, 1)], true)
    else
      var count := windows[key].count + 1;
      (windows[key := windows[key].(count := count)], count <= limit)
  }

  /** Which of the calls are let through, for each limiter. */
  function BrokerDecisions<K>(windows: map<K, Window>, calls: seq<Call<K>>, limit: K -> int): (decisions: seq<bool>)
    ensures |decisions| == |calls|
    decreases |calls|
  {
    if calls == [] then []
    else
      var c := calls[0];
      var (next, ok) := BrokerAdmit(windows, c.key, c.at, limit(c.key));
      [ok] + BrokerDecisions(next, calls[1..], limit)
  }

  function ServerDecisions<K>(windows: map<K, Window>, calls: seq<Call<K>>, limit: K -> int): (decisions: seq<bool>)
    ensures |decisions| == |calls|
    decreases |calls|
  {
    if calls == [] then []
    else
      var c := calls[0];
      var (next, ok) := ServerAdmit(Pruned(windows, c.at), c.key, c.at, limit(c.key));
      [ok] + ServerDecisions(next, calls[1..], limit)
  }

  /** The server limiter without its pruning pass. */
  function UnprunedDecisions<K>(windows: map<K, Window>, calls: seq<Call<K>>, limit: K -> int): (decisions: seq<bool>)
    ensures |decisions| == |calls|
    decreases |calls|
  {
    if calls == [] then []
    else
      var c := calls[0];
      var (next, ok) := ServerAdmit(windows, c.key, c.at, limit(c.key));
      [ok] + UnprunedDecisions(next, calls[1..], limit)
  }

  ghost predicate InTimeOrder<K>(calls: seq<Call<K>>) {
    forall i, j :: 0 <= i < j < |calls| ==> calls[i].at <= calls[j].at
  }

  /** Calls for `key` let through with a time in the closed span. */
  function Admitted<K(==)>(calls: seq<Call<K>>, decisions: seq<bool>, key: K, from: int, to: int): nat
    requires |decisions| == |calls|
    decreases |calls|
  {
    if calls == [] then 0
    else
      (if decisions[0] && calls[0].key == key && from <= calls[0].at <= to then 1 else 0)
      + Admitted(calls[1..], decisions[1..], key, from, to)
  }

  // ---- pruning changes no decision ----

  /** The two server states agree on every window that has not elapsed. */
  ghost predicate SameLive<K(!new)>(a: map<K, Window>, b: map<K, Window>, now: int) {
    forall key :: (key in a && now < a[key].resetAt) || (key in b && now < b[key].resetAt) ==>
      key in a && key in b && a[key] == b[key]
  }

  lemma {:induction false} PruningFrom<K(!new)>(pruned: map<K, Window>, full: map<K, Window>, calls: seq<Call<K>>, limit: K -> int, now: int)
    requires InTimeOrder(calls) && (calls != [] ==> now <= calls[0].at)
    requires SameLive(pruned, full, now)
    ensures ServerDecisions(pruned, calls, limit) == UnprunedDecisions(full, calls, limit)
    decreases |calls|
  {
    if calls != [] {
      var c := calls[0];
      var p := ServerAdmit(Pruned(pruned, c.at), c.key, c.at, limit(c.key)).0;
      var f := ServerAdmit(full, c.key, c.at, limit(c.key)).0;
      assert SameLive(p, f, c.at);
      PruningFrom(p, f, calls[1..], limit, c.at);
    }
  }

  /** Dropping elapsed windows on every call decides exactly as never dropping any. */
  lemma PruningDecidesTheSame<K(!new)>(windows: map<K, Window>, calls: seq<Call<K>>, limit: K -> int)
    requires InTimeOrder(calls)
    ensures ServerDecisions(windows, calls, limit) == UnprunedDecisions(windows, calls, limit)
  {
    PruningFrom(windows, windows, calls, limit, if calls == [] then 0 else calls[0].at);
  }

  /** The unpruned server windows match the broker's up to counting refused calls. */
  ghost predicate CountsRefusals<K(!new)>(server: map<K, Window>, broker: map<K, Window>, limit: K -> int) {
    && server.Keys == broker.Keys
    && forall key :: key in server ==>
         && server[key].resetAt == broker[key].resetAt
         && (server[key].count == broker[key].count || (server[key].count >= limit(key) && broker[key].count >= limit(key)))
  }

  lemma {:induction false} LimitersAgree<K(!new)>(server: map<K, Window>, broker: map<K, Window>, calls: seq<Call<K>>, limit: K -> int)
    requires CountsRefusals(server, broker, limit)
    ensures UnprunedDecisions(server, calls, limit) == BrokerDecisions(broker, calls, limit)
    decreases |calls|
  {
    if calls != [] {
      var c := calls[0];
      LimitersAgree(ServerAdmit(server, c.key, c.at, limit(c.key)).0, BrokerAdmit(broker, c.key, c.at, limit(c.key)).0, calls[1..], limit);
    }
  }

  // ---- the bound ----

  function AtLeastOne(limit: int): nat {
    if limit < 1 then 1 else limit
  }

  function Room(window: Window, limit: int): nat {
    if window.count >= limit then 0 else limit - window.count
  }

  lemma {:induction false} NothingAfter<K(!new)>(calls: seq<Call<K>>, decisions: seq<bool>, key: K, from: int, to: int)
    requires |decisions| == |calls| && InTimeOrder(calls) && (calls != [] ==> to < calls[0].at)
    ensures Admitted(calls, decisions, key, from, to) == 0
    decreases |calls|
  {
    if calls != [] {
      assert calls[1..] != [] ==> calls[1..][0] == calls[1];
      NothingAfter(calls[1..], decisions[1..], key, from, to);
    }
  }

  /** From inside a window: its room, plus one more full window if the span reaches past it. */
  lemma {:induction false} WithinTwoWindows<K(!new)>(windows: map<K, Window>, calls: seq<Call<K>>, limit: K -> int, key: K, from: int, to: int)
    requires InTimeOrder(calls) && key in windows && to < windows[key].resetAt + RATE_WINDOW_MS
    ensures Admitted(calls, BrokerDecisions(windows, calls, limit), key, from, to) <=
            Room(windows[key], limit(key)) + if to < windows[key].resetAt then 0 else AtLeastOne(limit(key))
    decreases |calls|
  {
    if calls != [] {
      var c := calls[0];
      var (next, ok) := BrokerAdmit(windows, c.key, c.at, limit(c.key));
      var decisions := BrokerDecisions(windows, calls, limit);
      assert decisions[1..] == BrokerDecisions(next, calls[1..], limit);
      if to < c.at {
        NothingAfter(calls, decisions, key, from, to);
      } else {
        WithinTwoWindows(next, calls[1..], limit, key, from, to);
      }
    }
  }

  lemma {:induction false} BrokerBound<K(!new)>(windows: map<K, Window>, calls: seq<Call<K>>, limit: K -> int, key: K, from: int)
    requires InTimeOrder(calls) && (key in windows ==> windows[key].count >= 0)
    ensures Admitted(calls, BrokerDecisions(windows, calls, limit), key, from, from + RATE_WINDOW_MS) <= 2 * AtLeastOne(limit(key))
    decreases |calls|
  {
    if calls != [] {
      var c := calls[0];
      var (next, ok) := BrokerAdmit(windows, c.key, c.at, limit(c.key));
      var decisions := BrokerDecisions(windows, calls, limit);
      assert decisions[1..] == BrokerDecisions(next, calls[1..], limit);
      if c.key == key && from <= c.at <= from + RATE_WINDOW_MS {
        if Opens(windows, key, c.at) {
          WithinTwoWindows(next, calls[1..], limit, key, from, from + RATE_WINDOW_MS);
        } else {
          WithinTwoWindows(windows, calls, limit, key, from, from + RATE_WINDOW_MS);
        }
      } else {
        BrokerBound(next, calls[1..], limit, key, from);
      }
    }
  }

  /**
   Any closed span of one window length lets at most twice max(1, limit) calls of a key
   through, for the broker limiter and for the pruning server limiter, whatever other
   keys do and from whatever windows the run starts.
   */
  lemma SpanBound<K(!new)>(windows: map<K, Window>, calls: seq<Call<K>>, limit: K -> int, key: K, from: int)
    requires InTimeOrder(calls) && (key in windows ==> windows[key].count >= 0)
    ensures Admitted(calls, BrokerDecisions(windows, calls, limit), key, from, from + RATE_WINDOW_MS) <= 2 * AtLeastOne(limit(key))
    ensures Admitted(calls, ServerDecisions(windows, calls, limit), key, from, from + RATE_WINDOW_MS) <= 2 * AtLeastOne(limit(key))
  {
    BrokerBound(windows, calls, limit, key, from);
    PruningDecidesTheSame(windows, calls, limit);
    LimitersAgree(windows, windows, calls, limit);
  }

  // ---- the bound is reached ----

  /** `n` calls of one key at one time. */
  function Burst<K>(key: K, at: int, n: nat): (calls: seq<Call<K>>)
    ensures |calls| == n && forall i :: 0 <= i < n ==> calls[i] == Call(key, at)
  {
    seq(n, i => Call(key, at))
  }

  lemma {:induction false} BurstFills<K(!new)>(windows: map<K, Window>, key: K, at: int, n: nat, rest: seq<Call<K>>, limit: K -> int, from: int, to: int)
    requires key in windows && at < windows[key].resetAt && from <= at <= to
    requires windows[key].count + n <= limit(key)
    ensures var calls := Burst(key, at, n) + rest;
            var filled := windows[key := windows[key].(count := windows[key].count + n)];
            Admitted(calls, BrokerDecisions(windows, calls, limit), key, from, to)
            == n + Admitted(rest, BrokerDecisions(filled, rest, limit), key, from, to)
    decreases n
  {
    var calls := Burst(key, at, n) + rest;
    if n == 0 {
      assert calls == rest;
      assert windows[key := windows[key].(count := windows[key].count + n)] == windows;
    } else {
      var next := windows[key := windows[key].(count := windows[key].count + 1)];
      assert calls[1..] == Burst(key, at, n - 1) + rest;
      assert BrokerDecisions(windows, calls, limit)[1..] == BrokerDecisions(next, calls[1..], limit);
      BurstFills(next, key, at, n - 1, rest, limit, from, to);
      assert next[key := next[key].(count := next[key].count + n - 1)] == windows[key := windows[key].(count := windows[key].count + n)];
    }
  }

  /** For every positive limit some run lets exactly twice the limit through inside one span. */
  lemma BoundIsReached<K(!new)>(key: K, limit: K -> int)
    requires limit(key) >= 1
    ensures var calls := Burst(key, 0, limit(key)) + Burst(key, RATE_WINDOW_MS, limit(key));
            InTimeOrder(calls) && Admitted(calls, BrokerDecisions(map[], calls, limit), key, 0, RATE_WINDOW_MS) == 2 * limit(key)
  {
    var n := limit(key);
    var late := Burst(key, RATE_WINDOW_MS, n);
    var calls := Burst(key, 0, n) + late;
    var first := map[key := Window(RATE_WINDOW_MS, 1)];
    assert calls[1..] == Burst(key, 0, n - 1) + late;
    assert BrokerDecisions(map[], calls, limit)[1..] == BrokerDecisions(first, calls[1..], limit);
    BurstFills(first, key, 0, n - 1, late, limit, 0, RATE_WINDOW_MS);
    var full := map[key := Window(RATE_WINDOW_MS, n)];
    assert first[key := first[key].(count := n)] == full;
    var second := map[key := Window(2 * RATE_WINDOW_MS, 1)];
    assert full[key := Window(2 * RATE_WINDOW_MS, 1)] == second;
    assert late[1..] == Burst(key, RATE_WINDOW_MS, n - 1);
    assert late[1..] + [] == late[1..];
    assert BrokerDecisions(full, late, limit)[1..] == BrokerDecisions(second, late[1..], limit);
    BurstFills(second, key, RATE_WINDOW_MS, n - 1, [], limit, 0, RATE_WINDOW_MS);
  }

  // ---- the mutable server limiter ----

  class RateBuckets {
    var buckets: map<string, Window>

    constructor ()
      ensures buckets == map[]
    {
      buckets := map[];
    }

    method Enforce(key: string, limit: int, now: int) returns (admitted: bool)
      modifies this
      ensures (buckets, admitted) == ServerAdmit(Pruned(old(buckets), now), key, now, limit)
    {
      var unseen := buckets.Keys;
      while unseen != {}
        invariant unseen <= old(buckets).Keys
        invariant buckets == map k | k in old(buckets) && (k in unseen || now < old(buckets)[k].resetAt) :: old(buckets)[k]
        decreases |unseen|
      {
        var bucketKey :| bucketKey in unseen;
        unseen := unseen - {bucketKey};
        if now >= buckets[bucketKey].resetAt { buckets := buckets - {bucketKey}; }
      }
      ghost var pruned := Pruned(old(buckets), now);
      assert buckets == pruned;
      if key !in buckets || now >= buckets[key].resetAt {
        buckets := buckets[key := Window(now + RATE_WINDOW_MS, 1)];
        assert buckets == ServerAdmit(pruned, key, now, limit).0;
        return true;
      }
      buckets := buckets[key := buckets[key].(count := buckets[key].count + 1)];
      return buckets[key].count <= limit;
    }
  }
}
