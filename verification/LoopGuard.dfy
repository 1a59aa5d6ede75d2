/**
 The loop guard and its auto-continue cycles (src/server/http.ts): module-level maps shared by
 every room served from the process. Posts, cancellations and timer completions interleave at
 the two state reads the code awaits.
 */
module LoopGuard {
  import opened Collections
  import opened Slugs

  datatype RoomId = RoomId(text: string)
  datatype Alias = Alias(text: string)

  /** Keys of the counter map are strings, and rooms are told apart by a prefix of them. */
  datatype Key = Key(text: string)

  function KeyOf(room: RoomId, alias: Alias): Key {
    Key(room.text + ":" + alias.text)
  }

  predicate StartsWith(text: string, prefix: string) {
    |prefix| <= |text| && text[..|prefix|] == prefix
  }

  predicate BelongsTo(key: Key, room: RoomId) {
    StartsWith(key.text, room.text + ":")
  }

  datatype Timer = Timer(id: nat, room: RoomId, alias: Alias)

  /** The one pending entry a room may have. */
  datatype Cycle = Cycle(alias: Alias, timerId: nat)

  /** An agent post over the limit, awaiting the room's state. */
  datatype Overflow = Overflow(room: RoomId, alias: Alias)

  datatype Guard = Guard(
    counts: map<Key, nat>,
    pending: map<RoomId, Cycle>,
    armed: set<Timer>,           // timers not yet fired nor cleared
    completing: set<Timer>,      // fired, awaiting the room's state
    overflowing: multiset<Overflow>,
    nextTimer: nat,
    approved: map<RoomId, nat>)

  const IDLE := Guard(map[], map[], {}, {}, multiset{}, 0, map[])

  function CountOf(g: Guard, room: RoomId, alias: Alias): nat {
    var key := KeyOf(room, alias);
    if key in g.counts then g.counts[key] else 0
  }

  function Cleared(counts: map<Key, nat>, room: RoomId): map<Key, nat> {
    map key | key in counts && !BelongsTo(key, room) :: counts[key]
  }

  function Cancelled(g: Guard, room: RoomId): Guard {
    if room !in g.pending then g
    else g.(pending := g.pending - {room}, armed := set t | t in g.armed && t.id != g.pending[room].timerId)
  }

  datatype Verdict = Through | Refused | Overflows

  /** The part of `enforceLoopGuard` an agent's post runs without awaiting. */
  function VerdictOn(g: Guard, limit: nat, room: RoomId, alias: Alias): Verdict {
    if room in g.pending then Refused
    else if CountOf(g, room, alias) + 1 <= limit then Through
    else Overflows
  }

  function AfterAgentPost(g: Guard, limit: nat, room: RoomId, alias: Alias): Guard {
    if room in g.pending then g
    else
      var counted := g.(counts := g.counts[KeyOf(room, alias) := CountOf(g, room, alias) + 1]);
      if CountOf(g, room, alias) + 1 <= limit then counted
      else counted.(overflowing := g.overflowing + multiset{Overflow(room, alias)})
  }

  function AfterHumanPost(g: Guard, room: RoomId): Guard {
    Cancelled(g.(counts := Cleared(g.counts, room)), room)
  }

  function Scheduled(g: Guard, room: RoomId, alias: Alias): Guard {
    if room in g.pending then g
    else g.(pending := g.pending[room := Cycle(alias, g.nextTimer)],
            armed := g.armed + {Timer(g.nextTimer, room, alias)}, nextTimer := g.nextTimer + 1)
  }

  function AfterOverflowRead(g: Guard, o: Overflow, enabled: bool): Guard {
    var read := g.(overflowing := g.overflowing - multiset{o});
    if enabled then Scheduled(read, o.room, o.alias) else read
  }

  function AfterTimerFires(g: Guard, t: Timer): Guard {
    var fired := g.(armed := g.armed - {t});
    if t.room in g.pending then fired.(completing := g.completing + {t}) else fired
  }

  /** What the awaited state read of a completion found. */
  datatype Found = Unreadable | Live | ClosedOrExpired

  predicate Approves(g: Guard, t: Timer, found: Found) {
    found == Live && t.room in g.pending
  }

  function AfterCompletion(g: Guard, t: Timer, found: Found): Guard {
    var done := g.(completing := g.completing - {t});
    if !Approves(g, t, found) then (if found == Live then done else Cancelled(done, t.room))
    else
      var approvals := if t.room in g.approved then g.approved[t.room] else 0;
      done.(pending := g.pending - {t.room}, counts := Cleared(g.counts, t.room), approved := g.approved[t.room := approvals + 1])
  }

  // ---- runs ----

  datatype Event =
    | AgentPost(room: RoomId, alias: Alias)
    | HumanPost(room: RoomId)
    | Cancel(room: RoomId)   // the preference switched off, a close, an expiry, a shutdown
    | OverflowRead(o: Overflow, enabled: bool)
    | TimerFires(t: Timer)
    | Completion(t: Timer, found: Found)

  function RoomOf(e: Event): RoomId {
    match e
    case AgentPost(room, alias) => room
    case HumanPost(room) => room
    case Cancel(room) => room
    case OverflowRead(o, enabled) => o.room
    case TimerFires(t) => t.room
    case Completion(t, found) => t.room
  }

  predicate Possible(g: Guard, e: Event) {
    match e
    case OverflowRead(o, enabled) => o in g.overflowing
    case TimerFires(t) => t in g.armed
    case Completion(t, found) => t in g.completing
    case _ => IsSafeSlug(RoomOf(e).text)
  }

  /** Each room's server has its own limit. */
  type Limits = RoomId -> nat

  function Apply(limits: Limits, g: Guard, e: Event): Guard {
    match e
    case AgentPost(room, alias) => AfterAgentPost(g, limits(room), room, alias)
    case HumanPost(room) => AfterHumanPost(g, room)
    case Cancel(room) => Cancelled(g, room)
    case OverflowRead(o, enabled) => AfterOverflowRead(g, o, enabled)
    case TimerFires(t) => AfterTimerFires(g, t)
    case Completion(t, found) => AfterCompletion(g, t, found)
  }

  function Run(limits: Limits, g: Guard, events: seq<Event>): Guard
    decreases |events|
  {
    if events == [] then g else Run(limits, Apply(limits, g, events[0]), events[1..])
  }

  ghost predicate PossibleRun(limits: Limits, g: Guard, events: seq<Event>)
    decreases |events|
  {
    events != [] ==> Possible(g, events[0]) && PossibleRun(limits, Apply(limits, g, events[0]), events[1..])
  }

  predicate LetsThrough(limits: Limits, g: Guard, e: Event, room: RoomId, alias: Alias) {
    e == AgentPost(room, alias) && VerdictOn(g, limits(room), room, alias) == Through
  }

  predicate Resets(g: Guard, e: Event, room: RoomId) {
    e == HumanPost(room) || (e.Completion? && e.t.room == room && Approves(g, e.t, e.found))
  }

  /** How many posts of one agent a run lets through. */
  function Passes(limits: Limits, g: Guard, events: seq<Event>, room: RoomId, alias: Alias): nat
    decreases |events|
  {
    if events == [] then 0
    else
      (if LetsThrough(limits, g, events[0], room, alias) then 1 else 0)
      + Passes(limits, Apply(limits, g, events[0]), events[1..], room, alias)
  }

  /** How often a run clears one room's counters. */
  function ResetCount(limits: Limits, g: Guard, events: seq<Event>, room: RoomId): nat
    decreases |events|
  {
    if events == [] then 0
    else
      (if Resets(g, events[0], room) then 1 else 0)
      + ResetCount(limits, Apply(limits, g, events[0]), events[1..], room)
  }

  // ---- keys ----

  predicate NoSeparator(text: string) {
    forall i :: 0 <= i < |text| ==> text[i] != ':'
  }

  lemma SlugsHaveNoSeparator(text: string)
    requires IsSafeSlug(text)
    ensures NoSeparator(text)
  {
  }

  /** With separator-free room ids, a prefix match finds exactly the room's own keys. */
  lemma KeysSplitByRoom(room: RoomId, alias: Alias, other: RoomId)
    requires NoSeparator(room.text) && NoSeparator(other.text)
    ensures BelongsTo(KeyOf(room, alias), other) <==> room == other
  {
    var key, prefix := KeyOf(room, alias).text, other.text + ":";
    if BelongsTo(KeyOf(room, alias), other) {
      assert key[|other.text|] == prefix[|other.text|] == ':';
      assert key[|room.text|] == ':';
      assert forall i :: 0 <= i < |room.text| ==> key[i] == room.text[i];
      assert forall i :: 0 <= i < |other.text| ==> key[i] == prefix[i] == other.text[i];
      assert |room.text| == |other.text|;
      assert room.text == other.text;
    }
    if room == other {
      assert key[..|prefix|] == prefix;
    }
  }

  lemma KeysAreInjective(room: RoomId, alias: Alias, room': RoomId, alias': Alias)
    requires NoSeparator(room.text) && NoSeparator(room'.text)
    ensures KeyOf(room, alias) == KeyOf(room', alias') ==> room == room' && alias == alias'
  {
    if KeyOf(room, alias) == KeyOf(room', alias') {
      KeysSplitByRoom(room, alias, room');
      KeysSplitByRoom(room', alias', room');
      assert alias.text == KeyOf(room, alias).text[|room.text| + 1..];
      assert alias'.text == KeyOf(room', alias').text[|room'.text| + 1..];
    }
  }

  /** The separator matters: a room id containing it would be reset by a shorter room's traffic. */
  lemma SeparatorInARoomIdLeaks()
    ensures var key := KeyOf(RoomId("a:b"), Alias("c")); BelongsTo(key, RoomId("a")) && RoomId("a:b") != RoomId("a")
  {
    assert (("a:b" + ":") + "c")[..|"a" + ":"|] == "a" + ":";
  }

  // ---- every event acts on its own room ----

  /** Rooms in play are slugs: every task in flight came from a post to such a room. */
  ghost predicate SlugRooms(g: Guard) {
    && (forall t :: t in g.armed || t in g.completing ==> NoSeparator(t.room.text))
    && (forall o :: o in g.overflowing ==> NoSeparator(o.room.text))
  }

  lemma CompletionDrops(g: Guard, t: Timer, found: Found)
    ensures var after, cancelled := AfterCompletion(g, t, found), Cancelled(g, t.room);
      && after.pending == cancelled.pending && after.nextTimer == g.nextTimer
      && after.armed <= g.armed && cancelled.armed <= after.armed
      && after.overflowing == g.overflowing && after.completing == g.completing - {t} && cancelled.completing == g.completing
      && t.room !in after.pending
  {
    hide Cleared;
  }

  lemma CancelDrops(g: Guard, room: RoomId)
    ensures var after := Cancelled(g, room);
      after.armed <= g.armed && after.completing == g.completing && after.overflowing == g.overflowing
  {
  }

  lemma ScheduleStaysInRoom(g: Guard, room: RoomId, alias: Alias)
    ensures var after := Scheduled(g, room, alias);
      && after.completing == g.completing && after.overflowing == g.overflowing
      && forall t :: t in after.armed ==> t in g.armed || t.room == room
  {
  }

  /** No event starts a task for another room than its own. */
  lemma TasksStayInRoom(limits: Limits, g: Guard, e: Event)
    requires Possible(g, e)
    ensures var after := Apply(limits, g, e);
      && (forall t :: t in after.armed || t in after.completing ==> t in g.armed || t in g.completing || t.room == RoomOf(e))
      && (forall o :: o in after.overflowing ==> o in g.overflowing || o.room == RoomOf(e))
  {
    hide KeyOf, BelongsTo, Cleared, CountOf, IsSafeSlug, Cancelled, AfterCompletion, Scheduled;
    match e
    case HumanPost(room) => CancelDrops(g.(counts := Cleared(g.counts, room)), room);
    case Cancel(room) => CancelDrops(g, room);
    case OverflowRead(o, enabled) => ScheduleStaysInRoom(g.(overflowing := g.overflowing - multiset{o}), o.room, o.alias);
    case Completion(t, found) => CompletionDrops(g, t, found); CancelDrops(g, t.room);
    case _ =>
  }

  lemma RoomOfIsSlug(g: Guard, e: Event)
    requires SlugRooms(g) && Possible(g, e)
    ensures NoSeparator(RoomOf(e).text)
  {
  }

  lemma StepKeepsSlugRooms(limits: Limits, g: Guard, e: Event)
    requires SlugRooms(g) && Possible(g, e)
    ensures SlugRooms(Apply(limits, g, e)) && NoSeparator(RoomOf(e).text)
  {
    hide Apply, Possible, NoSeparator;
    TasksStayInRoom(limits, g, e);
    RoomOfIsSlug(g, e);
  }

  lemma ClearingIsExact(counts: map<Key, nat>, room: RoomId, other: RoomId, alias: Alias)
    requires NoSeparator(room.text) && NoSeparator(other.text)
    ensures var key := KeyOf(other, alias);
            if other == room then key !in Cleared(counts, room)
            else (key in Cleared(counts, room) <==> key in counts) && (key in counts ==> Cleared(counts, room)[key] == counts[key])
  {
    hide KeyOf, BelongsTo;
    KeysSplitByRoom(other, alias, room);
  }

  /** What one event does to one agent's counter: counted, cleared by its own room, or left alone. */
  lemma CounterMoves(limits: Limits, g: Guard, e: Event, room: RoomId, alias: Alias)
    requires SlugRooms(g) && Possible(g, e) && NoSeparator(room.text)
    ensures var was, now := CountOf(g, room, alias), CountOf(Apply(limits, g, e), room, alias);
      now == if Resets(g, e, room) then 0
             else if e == AgentPost(room, alias) && room !in g.pending then was + 1
             else was
  {
    hide KeyOf, BelongsTo, Cleared, SlugRooms;
    StepKeepsSlugRooms(limits, g, e);
    hide NoSeparator;
    match e
    case AgentPost(r, a) => KeysAreInjective(room, alias, r, a);
    case HumanPost(r) => ClearingIsExact(g.counts, r, room, alias);
    case Completion(t, found) => ClearingIsExact(g.counts, t.room, room, alias);
    case _ =>
  }

  /** Traffic in other rooms neither resets, counts, schedules nor cancels anything in this one. */
  lemma OtherRoomsAreUntouched(limits: Limits, g: Guard, e: Event, room: RoomId, alias: Alias)
    requires SlugRooms(g) && Possible(g, e) && NoSeparator(room.text) && RoomOf(e) != room
    ensures var after := Apply(limits, g, e);
      && CountOf(after, room, alias) == CountOf(g, room, alias)
      && (room in after.pending <==> room in g.pending)
      && (room in g.pending ==> after.pending[room] == g.pending[room])
  {
    hide KeyOf, BelongsTo, Cleared;
    CounterMoves(limits, g, e, room, alias);
  }

  // ---- the whole-run bound ----

  function Headroom(limit: nat, count: nat): nat {
    if count < limit then limit - count else 0
  }

  lemma {:induction false} RemainingPasses(limits: Limits, g: Guard, events: seq<Event>, room: RoomId, alias: Alias)
    requires SlugRooms(g) && PossibleRun(limits, g, events) && NoSeparator(room.text)
    ensures Passes(limits, g, events, room, alias)
         <= Headroom(limits(room), CountOf(g, room, alias)) + limits(room) * ResetCount(limits, g, events, room)
    decreases |events|
  {
    hide Apply, CountOf, Possible, SlugRooms;
    if events != [] {
      var e, next := events[0], Apply(limits, g, events[0]);
      assert LetsThrough(limits, g, e, room, alias) ==> room !in g.pending && CountOf(g, room, alias) < limits(room);
      StepKeepsSlugRooms(limits, g, e);
      CounterMoves(limits, g, e, room, alias);
      RemainingPasses(limits, next, events[1..], room, alias);
      var l, later := limits(room), ResetCount(limits, next, events[1..], room);
      assert l * (1 + later) == l + l * later;
    }
  }

  /**
   Over any interleaving, the posts let through for one agent number at most the limit times one
   more than the resets of its own room.
   */
  lemma PassesAreBounded(limits: Limits, events: seq<Event>, room: RoomId, alias: Alias)
    requires PossibleRun(limits, IDLE, events) && IsSafeSlug(room.text)
    ensures Passes(limits, IDLE, events, room, alias) <= limits(room) * (1 + ResetCount(limits, IDLE, events, room))
  {
    SlugsHaveNoSeparator(room.text);
    RemainingPasses(limits, IDLE, events, room, alias);
    var l, resets := limits(room), ResetCount(limits, IDLE, events, room);
    assert l * (1 + resets) == l + l * resets;
  }

  /** The bound is met: a fresh counter lets exactly its limit of posts through in a row. */
  lemma {:induction false} TheLimitIsReached(limits: Limits, g: Guard, room: RoomId, alias: Alias, n: nat)
    requires SlugRooms(g) && IsSafeSlug(room.text) && room !in g.pending
    requires CountOf(g, room, alias) + n <= limits(room)
    ensures var posts := seq(n, i => AgentPost(room, alias));
            PossibleRun(limits, g, posts) && Passes(limits, g, posts, room, alias) == n
    decreases n
  {
    hide CountOf, SlugRooms;
    var posts := seq(n, i => AgentPost(room, alias));
    if n > 0 {
      var e, next := posts[0], Apply(limits, g, posts[0]);
      assert posts[1..] == seq(n - 1, i => AgentPost(room, alias));
      SlugsHaveNoSeparator(room.text);
      StepKeepsSlugRooms(limits, g, e);
      CounterMoves(limits, g, e, room, alias);
      TheLimitIsReached(limits, next, room, alias, n - 1);
    }
  }

  ghost predicate PendingThroughout(limits: Limits, g: Guard, events: seq<Event>, room: RoomId)
    decreases |events|
  {
    room in g.pending && (events != [] ==> PendingThroughout(limits, Apply(limits, g, events[0]), events[1..], room))
  }

  /** While a continuation is pending no agent gets through. */
  lemma {:induction false} NonePassWhilePending(limits: Limits, g: Guard, events: seq<Event>, room: RoomId, alias: Alias)
    requires PendingThroughout(limits, g, events, room)
    ensures Passes(limits, g, events, room, alias) == 0
    decreases |events|
  {
    if events != [] {
      NonePassWhilePending(limits, Apply(limits, g, events[0]), events[1..], room, alias);
    }
  }

  // ---- cycles ----

  function Timers(g: Guard): set<Timer> {
    g.armed + g.completing
  }

  /** Timer ids are unique, and every pending entry's own timer is armed or completing. */
  ghost predicate Linked(g: Guard) {
    && (forall t :: t in Timers(g) ==> t.id < g.nextTimer)
    && (forall t, u :: t in Timers(g) && u in Timers(g) && t.id == u.id ==> t == u)
    && (forall room :: room in g.pending ==> Timer(g.pending[room].timerId, room, g.pending[room].alias) in Timers(g))
  }

  lemma CancelKeepsLinked(g: Guard, room: RoomId)
    requires Linked(g)
    ensures Linked(Cancelled(g, room))
  {
    var after := Cancelled(g, room);
    assert Timers(after) <= Timers(g);
    forall r | r in after.pending ensures Timer(g.pending[r].timerId, r, g.pending[r].alias) in Timers(after) {
      var own := Timer(g.pending[r].timerId, r, g.pending[r].alias);
      assert own in Timers(g);
      if room in g.pending {
        assert Timer(g.pending[room].timerId, room, g.pending[room].alias) in Timers(g);
      }
    }
  }

  lemma ScheduleKeepsLinked(g: Guard, room: RoomId, alias: Alias)
    requires Linked(g)
    ensures Linked(Scheduled(g, room, alias))
  {
    if room !in g.pending {
      assert Timers(Scheduled(g, room, alias)) == Timers(g) + {Timer(g.nextTimer, room, alias)};
    }
  }

  lemma FiringKeepsLinked(g: Guard, t: Timer)
    requires Linked(g) && t in g.armed
    ensures Linked(AfterTimerFires(g, t))
  {
    assert Timers(AfterTimerFires(g, t)) <= Timers(g);
  }

  lemma FewerTimersStayLinked(g: Guard, after: Guard)
    requires Linked(g) && Timers(after) <= Timers(g) && after.nextTimer == g.nextTimer
    requires forall room :: room in after.pending ==> Timer(after.pending[room].timerId, room, after.pending[room].alias) in Timers(after)
    ensures Linked(after)
  {
    hide Timers;
  }

  /** Dropping a completing timer whose room has nothing pending leaves every other room its own. */
  lemma OwnTimersRemain(g: Guard, after: Guard, t: Timer, room: RoomId)
    requires Linked(g) && after.pending == g.pending && room in g.pending && room != t.room
    requires g.armed <= after.armed && after.completing == g.completing - {t}
    ensures Timer(after.pending[room].timerId, room, after.pending[room].alias) in Timers(after)
  {
  }

  lemma CompletionKeepsLinked(g: Guard, t: Timer, found: Found)
    requires Linked(g) && t in g.completing
    ensures Linked(AfterCompletion(g, t, found))
  {
    var after, cancelled := AfterCompletion(g, t, found), Cancelled(g, t.room);
    CancelKeepsLinked(g, t.room);
    CompletionDrops(g, t, found);
    assert Timers(after) <= Timers(g);
    hide AfterCompletion, Cancelled, Timers, Linked;
    forall r | r in after.pending ensures Timer(after.pending[r].timerId, r, after.pending[r].alias) in Timers(after) {
      OwnTimersRemain(cancelled, after, t, r);
    }
    FewerTimersStayLinked(g, after);
  }

  lemma StepKeepsLinked(limits: Limits, g: Guard, e: Event)
    requires Linked(g) && Possible(g, e)
    ensures Linked(Apply(limits, g, e))
  {
    hide KeyOf, BelongsTo, Cleared, CountOf, Cancelled, Scheduled;
    match e
    case AgentPost(room, alias) =>
    case HumanPost(room) => CancelKeepsLinked(g.(counts := Cleared(g.counts, room)), room);
    case Cancel(room) => CancelKeepsLinked(g, room);
    case OverflowRead(o, enabled) => ScheduleKeepsLinked(g.(overflowing := g.overflowing - multiset{o}), o.room, o.alias);
    case TimerFires(t) => FiringKeepsLinked(g, t);
    case Completion(t, found) => CompletionKeepsLinked(g, t, found);
  }

  lemma {:induction false} RunKeepsLinked(limits: Limits, g: Guard, events: seq<Event>)
    requires Linked(g) && PossibleRun(limits, g, events)
    ensures Linked(Run(limits, g, events))
    decreases |events|
  {
    hide Linked, Apply;
    if events != [] {
      StepKeepsLinked(limits, g, events[0]);
      RunKeepsLinked(limits, Apply(limits, g, events[0]), events[1..]);
    }
  }

  /**
   No run wedges a room: whenever one is pending, its cycle's timer is still to fire or awaiting
   its read, and that read, whatever it finds, opens the room again.
   */
  lemma NeverWedged(limits: Limits, events: seq<Event>, room: RoomId) returns (t: Timer)
    requires PossibleRun(limits, IDLE, events) && room in Run(limits, IDLE, events).pending
    ensures var g := Run(limits, IDLE, events);
      && t.room == room && t.id == g.pending[room].timerId && t.alias == g.pending[room].alias
      && t in Timers(g)
      && (t in g.armed ==> t in AfterTimerFires(g, t).completing)
      && (forall found :: room !in AfterCompletion(g, t, found).pending)
  {
    RunKeepsLinked(limits, IDLE, events);
    var g := Run(limits, IDLE, events);
    t := Timer(g.pending[room].timerId, room, g.pending[room].alias);
  }

  // ---- which cycle a completion ends ----

  /** The room's pending entry is the one `t` was armed for. */
  predicate Owns(g: Guard, t: Timer) {
    t.room in g.pending && g.pending[t.room].timerId == t.id
  }

  /** A human post, a cancellation or another completion: each drops whatever the room has pending. */
  predicate Ends(e: Event, room: RoomId) {
    e == HumanPost(room) || e == Cancel(room) || (e.Completion? && e.t.room == room)
  }

  /** `t` has been used up: neither armed nor completing, and its id is never given out again. */
  ghost predicate Spent(g: Guard, t: Timer) {
    t !in g.armed && t !in g.completing && t.id < g.nextTimer
  }

  /** No step arms a timer that was armed before, or fires one that is not armed. */
  lemma StepOnTimers(limits: Limits, g: Guard, e: Event, t: Timer)
    requires Possible(g, e) && t !in g.armed && t.id < g.nextTimer
    ensures var next := Apply(limits, g, e);
      t !in next.armed && t.id < next.nextTimer && (t in next.completing ==> t in g.completing)
  {
    hide KeyOf, BelongsTo, Cleared, CountOf, IsSafeSlug, Cancelled;
    match e
    case AgentPost(room, alias) =>
    case HumanPost(room) => CancelDrops(g.(counts := Cleared(g.counts, room)), room); CancelKeepsIds(g.(counts := Cleared(g.counts, room)), room);
    case Cancel(room) => CancelDrops(g, room); CancelKeepsIds(g, room);
    case OverflowRead(o, enabled) =>
    case TimerFires(fired) =>
    case Completion(done, found) => CompletionDrops(g, done, found);
  }

  lemma CancelKeepsIds(g: Guard, room: RoomId)
    ensures Cancelled(g, room).nextTimer == g.nextTimer
    ensures Cancelled(g, room).pending == g.pending - {room}
  {
  }

  /** What one step does to a room's pending entry: dropped, kept, or newly made under the next id. */
  lemma StepOnPending(limits: Limits, g: Guard, e: Event, room: RoomId)
    requires Possible(g, e)
    ensures var next := Apply(limits, g, e);
      && (Ends(e, room) ==> room !in next.pending)
      && (!Ends(e, room) && room in g.pending ==> room in next.pending && next.pending[room] == g.pending[room])
      && (room !in g.pending && room in next.pending ==> next.pending[room].timerId == g.nextTimer)
  {
    hide KeyOf, BelongsTo, Cleared, CountOf, IsSafeSlug, Cancelled;
    match e
    case AgentPost(r, alias) =>
    case HumanPost(r) => CancelKeepsIds(g.(counts := Cleared(g.counts, r)), r);
    case Cancel(r) => CancelKeepsIds(g, r);
    case OverflowRead(o, enabled) =>
    case TimerFires(fired) =>
    case Completion(done, found) => CompletionDrops(g, done, found); CancelKeepsIds(g, done.room);
  }

  lemma {:induction false} SpentForGood(limits: Limits, g: Guard, events: seq<Event>, t: Timer)
    requires PossibleRun(limits, g, events) && Spent(g, t)
    ensures Spent(Run(limits, g, events), t)
    decreases |events|
  {
    hide Apply, Possible;
    if events != [] {
      StepOnTimers(limits, g, events[0], t);
      SpentForGood(limits, Apply(limits, g, events[0]), events[1..], t);
    }
  }

  /** One event while `t` awaits its read: its cycle stays pending unless the event ends it, and never comes back. */
  lemma StepWhileCompleting(limits: Limits, g: Guard, e: Event, t: Timer)
    requires Possible(g, e) && t !in g.armed && t.id < g.nextTimer
    ensures Owns(Apply(limits, g, e), t) <==> Owns(g, t) && !Ends(e, t.room)
  {
    StepOnPending(limits, g, e, t.room);
    hide Apply, Possible, Ends;
  }

  lemma {:induction false} OwnsExactly(limits: Limits, g: Guard, events: seq<Event>, t: Timer)
    requires PossibleRun(limits, g, events) && t !in g.armed && t in g.completing && t.id < g.nextTimer
    requires t in Run(limits, g, events).completing
    ensures Owns(Run(limits, g, events), t) <==> Owns(g, t) && forall e :: e in events ==> !Ends(e, t.room)
    decreases |events|
  {
    hide Apply, Possible, Owns, Ends;
    if events != [] {
      var next := Apply(limits, g, events[0]);
      StepWhileCompleting(limits, g, events[0], t);
      StepOnTimers(limits, g, events[0], t);
      if t !in next.completing { SpentForGood(limits, next, events[1..], t); }
      OwnsExactly(limits, next, events[1..], t);
      assert events == [events[0]] + events[1..];
    }
  }

  lemma FiringKeepsOwner(g: Guard, t: Timer)
    requires Linked(g) && t in g.armed && t in AfterTimerFires(g, t).completing
    ensures var fired := AfterTimerFires(g, t);
      t !in fired.armed && t.id < fired.nextTimer && (Owns(fired, t) <==> Owns(g, t))
  {
  }

  /**
   Over every run: the cycle a completion finds when its read returns is its own exactly when it
   was its own as the timer fired and nothing dropped the room's cycle in between; and then the
   approval names the agent that opened it.
   */
  lemma CompletionEndsItsOwnCycleExactly(limits: Limits, before: seq<Event>, t: Timer, between: seq<Event>)
    requires PossibleRun(limits, IDLE, before) && t in Run(limits, IDLE, before).armed
    requires var fired := Apply(limits, Run(limits, IDLE, before), TimerFires(t));
      t in fired.completing && PossibleRun(limits, fired, between) && t in Run(limits, fired, between).completing
    ensures var g := Run(limits, IDLE, before); var end := Run(limits, Apply(limits, g, TimerFires(t)), between);
      && (Owns(end, t) <==> Owns(g, t) && forall e :: e in between ==> !Ends(e, t.room))
      && (Owns(end, t) ==> end.pending[t.room].alias == t.alias)
  {
    var g := Run(limits, IDLE, before);
    RunKeepsLinked(limits, IDLE, before);
    FiringKeepsOwner(g, t);
    var fired := Apply(limits, g, TimerFires(t));
    FiringKeepsLinked(g, t);
    OwnsExactly(limits, fired, between, t);
    RunKeepsLinked(limits, fired, between);
    hide Run, PossibleRun, Apply, Ends;
    OwnCycleNamesItsAlias(Run(limits, fired, between), t);
  }

  lemma OwnCycleNamesItsAlias(g: Guard, t: Timer)
    requires Linked(g) && t in g.completing
    ensures Owns(g, t) ==> g.pending[t.room].alias == t.alias
  {
  }

  // ---- a late completion ends another agent's cycle, under every limit ----

  lemma {:induction false} RunConcat(limits: Limits, g: Guard, a: seq<Event>, b: seq<Event>)
    requires PossibleRun(limits, g, a) && PossibleRun(limits, Run(limits, g, a), b)
    ensures PossibleRun(limits, g, a + b) && Run(limits, g, a + b) == Run(limits, Run(limits, g, a), b)
    decreases |a|
  {
    hide Apply, Possible;
    var all := a + b;
    if a == [] {
      assert all == b;
    } else {
      assert all[0] == a[0] && all[1..] == a[1..] + b;
      RunConcat(limits, Apply(limits, g, a[0]), a[1..], b);
    }
  }

  lemma OneEvent(limits: Limits, g: Guard, e: Event)
    requires Possible(g, e)
    ensures PossibleRun(limits, g, [e]) && Run(limits, g, [e]) == Apply(limits, g, e)
  {
    hide Apply, Possible;
    assert [e][1..] == [];
    var next := Apply(limits, g, e);
    assert Run(limits, next, []) == next && PossibleRun(limits, next, []);
  }

  function Posts(room: RoomId, alias: Alias, n: nat): seq<Event> {
    seq(n, i => AgentPost(room, alias))
  }

  /** A run of passing posts changes the poster's counter and nothing else but counters. */
  lemma {:induction false} PostsOnlyCount(limits: Limits, g: Guard, room: RoomId, alias: Alias, n: nat)
    requires IsSafeSlug(room.text) && room !in g.pending && CountOf(g, room, alias) + n <= limits(room)
    ensures var posts := Posts(room, alias, n); var after := Run(limits, g, posts);
      && PossibleRun(limits, g, posts)
      && CountOf(after, room, alias) == CountOf(g, room, alias) + n
      && after == g.(counts := after.counts)
    decreases n
  {
    var posts := Posts(room, alias, n);
    if n > 0 {
      var next := Apply(limits, g, posts[0]);
      assert posts[1..] == Posts(room, alias, n - 1);
      assert CountOf(next, room, alias) == CountOf(g, room, alias) + 1 && next == g.(counts := next.counts);
      hide CountOf, Apply, IsSafeSlug;
      PostsOnlyCount(limits, next, room, alias, n - 1);
    }
  }

  /** An agent uses up its limit, posts once more and opens a cycle. */
  function Opening(limits: Limits, room: RoomId, alias: Alias): seq<Event> {
    Posts(room, alias, limits(room)) + ([AgentPost(room, alias)] + [OverflowRead(Overflow(room, alias), true)])
  }

  lemma OverflowOpens(limits: Limits, g: Guard, room: RoomId, alias: Alias)
    requires IsSafeSlug(room.text) && room !in g.pending && CountOf(g, room, alias) == limits(room)
    ensures var posted := Apply(limits, g, AgentPost(room, alias));
            var read := OverflowRead(Overflow(room, alias), true);
            var after := Apply(limits, posted, read);
      && Possible(posted, read)
      && after.pending == g.pending[room := Cycle(alias, g.nextTimer)]
      && after.armed == g.armed + {Timer(g.nextTimer, room, alias)}
      && after.completing == g.completing && after.nextTimer == g.nextTimer + 1
  {
    hide KeyOf, BelongsTo, Cleared, IsSafeSlug;
  }

  lemma OpeningOpens(limits: Limits, g: Guard, room: RoomId, alias: Alias)
    requires IsSafeSlug(room.text) && room !in g.pending && CountOf(g, room, alias) == 0
    ensures var after := Run(limits, g, Opening(limits, room, alias));
      && PossibleRun(limits, g, Opening(limits, room, alias))
      && after.pending == g.pending[room := Cycle(alias, g.nextTimer)]
      && after.armed == g.armed + {Timer(g.nextTimer, room, alias)}
      && after.completing == g.completing && after.nextTimer == g.nextTimer + 1
  {
    var post, read := AgentPost(room, alias), OverflowRead(Overflow(room, alias), true);
    PostsOnlyCount(limits, g, room, alias, limits(room));
    var full := Run(limits, g, Posts(room, alias, limits(room)));
    OverflowOpens(limits, full, room, alias);
    assert Possible(full, post);
    hide Apply, Run, PossibleRun, Possible, CountOf, IsSafeSlug, Posts;
    OneEvent(limits, full, post);
    OneEvent(limits, Apply(limits, full, post), read);
    RunConcat(limits, full, [post], [read]);
    RunConcat(limits, g, Posts(room, alias, limits(room)), [post] + [read]);
  }

  /** A slow completion: it fires, a human post cancels its cycle, and another agent opens the next one. */
  function SlowCompletion(limits: Limits, room: RoomId, first: Alias, second: Alias): seq<Event> {
    Opening(limits, room, first) + ([TimerFires(Timer(0, room, first))] + ([HumanPost(room)] + Opening(limits, room, second)))
  }

  /** The human post after the first timer fired: nothing pending, no counter left, and the timer still completing. */
  lemma HumanPostDuringRead(limits: Limits, g: Guard, t: Timer, alias: Alias)
    requires IsSafeSlug(t.room.text) && t in g.armed && t.room in g.pending
    ensures var fired := Apply(limits, g, TimerFires(t));
            var cleared := Apply(limits, fired, HumanPost(t.room));
      && Possible(g, TimerFires(t)) && Possible(fired, HumanPost(t.room))
      && t in cleared.completing && t.room !in cleared.pending && CountOf(cleared, t.room, alias) == 0
      && cleared.nextTimer == g.nextTimer
  {
    SlugsHaveNoSeparator(t.room.text);
    ClearingIsExact(g.counts, t.room, t.room, alias);
    hide KeyOf, BelongsTo, Cleared, IsSafeSlug;
  }

  /** Whatever the limit, a completion can end a newer cycle than its own, and its approval then names the wrong agent. */
  lemma StaleCompletionNamesTheWrongAlias(limits: Limits, room: RoomId, first: Alias, second: Alias)
    requires IsSafeSlug(room.text) && first != second
    ensures var late := Timer(0, room, first); var events := SlowCompletion(limits, room, first, second);
            var g := Run(limits, IDLE, events);
      && PossibleRun(limits, IDLE, events)
      && late in g.completing && Approves(g, late, Live)
      && g.pending[room].alias != late.alias
  {
    var late := Timer(0, room, first);
    assert CountOf(IDLE, room, first) == 0 && IDLE.nextTimer == 0 && room !in IDLE.pending;
    OpeningOpens(limits, IDLE, room, first);
    var waiting := Run(limits, IDLE, Opening(limits, room, first));
    HumanPostDuringRead(limits, waiting, late, second);
    var fired := Apply(limits, waiting, TimerFires(late));
    var cleared := Apply(limits, fired, HumanPost(room));
    OpeningOpens(limits, cleared, room, second);
    hide Apply, Run, PossibleRun, Possible, CountOf, IsSafeSlug, Opening;
    OneEvent(limits, waiting, TimerFires(late));
    OneEvent(limits, fired, HumanPost(room));
    RunConcat(limits, fired, [HumanPost(room)], Opening(limits, room, second));
    RunConcat(limits, waiting, [TimerFires(late)], [HumanPost(room)] + Opening(limits, room, second));
    RunConcat(limits, IDLE, Opening(limits, room, first),
              [TimerFires(late)] + ([HumanPost(room)] + Opening(limits, room, second)));
  }

  // ---- the module's maps ----

  class RoomGuards {
    var counts: map<Key, nat>
    var pending: map<RoomId, Cycle>
    var armed: set<Timer>
    var completing: set<Timer>
    var overflowing: multiset<Overflow>
    var nextTimer: nat
    var approved: map<RoomId, nat>

    ghost function State(): Guard
      reads this
    {
      Guard(counts, pending, armed, completing, overflowing, nextTimer, approved)
    }

    constructor ()
      ensures State() == IDLE
    {
      counts, pending, armed, completing, overflowing, nextTimer, approved := map[], map[], {}, {}, multiset{}, 0, map[];
    }

    method ClearRoomLoopCounts(room: RoomId)
      modifies `counts
      ensures counts == Cleared(old(counts), room)
    {
      var keys := counts.Keys;
      while keys != {}
        invariant keys <= counts.Keys <= old(counts).Keys
        invariant forall key :: key in old(counts) ==> (key in counts <==> key in keys || !BelongsTo(key, room))
        invariant forall key :: key in counts ==> counts[key] == old(counts)[key]
        decreases keys
      {
        var key :| key in keys;
        keys := keys - {key};
        if BelongsTo(key, room) { counts := counts - {key}; }
      }
    }

    method CancelPendingAutoContinue(room: RoomId)
      modifies `pending, `armed
      ensures State() == Cancelled(old(State()), room)
    {
      if room !in pending { return; }
      var timerId := pending[room].timerId;
      armed := set t | t in armed && t.id != timerId;
      pending := pending - {room};
    }

    method PostByHuman(room: RoomId)
      modifies this
      ensures State() == AfterHumanPost(old(State()), room)
    {
      ClearRoomLoopCounts(room);
      CancelPendingAutoContinue(room);
    }

    method PostByAgent(limit: nat, room: RoomId, alias: Alias) returns (verdict: Verdict)
      modifies this
      ensures verdict == VerdictOn(old(State()), limit, room, alias)
      ensures State() == AfterAgentPost(old(State()), limit, room, alias)
    {
      if room in pending { return Refused; }
      var key := KeyOf(room, alias);
      var next := (if key in counts then counts[key] else 0) + 1;
      counts := counts[key := next];
      if next <= limit { return Through; }
      overflowing := overflowing + multiset{Overflow(room, alias)};
      return Overflows;
    }

    method SchedulePendingAutoContinue(room: RoomId, alias: Alias)
      modifies `pending, `armed, `nextTimer
      ensures State() == Scheduled(old(State()), room, alias)
    {
      if room in pending { return; }
      armed := armed + {Timer(nextTimer, room, alias)};
      pending := pending[room := Cycle(alias, nextTimer)];
      nextTimer := nextTimer + 1;
    }

    method OverflowStateRead(o: Overflow, enabled: bool)
      modifies this
      ensures State() == AfterOverflowRead(old(State()), o, enabled)
    {
      overflowing := overflowing - multiset{o};
      if enabled { SchedulePendingAutoContinue(o.room, o.alias); }
    }

    method BeginCompletion(t: Timer)
      modifies this
      ensures State() == AfterTimerFires(old(State()), t)
    {
      armed := armed - {t};
      if t.room in pending { completing := completing + {t}; }
    }

    method CompletionStateRead(t: Timer, found: Found) returns (approval: Option<Alias>)
      modifies this
      ensures approval == if Approves(old(State()), t, found) then Some(t.alias) else None
      ensures State() == AfterCompletion(old(State()), t, found)
    {
      approval := None;
      completing := completing - {t};
      if found == Unreadable {
        CancelPendingAutoContinue(t.room);
        return;
      }
      if t.room !in pending { return; }
      if found == ClosedOrExpired {
        CancelPendingAutoContinue(t.room);
        return;
      }
      pending := pending - {t.room};
      ClearRoomLoopCounts(t.room);
      approved := approved[t.room := (if t.room in approved then approved[t.room] else 0) + 1];
      approval := Some(t.alias);
    }
  }
}
