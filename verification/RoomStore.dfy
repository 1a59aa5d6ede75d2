/**
 The room's message log and its id counter (src/storage/room-store.ts). Every operation
 runs alone, under the room's writer lock; a process can crash after the log line was
 appended and before the state file was replaced.
 */
module RoomStore {
  import opened Collections

  datatype Alias = Alias(text: string)
  datatype ClientId = ClientId(text: string)

  datatype Message = Message(id: nat, from: Alias, clientId: Option<ClientId>, body: string)

  /** `messages.jsonl` and the `next_message_id` of `state.json`. */
  datatype Room = Room(log: seq<Message>, nextMessageId: nat)

  datatype AppendResult = Appended(message: Message) | Idempotent(message: Message) | LogFull | Crashed

  const SYSTEM := Alias("system")

  predicate IsRetryOf(m: Message, from: Alias, clientId: ClientId) {
    m.from == from && m.clientId == Some(clientId)
  }

  /** `messages.find`: the first logged message with this sender and client id. */
  function FirstOf(log: seq<Message>, from: Alias, clientId: ClientId): (found: Option<Message>)
    ensures found.Some? ==> found.value in log && IsRetryOf(found.value, from, clientId)
    ensures found.None? <==> forall m :: m in log ==> !IsRetryOf(m, from, clientId)
  {
    if log == [] then None
    else if IsRetryOf(log[0], from, clientId) then Some(log[0])
    else
      assert forall m :: m in log ==> m == log[0] || m in log[1..];
      FirstOf(log[1..], from, clientId)
  }

  /** Log line first, state second; `crash` stops between the two. */
  function Logged(room: Room, m: Message, crash: bool): Room {
    Room(room.log + [m], if crash then room.nextMessageId else m.id + 1)
  }

  function Append(room: Room, from: Alias, clientId: Option<ClientId>, body: string, maxMessages: Option<nat>, crash: bool): (Room, AppendResult) {
    var existing := if clientId.Some? then FirstOf(room.log, from, clientId.value) else None;
    if existing.Some? then (room, Idempotent(existing.value))
    else if maxMessages.Some? && |room.log| >= maxMessages.value then (room, LogFull)
    else
      var m := Message(room.nextMessageId, from, clientId, body);
      (Logged(room, m, crash), if crash then Crashed else Appended(m))
  }

  function AppendServer(room: Room, body: string, crash: bool): Room {
    Logged(room, Message(room.nextMessageId, SYSTEM, None, body), crash)
  }

  function Highest(log: seq<Message>): (h: nat)
    ensures forall m :: m in log ==> m.id <= h
    ensures h == 0 || exists m :: m in log && m.id == h
  {
    if log == [] then 0
    else
      var front, last := log[..|log| - 1], log[|log| - 1];
      assert log == front + [last];
      var h := Highest(front);
      if last.id > h then last.id else h
  }

  function RecoveredNextId(log: seq<Message>): nat {
    Highest(log) + 1
  }

  function Recover(room: Room): Room {
    if room.nextMessageId >= RecoveredNextId(room.log) then room else room.(nextMessageId := RecoveredNextId(room.log))
  }

  // ---- runs ----

  /** `RewriteState` is any other state edit: it writes back the counter it read. */
  datatype Event =
    | Post(from: Alias, clientId: Option<ClientId>, body: string, maxMessages: Option<nat>, crash: bool)
    | ServerPost(body: string, crash: bool)
    | RecoverState
    | RewriteState

  function Apply(room: Room, e: Event): Room {
    match e
    case Post(from, clientId, body, maxMessages, crash) => Append(room, from, clientId, body, maxMessages, crash).0
    case ServerPost(body, crash) => AppendServer(room, body, crash)
    case RecoverState => Recover(room)
    case RewriteState => room
  }

  function Run(room: Room, events: seq<Event>): Room
    decreases |events|
  {
    if events == [] then room else Run(Apply(room, events[0]), events[1..])
  }

  ghost predicate Increasing(log: seq<Message>) {
    forall i, j :: 0 <= i < j < |log| ==> log[i].id < log[j].id
  }

  /** The counter has fallen behind the log: exactly when recovery would change it. */
  predicate Dirty(room: Room) {
    room.nextMessageId < RecoveredNextId(room.log)
  }

  /** The event adds a log line while the counter is behind. */
  predicate AppendsDirty(room: Room, e: Event) {
    Dirty(room) && Apply(room, e).log != room.log
  }

  predicate NeverAppendsDirty(room: Room, events: seq<Event>)
    decreases |events|
  {
    events != [] ==> !AppendsDirty(room, events[0]) && NeverAppendsDirty(Apply(room, events[0]), events[1..])
  }

  const CREATED := Room([], 1)

  // ---- append-only, whatever happens ----

  lemma {:induction false} LogOnlyGrows(room: Room, events: seq<Event>)
    ensures room.log <= Run(room, events).log
    decreases |events|
  {
    if events != [] { LogOnlyGrows(Apply(room, events[0]), events[1..]); }
  }

  // ---- ids ----

  lemma {:induction false} HighestOfIncreasing(log: seq<Message>)
    requires Increasing(log) && log != []
    ensures Highest(log) == log[|log| - 1].id
  {
    if |log| > 1 { HighestOfIncreasing(log[..|log| - 1]); }
  }

  /** A logged line keeps ids increasing exactly when the counter was not behind. */
  lemma LoggingExactly(room: Room, m: Message, crash: bool)
    requires Increasing(room.log) && m.id == room.nextMessageId
    ensures Increasing(Logged(room, m, crash).log) <==> (!Dirty(room) || room.log == [])
    ensures !Dirty(room) && !crash ==> !Dirty(Logged(room, m, crash))
  {
    var next := Logged(room, m, crash);
    assert next.log[|room.log|] == m;
    assert forall i :: 0 <= i < |room.log| ==> next.log[i] == room.log[i];
    if room.log != [] {
      HighestOfIncreasing(room.log);
      assert next.log[|room.log| - 1] == room.log[|room.log| - 1];
    }
    if Increasing(next.log) { HighestOfIncreasing(next.log); }
  }

  lemma NotIncreasingStays(a: seq<Message>, b: seq<Message>)
    requires a <= b && Increasing(b)
    ensures Increasing(a)
  {
  }

  /** An empty log is never dirty once the counter is at least one. */
  ghost predicate Started(room: Room) {
    room.nextMessageId >= 1
  }

  /**
   Ids stay strictly increasing over a run, crashes included, exactly when no line is ever
   appended while the counter is behind the log. `appendMessageResult` and
   `appendServerMessage` do not recover by themselves: after a crash the next append repeats
   an id unless `recoverRoomState` ran in between.
   */
  lemma {:induction false} IncreasingExactly(room: Room, events: seq<Event>)
    requires Started(room) && Increasing(room.log)
    ensures Increasing(Run(room, events).log) <==> NeverAppendsDirty(room, events)
    decreases |events|
  {
    if events != [] {
      var next := Apply(room, events[0]);
      if next.log != room.log {
        LoggingExactly(room, next.log[|room.log|], events[0].crash);
        assert next.log == room.log + [next.log[|room.log|]];
      }
      LogOnlyGrows(next, events[1..]);
      if AppendsDirty(room, events[0]) {
        assert room.log != [];
        if Increasing(Run(room, events).log) { NotIncreasingStays(next.log, Run(room, events).log); }
      } else {
        IncreasingExactly(next, events[1..]);
      }
    }
  }

  /** A concrete run that repeats an id: crash after the log line, then post again. */
  lemma CrashThenPostRepeatsAnId()
    ensures var events := [Post(Alias("a"), None, "x", None, true), Post(Alias("a"), None, "y", None, false)];
            var log := Run(CREATED, events).log;
            |log| == 2 && log[0].id == 1 && log[1].id == 1
  {
    var first, second := Post(Alias("a"), None, "x", None, true), Post(Alias("a"), None, "y", None, false);
    var events := [first, second];
    assert events[1..] == [second] && [second][1..] == [];
    var r1 := Apply(CREATED, first);
    var r2 := Apply(r1, second);
    assert Run(r1, [second]) == r2;
    assert Run(CREATED, events) == r2;
  }

  /** Recovery runs before the next append after every crash. */
  predicate RecoversAfterCrashes(events: seq<Event>) {
    forall i :: 0 <= i < |events| - 1 && Crashes(events[i]) ==> events[i + 1].RecoverState?
  }

  predicate Crashes(e: Event) {
    (e.Post? || e.ServerPost?) && e.crash
  }

  lemma StepIncreases(room: Room, e: Event)
    requires Started(room) && Increasing(room.log) && (Dirty(room) ==> e.RecoverState?)
    ensures var next := Apply(room, e);
            Started(next) && Increasing(next.log) && (!Crashes(e) ==> !Dirty(next))
  {
    var next := Apply(room, e);
    hide Increasing, FirstOf;
    if next.log != room.log {
      var m := next.log[|room.log|];
      assert next == Logged(room, m, e.crash);
      LoggingExactly(room, m, e.crash);
    }
  }

  /** With recovery after every crash, ids strictly increase and stay below the counter. */
  lemma {:induction false} RecoveredRunsIncrease(room: Room, events: seq<Event>)
    requires Started(room) && Increasing(room.log) && RecoversAfterCrashes(events)
    requires Dirty(room) ==> events != [] && events[0].RecoverState?
    requires events != [] ==> !Crashes(events[|events| - 1])
    ensures var last := Run(room, events);
            Increasing(last.log) && !Dirty(last) && (forall m :: m in last.log ==> m.id < last.nextMessageId)
    decreases |events|
  {
    if events != [] {
      StepIncreases(room, events[0]);
      hide Increasing, Dirty, Apply;
      var rest := events[1..];
      assert forall i :: 0 <= i < |rest| ==> rest[i] == events[i + 1];
      assert rest != [] ==> rest[|rest| - 1] == events[|events| - 1];
      assert Crashes(events[0]) ==> |events| > 1 && events[0 + 1].RecoverState?;
      RecoveredRunsIncrease(Apply(room, events[0]), rest);
    }
  }

  // ---- retries ----

  /** At most one logged message per sender and client id. */
  ghost predicate OncePerClientId(log: seq<Message>) {
    forall i, j :: 0 <= i < j < |log| && log[i].clientId.Some? && log[i].clientId == log[j].clientId ==> log[i].from != log[j].from
  }

  /** Holds over every run, recovered or not: a retry can never add a second line. */
  lemma {:induction false} RetriesNeverRepeat(room: Room, events: seq<Event>)
    requires OncePerClientId(room.log)
    ensures OncePerClientId(Run(room, events).log)
    decreases |events|
  {
    if events != [] {
      var next := Apply(room, events[0]);
      if next.log != room.log {
        var m := next.log[|room.log|];
        assert next.log == room.log + [m];
        forall i | 0 <= i < |room.log| && room.log[i].clientId.Some? && room.log[i].clientId == m.clientId
          ensures room.log[i].from != m.from
        {
          assert room.log[i] in room.log;
          assert !IsRetryOf(room.log[i], m.from, m.clientId.value);
        }
      }
      RetriesNeverRepeat(next, events[1..]);
    }
  }

  lemma {:induction false} FirstStaysFirst(log: seq<Message>, more: seq<Message>, from: Alias, clientId: ClientId)
    requires log <= more && FirstOf(log, from, clientId).Some?
    ensures FirstOf(more, from, clientId) == FirstOf(log, from, clientId)
  {
    if !IsRetryOf(log[0], from, clientId) {
      FirstStaysFirst(log[1..], more[1..], from, clientId);
    }
  }

  /**
   Once a line carries a sender's client id, every later post with it, after any events and
   under any log limit, is answered with that original message and changes nothing. This
   includes the line of a post whose process crashed before it could answer.
   */
  lemma RetryReturnsOriginal(room: Room, e: Event, between: seq<Event>, body: string, maxMessages: Option<nat>, crash: bool)
    requires e.Post? && e.clientId.Some? && Append(room, e.from, e.clientId, e.body, e.maxMessages, e.crash).1 != LogFull
    ensures var after := Run(Apply(room, e), between);
            var original := FirstOf(Apply(room, e).log, e.from, e.clientId.value);
            && original.Some?
            && Append(after, e.from, e.clientId, body, maxMessages, crash) == (after, Idempotent(original.value))
            && (Append(room, e.from, e.clientId, e.body, e.maxMessages, e.crash).1.Appended? ==>
                  original.value == Append(room, e.from, e.clientId, e.body, e.maxMessages, e.crash).1.message)
  {
    var next := Apply(room, e);
    var existing := FirstOf(room.log, e.from, e.clientId.value);
    if existing.None? {
      var m := next.log[|room.log|];
      assert next.log == room.log + [m] && m in next.log && IsRetryOf(m, e.from, e.clientId.value);
      var found := FirstOf(next.log, e.from, e.clientId.value).value;
      assert found in room.log || found == m;
    }
    LogOnlyGrows(next, between);
    FirstStaysFirst(next.log, Run(next, between).log, e.from, e.clientId.value);
  }

  // ---- the mutable store ----

  class MessageStore {
    var log: seq<Message>
    var nextMessageId: nat

    function State(): Room
      reads this
    {
      Room(log, nextMessageId)
    }

    constructor ()
      ensures State() == CREATED
    {
      log, nextMessageId := [], 1;
    }

    method AppendMessageResult(from: Alias, clientId: Option<ClientId>, body: string, maxMessages: Option<nat>, crash: bool)
      returns (result: AppendResult)
      modifies this
      ensures (State(), result) == Append(old(State()), from, clientId, body, maxMessages, crash)
    {
      if clientId.Some? {
        var i := 0;
        while i < |log|
          invariant 0 <= i <= |log| && State() == old(State())
          invariant FirstOf(log, from, clientId.value) == FirstOf(log[i..], from, clientId.value)
        {
          if IsRetryOf(log[i], from, clientId.value) { return Idempotent(log[i]); }
          i := i + 1;
        }
      }
      if maxMessages.Some? && |log| >= maxMessages.value { return LogFull; }
      var m := Message(nextMessageId, from, clientId, body);
      log := log + [m];
      if crash { return Crashed; }
      nextMessageId := m.id + 1;
      return Appended(m);
    }

    method AppendServerMessage(body: string, crash: bool)
      modifies this
      ensures State() == AppendServer(old(State()), body, crash)
    {
      var m := Message(nextMessageId, SYSTEM, None, body);
      log := log + [m];
      if !crash { nextMessageId := m.id + 1; }
    }

    static lemma NoneIsHighest()
      ensures Highest([]) == 0
    {
    }

    static lemma HighestOfOneMore(log: seq<Message>, i: nat)
      requires i < |log|
      ensures Highest(log[..i + 1]) == if log[i].id > Highest(log[..i]) then log[i].id else Highest(log[..i])
    {
      assert log[..i + 1][..i] == log[..i] && log[..i + 1][i] == log[i];
    }

    method RecoverRoomState()
      modifies this
      ensures State() == Recover(old(State()))
    {
      hide Highest;
      var highest, i := 0, 0;
      assert Highest(log[..0]) == 0 by { NoneIsHighest(); assert log[..0] == []; }
      while i < |log|
        invariant 0 <= i <= |log| && highest == Highest(log[..i]) && State() == old(State())
      {
        HighestOfOneMore(log, i);
        if log[i].id > highest { highest := log[i].id; }
        i := i + 1;
      }
      assert log[..i] == log;
      if nextMessageId >= highest + 1 { return; }
      nextMessageId := highest + 1;
    }
  }
}
