/**
 The long poll: successive `/wait` turns of one participant (src/server/http.ts), the cursor each
 response hands to the next turn, and the hub that wakes sleeping requests (src/server/wait.ts).

 A turn awaits between its steps: read the room's status, read the log, register with the hub,
 sleep, and after waking both reads again. Appends, notifies and a close may land at every await.
 Some appends are followed by no notify: another process wrote the line, or the state write that
 follows it failed.
 */
module WaitStream {
  import opened Collections
  import opened LogReads
  import opened RoomStore

  // ---- turns ----

  datatype RoomStatus = Open | Closed

  datatype WaitResponse = WaitResponse(roomStatus: RoomStatus, heartbeat: bool, messages: seq<Message>, nextSinceId: nat, keepWaiting: bool)

  function BuildWaitResponse(status: RoomStatus, messages: seq<Message>, sinceId: nat, heartbeat: bool, keepWaiting: bool): WaitResponse {
    WaitResponse(status, heartbeat, messages, if messages == [] then sinceId else messages[|messages| - 1].id, keepWaiting)
  }

  /** Where a turn stands; `woken` marks the snapshot that follows the sleep. */
  datatype Phase = Between | ReadingStatus(woken: bool) | ReadingLog(woken: bool) | Registering | Sleeping | Over

  /** `owed` counts appends whose notify has not been sent yet. */
  datatype Stream = Stream(log: seq<Message>, status: RoomStatus, owed: nat, phase: Phase, since: nat, answers: seq<WaitResponse>)

  datatype Event = Append(m: Message) | AppendUnnotified(m: Message) | Notify | Close | StartTurn | ReadStatus | ReadLog | Register | HoldExpires

  ghost predicate Possible(s: Stream, e: Event) {
    match e
    case Append(m) => forall i :: 0 <= i < |s.log| ==> s.log[i].id < m.id
    case AppendUnnotified(m) => forall i :: 0 <= i < |s.log| ==> s.log[i].id < m.id
    case Notify => true
    case Close => true
    case StartTurn => s.phase == Between
    case ReadStatus => s.phase.ReadingStatus?
    case ReadLog => s.phase.ReadingLog?
    case Register => s.phase == Registering
    case HoldExpires => s.phase == Sleeping
  }

  function Answered(s: Stream, a: WaitResponse): Stream {
    s.(answers := s.answers + [a], since := a.nextSinceId, phase := if a.roomStatus == Closed then Over else Between)
  }

  /** The second half of `waitSnapshot`, and what the turn does when it found nothing. */
  function LogRead(s: Stream, woken: bool): Stream {
    var messages := Newer(s.log, s.since);
    if messages != [] then Answered(s, BuildWaitResponse(Open, messages, s.since, false, false))
    else if woken then Answered(s, BuildWaitResponse(Open, [], s.since, true, true))
    else s.(phase := Registering)
  }

  function Apply(s: Stream, e: Event): Stream {
    match e
    case Append(m) => s.(log := s.log + [m], owed := s.owed + 1)
    case AppendUnnotified(m) => s.(log := s.log + [m])
    case Notify => s.(owed := if s.owed > 0 then s.owed - 1 else 0, phase := if s.phase == Sleeping then ReadingStatus(true) else s.phase)
    case Close => s.(status := Closed)
    case StartTurn => s.(phase := ReadingStatus(false))
    case ReadStatus =>
      if !s.phase.ReadingStatus? then s
      else if s.status == Closed then Answered(s, BuildWaitResponse(Closed, [], s.since, false, false))
      else s.(phase := ReadingLog(s.phase.woken))
    case ReadLog => if s.phase.ReadingLog? then LogRead(s, s.phase.woken) else s
    case Register => s.(phase := Sleeping)
    case HoldExpires => s.(phase := ReadingStatus(true))
  }

  function Run(s: Stream, events: seq<Event>): Stream
    decreases |events|
  {
    if events == [] then s else Run(Apply(s, events[0]), events[1..])
  }

  ghost predicate PossibleRun(s: Stream, events: seq<Event>)
    decreases |events|
  {
    events != [] ==> Possible(s, events[0]) && PossibleRun(Apply(s, events[0]), events[1..])
  }

  function Start(log: seq<Message>, status: RoomStatus, since: nat): Stream {
    Stream(log, status, 0, Between, since, [])
  }

  /** Everything the responses carried, in the order they were sent. */
  function Delivered(answers: seq<WaitResponse>): seq<Message> {
    if answers == [] then [] else Delivered(answers[..|answers| - 1]) + answers[|answers| - 1].messages
  }

  // ---- the stream is the log ----

  /** Delivered so far, then what the cursor still leaves to deliver, is the log beyond the first cursor. */
  ghost predicate Exact(s: Stream, first: nat) {
    && Increasing(s.log)
    && first <= s.since
    && (s.since == first || exists i :: 0 <= i < |s.log| && s.log[i].id == s.since)
    && Newer(s.log, first) == Delivered(s.answers) + Newer(s.log, s.since)
  }

  lemma DeliveredSnoc(answers: seq<WaitResponse>, a: WaitResponse)
    ensures Delivered(answers + [a]) == Delivered(answers) + a.messages
  {
    assert (answers + [a])[..|answers|] == answers;
  }

  lemma AppendKeepsExact(s: Stream, first: nat, m: Message, owed: nat)
    requires Exact(s, first) && Possible(s, Append(m))
    ensures Exact(s.(log := s.log + [m], owed := owed), first)
  {
    hide Delivered;
    var log := s.log + [m];
    assert log[..|s.log|] == s.log && log[|s.log|] == m;
    assert s.since != first ==> exists i :: 0 <= i < |log| && log[i].id == s.since by {
      if s.since != first {
        var i :| 0 <= i < |s.log| && s.log[i].id == s.since;
        assert log[i].id == s.since;
      }
    }
    assert m.id > first ==> m.id > s.since;
  }

  lemma AnswerKeepsExact(s: Stream, first: nat)
    requires Exact(s, first) && Newer(s.log, s.since) != []
    ensures Exact(Answered(s, BuildWaitResponse(Open, Newer(s.log, s.since), s.since, false, false)), first)
  {
    hide Delivered;
    var p := SplitPoint(s.log, s.since + 1);
    NewerIsSuffix(s.log, s.since, p);
    var a := BuildWaitResponse(Open, s.log[p..], s.since, false, false);
    assert a.nextSinceId == s.log[|s.log| - 1].id;
    NewerIsSuffix(s.log, a.nextSinceId, |s.log|);
    DeliveredSnoc(s.answers, a);
  }

  lemma StepKeepsExact(s: Stream, first: nat, e: Event)
    requires Exact(s, first) && Possible(s, e)
    ensures Exact(Apply(s, e), first)
  {
    hide Newer, Delivered, Increasing;
    match e
    case Append(m) => AppendKeepsExact(s, first, m, s.owed + 1);
    case AppendUnnotified(m) => AppendKeepsExact(s, first, m, s.owed);
    case ReadLog =>
      if Newer(s.log, s.since) != [] { AnswerKeepsExact(s, first); }
      DeliveredSnoc(s.answers, BuildWaitResponse(Open, [], s.since, true, true));
    case ReadStatus => DeliveredSnoc(s.answers, BuildWaitResponse(Closed, [], s.since, false, false));
    case _ =>
  }

  lemma {:induction false} RunKeepsExact(s: Stream, first: nat, events: seq<Event>)
    requires Exact(s, first) && PossibleRun(s, events)
    ensures Exact(Run(s, events), first)
    decreases |events|
  {
    hide Exact, Apply;
    if events != [] {
      StepKeepsExact(s, first, events[0]);
      RunKeepsExact(Apply(s, events[0]), first, events[1..]);
    }
  }

  /**
   However turns, appends, notifies and a close interleave, the responses' messages concatenate to
   an initial part of the log after the first cursor, in order, without loss or repeat, and the
   next turn's cursor stands exactly at the rest.
   */
  lemma StreamIsTheLog(log: seq<Message>, status: RoomStatus, first: nat, events: seq<Event>)
    requires Increasing(log) && PossibleRun(Start(log, status, first), events)
    ensures var s := Run(Start(log, status, first), events);
            Newer(s.log, first) == Delivered(s.answers) + Newer(s.log, s.since)
  {
    assert Exact(Start(log, status, first), first) by {
      assert [] + Newer(log, first) == Newer(log, first);
    }
    RunKeepsExact(Start(log, status, first), first, events);
  }

  // ---- wakeups ----

  /** Asleep with something to deliver and no notify on its way. */
  predicate Stranded(s: Stream) {
    s.phase == Sleeping && Newer(s.log, s.since) != [] && s.owed == 0
  }

  /** One event more, and the state it leads to. */
  lemma Further(s: Stream, events: seq<Event>, e: Event, from: Stream, next: Stream)
    requires PossibleRun(s, events) && Run(s, events) == from && Possible(from, e) && Apply(from, e) == next
    ensures PossibleRun(s, events + [e]) && Run(s, events + [e]) == next
  {
    hide Apply, Possible;
    RunSnoc(s, events, e);
  }

  function Registered(): Stream {
    Start([], Open, 0).(phase := Registering)
  }

  const EMPTY_READ: seq<Event> := [StartTurn, ReadStatus, ReadLog]

  /** A turn on an empty room whose log read found nothing. */
  lemma EmptyRead()
    ensures PossibleRun(Start([], Open, 0), EMPTY_READ) && Run(Start([], Open, 0), EMPTY_READ) == Registered()
  {
    var s := Start([], Open, 0);
    var s1, s2, s3 := s.(phase := ReadingStatus(false)), s.(phase := ReadingLog(false)), Registered();
    assert Newer([], 0) == [];
    assert Apply(s, StartTurn) == s1 && Apply(s1, ReadStatus) == s2 && Apply(s2, ReadLog) == s3;
    assert Possible(s, StartTurn) && Possible(s1, ReadStatus) && Possible(s2, ReadLog);
    assert PossibleRun(s, []) && Run(s, []) == s;
    hide Apply, Run, PossibleRun, Possible;
    Further(s, [], StartTurn, s, s1);
    assert [] + [StartTurn] == [StartTurn];
    Further(s, [StartTurn], ReadStatus, s1, s2);
    Further(s, [StartTurn] + [ReadStatus], ReadLog, s2, s3);
    assert [StartTurn] + [ReadStatus] + [ReadLog] == EMPTY_READ;
  }

  lemma OneIsNewer(m: Message)
    requires m.id > 0
    ensures Newer([m], 0) == [m]
  {
    assert [m][..0] == [] && [] + [m] == [m];
  }

  lemma GapSteps(m: Message)
    requires m.id > 0
    ensures var s3 := Registered(); var s4 := s3.(log := [m], owed := 1); var s5 := s4.(owed := 0);
      && Possible(s3, Append(m)) && Apply(s3, Append(m)) == s4
      && Possible(s4, Notify) && Apply(s4, Notify) == s5
      && Possible(s5, Register) && Apply(s5, Register) == s5.(phase := Sleeping)
      && Stranded(s5.(phase := Sleeping))
  {
    OneIsNewer(m);
    assert [] + [m] == [m];
    hide Newer;
  }

  lemma LateSteps(m: Message)
    requires m.id > 0
    ensures var s3 := Registered(); var s4 := s3.(phase := Sleeping); var s5 := s4.(log := [m]);
      && Possible(s3, Register) && Apply(s3, Register) == s4
      && Possible(s4, AppendUnnotified(m)) && Apply(s4, AppendUnnotified(m)) == s5
      && Stranded(s5)
  {
    OneIsNewer(m);
    assert [] + [m] == [m];
    hide Newer;
  }

  /** The gap is real: an append and its notify between the first read and the registration strand the turn. */
  lemma NotifyInTheGapStrands(m: Message)
    requires m.id > 0
    ensures var events := EMPTY_READ + [Append(m)] + [Notify] + [Register];
      PossibleRun(Start([], Open, 0), events) && Stranded(Run(Start([], Open, 0), events))
  {
    hide Apply, Run, PossibleRun, Possible, Stranded;
    var s, s3 := Start([], Open, 0), Registered();
    var s4 := s3.(log := [m], owed := 1);
    var s5 := s4.(owed := 0);
    EmptyRead();
    GapSteps(m);
    Further(s, EMPTY_READ, Append(m), s3, s4);
    Further(s, EMPTY_READ + [Append(m)], Notify, s4, s5);
    Further(s, EMPTY_READ + [Append(m)] + [Notify], Register, s5, s5.(phase := Sleeping));
  }

  /** An append without a notify strands a turn that is already asleep. */
  lemma UnnotifiedAppendStrands(m: Message)
    requires m.id > 0
    ensures var events := EMPTY_READ + [Register] + [AppendUnnotified(m)];
      PossibleRun(Start([], Open, 0), events) && Stranded(Run(Start([], Open, 0), events))
  {
    hide Apply, Run, PossibleRun, Possible, Stranded;
    var s, s3 := Start([], Open, 0), Registered();
    var s4 := s3.(phase := Sleeping);
    EmptyRead();
    LateSteps(m);
    Further(s, EMPTY_READ, Register, s3, s4);
    Further(s, EMPTY_READ + [Register], AppendUnnotified(m), s4, s4.(log := [m]));
  }

  // A run is looked at from its end: the state before event `n` is what the first `n` events lead to.

  lemma {:induction false} RunSnoc(s: Stream, events: seq<Event>, e: Event)
    ensures Run(s, events + [e]) == Apply(Run(s, events), e)
    ensures PossibleRun(s, events + [e]) <==> PossibleRun(s, events) && Possible(Run(s, events), e)
    decreases |events|
  {
    hide Apply, Possible;
    var all := events + [e];
    if events == [] {
      assert all[0] == e && all[1..] == [];
    } else {
      assert all[0] == events[0] && all[1..] == events[1..] + [e];
      RunSnoc(Apply(s, events[0]), events[1..], e);
    }
  }

  /** The last of the events, taken from the state the others lead to. */
  lemma LastStep(s: Stream, events: seq<Event>) returns (front: seq<Event>, last: Event)
    requires events != [] && PossibleRun(s, events)
    ensures events == front + [last] && PossibleRun(s, front)
    ensures Possible(Run(s, front), last) && Run(s, events) == Apply(Run(s, front), last)
  {
    front, last := events[..|events| - 1], events[|events| - 1];
    assert events == front + [last];
    RunSnoc(s, front, last);
  }

  /** The event puts a message beyond the cursor `since` into the log, with or without a notify to follow. */
  predicate Brings(e: Event, since: nat) {
    (e.Append? || e.AppendUnnotified?) && e.m.id > since
  }

  /** Some event between `read` and the end of the run brings a message. */
  predicate BroughtSince(events: seq<Event>, read: nat, since: nat) {
    exists a :: read < a < |events| && Brings(events[a], since)
  }

  lemma BringingMakesNewer(s: Stream, e: Event)
    requires Possible(s, e) && (s.phase == Registering || s.phase == Sleeping) && Apply(s, e).since == s.since
    ensures Newer(Apply(s, e).log, s.since) != [] <==> Newer(s.log, s.since) != [] || Brings(e, s.since)
  {
    if e.Append? || e.AppendUnnotified? { assert (s.log + [e.m])[..|s.log|] == s.log; }
  }

  lemma BroughtSnoc(front: seq<Event>, last: Event, read: nat, since: nat)
    requires read < |front|
    ensures BroughtSince(front + [last], read, since) <==> BroughtSince(front, read, since) || Brings(last, since)
  {
    var events := front + [last];
    if a :| read < a < |front| && Brings(front[a], since) { assert Brings(events[a], since); }
    if Brings(last, since) { assert Brings(events[|front|], since); }
  }

  /** How a turn comes to register or sleep, looked at from its end. */
  lemma BeforeRegistering(s: Stream, e: Event)
    requires Possible(s, e) && Apply(s, e).phase == Registering
    ensures (e == ReadLog && Newer(Apply(s, e).log, Apply(s, e).since) == [])
         || (s.phase == Registering && e != ReadLog && Apply(s, e).since == s.since)
  {
  }

  lemma BeforeSleeping(s: Stream, e: Event)
    requires Possible(s, e) && Apply(s, e).phase == Sleeping
    ensures Apply(s, e).since == s.since && e != ReadLog && e != Notify && e != HoldExpires
    ensures if e == Register then s.phase == Registering else s.phase == Sleeping
  {
  }

  /** A registering turn's last log read found nothing, so what is undelivered was brought since. */
  lemma {:induction false} RegisteringStory(s: Stream, events: seq<Event>) returns (read: nat)
    requires s.phase == Between && PossibleRun(s, events) && Run(s, events).phase == Registering
    ensures read < |events| && events[read] == ReadLog
    ensures forall k :: read < k < |events| ==> events[k] != ReadLog
    ensures var end := Run(s, events); Newer(end.log, end.since) != [] <==> BroughtSince(events, read, end.since)
    decreases |events|
  {
    assert events != [];
    var front, last := LastStep(s, events);
    var before := Run(s, front);
    BeforeRegistering(before, last);
    hide Apply, Possible, Newer;
    if before.phase == Registering && last != ReadLog {
      read := RegisteringStory(s, front);
      BringingMakesNewer(before, last);
      BroughtSnoc(front, last, read, before.since);
    } else {
      read := |front|;
    }
  }

  /** A sleeping turn's read and registration, and that nothing has woken it since. */
  lemma {:induction false} SleepingStory(s: Stream, events: seq<Event>) returns (read: nat, registered: nat)
    requires s.phase == Between && PossibleRun(s, events) && Run(s, events).phase == Sleeping
    ensures read < registered < |events| && events[read] == ReadLog && events[registered] == Register
    ensures forall k :: read < k < |events| ==> events[k] != ReadLog
    ensures forall k :: registered < k < |events| ==> events[k] != Notify && events[k] != HoldExpires
    ensures var end := Run(s, events); Newer(end.log, end.since) != [] <==> BroughtSince(events, read, end.since)
    decreases |events|
  {
    assert events != [];
    var front, last := LastStep(s, events);
    var before := Run(s, front);
    BeforeSleeping(before, last);
    hide Apply, Possible, Newer, BroughtSince;
    BringingMakesNewer(before, last);
    if last == Register {
      read := RegisteringStory(s, front);
      registered := |front|;
    } else {
      read, registered := SleepingStory(s, front);
    }
    BroughtSnoc(front, last, read, before.since);
  }

  /** Nothing owed at the end means that each owed notify was sent after its append. */
  lemma {:induction false} NotifiedAfter(s: Stream, events: seq<Event>, appended: nat) returns (notified: nat)
    requires PossibleRun(s, events) && appended < |events| && events[appended].Append? && Run(s, events).owed == 0
    ensures appended < notified < |events| && events[notified] == Notify
    decreases |events|
  {
    var front, last := LastStep(s, events);
    if last == Notify && appended < |front| {
      notified := |front|;
    } else {
      assert Run(s, front).owed == 0 && !last.Append?;
      notified := NotifiedAfter(s, front, appended);
    }
  }

  /**
   What a sleeping turn misses, in every run: it sleeps on something undelivered exactly if some
   message was brought after its log read, and so, with no notify outstanding, it is stranded
   exactly then. Each such message came without a notify, or its notify was sent before the
   turn had registered.
   */
  lemma StrandedExactly(s: Stream, events: seq<Event>) returns (read: nat, registered: nat)
    requires s.phase == Between && PossibleRun(s, events) && Run(s, events).phase == Sleeping
    ensures read < registered < |events| && events[read] == ReadLog && events[registered] == Register
    ensures forall k :: read < k < |events| ==> events[k] != ReadLog
    ensures Newer(Run(s, events).log, Run(s, events).since) != [] <==> BroughtSince(events, read, Run(s, events).since)
    ensures Run(s, events).owed == 0 ==> (Stranded(Run(s, events)) <==> BroughtSince(events, read, Run(s, events).since))
    ensures Stranded(Run(s, events)) ==>
      forall a :: read < a < |events| && events[a].Append? ==> exists n :: a < n < registered && events[n] == Notify
  {
    read, registered := SleepingStory(s, events);
    hide Run, PossibleRun, BroughtSince;
    if Run(s, events).owed == 0 {
      forall a | read < a < |events| && events[a].Append? ensures exists n :: a < n < registered && events[n] == Notify {
        var n := NotifiedAfter(s, events, a);
        assert n < registered;
      }
    }
  }

  /** A turn whose room only ever has notified appends is stranded by the gap alone: none after it registered. */
  lemma NotifiedAppendsStrandInTheGapOnly(s: Stream, events: seq<Event>) returns (read: nat, registered: nat)
    requires s.phase == Between && PossibleRun(s, events) && Stranded(Run(s, events))
    requires forall e :: e in events ==> !e.AppendUnnotified?
    ensures read < registered < |events| && events[read] == ReadLog && events[registered] == Register
    ensures forall k :: registered < k < |events| ==> !Brings(events[k], Run(s, events).since)
    ensures exists a, n :: read < a < n < registered && Brings(events[a], Run(s, events).since) && events[n] == Notify
  {
    read, registered := StrandedExactly(s, events);
    var since := Run(s, events).since;
    hide Run, PossibleRun;
    var a :| read < a < |events| && Brings(events[a], since);
    var n :| a < n < registered && events[n] == Notify;
    forall k | registered < k < |events| ensures !Brings(events[k], since) {
      assert events[k] in events;
    }
  }

  /** Whatever wakes a sleeper, its second reads answer the turn with everything undelivered, or a heartbeat. */
  lemma WakingAnswersTheTurn(s: Stream, e: Event)
    requires s.phase == Sleeping && (e == HoldExpires || e == Notify)
    ensures var done := Apply(Apply(Apply(s, e), ReadStatus), ReadLog);
      && |done.answers| == |s.answers| + 1
      && var a := done.answers[|s.answers|];
      && (s.status == Closed <==> a.roomStatus == Closed)
      && (s.status == Open ==> a.messages == Newer(s.log, s.since) && (a.heartbeat <==> a.messages == []))
  {
  }

  /** What a response says, given the cursor its turn started from. */
  predicate Fits(a: WaitResponse, since: nat) {
    && (if a.messages == [] then a.nextSinceId == since else a.nextSinceId == a.messages[|a.messages| - 1].id > since)
    && (a.heartbeat <==> a.messages == [] && a.roomStatus == Open)
    && (a.keepWaiting <==> a.heartbeat)
    && (a.roomStatus == Closed ==> a.messages == [])
  }

  function CursorAfter(answers: seq<WaitResponse>, first: nat): nat {
    if answers == [] then first else answers[|answers| - 1].nextSinceId
  }

  predicate Ended(answers: seq<WaitResponse>) {
    answers != [] && answers[|answers| - 1].roomStatus == Closed
  }

  /** Each response fits the cursor its predecessor left, and none follows a closed one. */
  predicate Chain(answers: seq<WaitResponse>, first: nat) {
    answers != [] ==>
      var front := answers[..|answers| - 1];
      Chain(front, first) && Fits(answers[|answers| - 1], CursorAfter(front, first)) && !Ended(front)
  }

  ghost predicate Chained(s: Stream, first: nat) {
    Chain(s.answers, first) && s.since == CursorAfter(s.answers, first) && (s.phase == Over <==> Ended(s.answers))
  }

  lemma AnswerKeepsChained(s: Stream, first: nat, a: WaitResponse)
    requires Chained(s, first) && s.phase != Over && Fits(a, s.since)
    ensures Chained(Answered(s, a), first)
  {
    hide Fits;
    assert (s.answers + [a])[..|s.answers|] == s.answers;
  }

  lemma StepKeepsChained(s: Stream, first: nat, e: Event)
    requires Chained(s, first) && Possible(s, e)
    ensures Chained(Apply(s, e), first)
  {
    hide Newer, Chain, Ended, CursorAfter;
    match e
    case ReadLog =>
      var messages := Newer(s.log, s.since);
      NewerIsNewer(s.log, s.since);
      assert messages != [] ==> messages[|messages| - 1] in messages;
      if messages != [] {
        AnswerKeepsChained(s, first, BuildWaitResponse(Open, messages, s.since, false, false));
      } else if s.phase.woken {
        AnswerKeepsChained(s, first, BuildWaitResponse(Open, [], s.since, true, true));
      }
    case ReadStatus =>
      if s.status == Closed { AnswerKeepsChained(s, first, BuildWaitResponse(Closed, [], s.since, false, false)); }
    case _ =>
  }

  /**
   Over every run each response's cursor is its last message's id, or the one its turn started
   from; it never goes back; an empty response keeps the caller waiting exactly when the room is
   open; and a closed one is the last.
   */
  lemma {:induction false} ResponsesAreChained(s: Stream, first: nat, events: seq<Event>)
    requires Chained(s, first) && PossibleRun(s, events)
    ensures Chained(Run(s, events), first)
    decreases |events|
  {
    hide Chained, Apply, Possible;
    if events != [] {
      StepKeepsChained(s, first, events[0]);
      ResponsesAreChained(Apply(s, events[0]), first, events[1..]);
    }
  }

  lemma ClosedStepDeliversNothing(s: Stream, e: Event)
    requires s.status == Closed && !s.phase.ReadingLog? && Possible(s, e)
    ensures var t := Apply(s, e);
      t.status == Closed && !t.phase.ReadingLog? && Delivered(t.answers) == Delivered(s.answers)
  {
    DeliveredSnoc(s.answers, BuildWaitResponse(Closed, [], s.since, false, false));
    hide Delivered, Newer;
  }

  /** Once the room is closed no response carries messages, delivered or not. */
  lemma {:induction false} ClosedRoomDeliversNothing(s: Stream, events: seq<Event>)
    requires s.status == Closed && !s.phase.ReadingLog? && PossibleRun(s, events)
    ensures Delivered(Run(s, events).answers) == Delivered(s.answers)
    decreases |events|
  {
    hide Delivered, Newer;
    if events != [] {
      ClosedStepDeliversNothing(s, events[0]);
      hide Apply;
      ClosedRoomDeliversNothing(Apply(s, events[0]), events[1..]);
    }
  }

  // ---- the hub ----

  datatype RoomId = RoomId(text: string)

  /** One sleeping request: its `done` closure. */
  datatype Waiter = Waiter(id: nat)

  /** Rooms to their sleeping requests, in the order they went to sleep. */
  type Sleepers = map<RoomId, seq<Waiter>>

  function SleepersOf(hub: Sleepers, room: RoomId): seq<Waiter> {
    if room in hub then hub[room] else []
  }

  /** Calling `done`: the waiter leaves its set, and an emptied set leaves the map. */
  function Without(hub: Sleepers, room: RoomId, w: Waiter): Sleepers {
    var rest := RemoveFirst(SleepersOf(hub, room), w);
    if rest == [] then hub - {room} else hub[room := rest]
  }

  function With(hub: Sleepers, room: RoomId, w: Waiter): Sleepers {
    var sleepers := SleepersOf(hub, room);
    hub[room := if w in sleepers then sleepers else sleepers + [w]]
  }

  /** No empty set is kept, and no waiter sleeps twice in a room. */
  ghost predicate Tidy(hub: Sleepers) {
    forall room :: room in hub ==> hub[room] != [] && NoDuplicates(hub[room])
  }

  lemma WithoutKeepsTidy(hub: Sleepers, room: RoomId, w: Waiter)
    requires Tidy(hub)
    ensures Tidy(Without(hub, room, w))
    ensures forall other :: other != room ==> SleepersOf(Without(hub, room, w), other) == SleepersOf(hub, other)
    ensures SleepersOf(Without(hub, room, w), room) == RemoveFirst(SleepersOf(hub, room), w)
  {
    hide IndexOf;
    RemoveFirstKeepsDistinct(SleepersOf(hub, room), w);
  }

  lemma NobodySleeps(hub: Sleepers, room: RoomId)
    requires Tidy(hub) && SleepersOf(hub, room) == []
    ensures room !in hub
  {
  }

  /** While a room is being woken: the rest of its sleepers still sleep, and every other room's. */
  ghost predicate StillAsleep(hub: Sleepers, before: Sleepers, room: RoomId, rest: seq<Waiter>) {
    && Tidy(hub) && SleepersOf(hub, room) == rest
    && forall other :: other != room ==> SleepersOf(hub, other) == SleepersOf(before, other)
  }

  lemma WakingTheNext(hub: Sleepers, before: Sleepers, room: RoomId, all: seq<Waiter>, i: nat)
    requires i < |all| && StillAsleep(hub, before, room, all[i..])
    ensures StillAsleep(Without(hub, room, all[i]), before, room, all[i + 1..])
  {
    WithoutKeepsTidy(hub, room, all[i]);
    FirstOccurrence(all[i..], all[i], 0);
    assert RemoveFirst(all[i..], all[i]) == all[i + 1..];
    hide Tidy, Without, RemoveFirst, SleepersOf;
  }

  lemma AllAwake(hub: Sleepers, before: Sleepers, room: RoomId)
    requires StillAsleep(hub, before, room, [])
    ensures room !in hub
  {
    NobodySleeps(hub, room);
  }

  class WaitHub {
    var waiters: Sleepers

    constructor ()
      ensures waiters == map[]
    {
      waiters := map[];
    }

    method Wait(room: RoomId, w: Waiter)
      requires Tidy(waiters)
      modifies this
      ensures waiters == With(old(waiters), room, w) && Tidy(waiters)
    {
      var sleepers := if room in waiters then waiters[room] else [];
      if w !in sleepers { sleepers := sleepers + [w]; }
      waiters := waiters[room := sleepers];
    }

    method Done(room: RoomId, w: Waiter)
      requires Tidy(waiters)
      modifies this
      ensures waiters == Without(old(waiters), room, w) && Tidy(waiters)
    {
      WithoutKeepsTidy(waiters, room, w);
      var rest := RemoveFirst(if room in waiters then waiters[room] else [], w);
      if rest == [] { waiters := waiters - {room}; } else { waiters := waiters[room := rest]; }
    }

    /** Wakes exactly the room's sleepers, each once, and touches no other room. */
    method Notify(room: RoomId) returns (woken: seq<Waiter>)
      requires Tidy(waiters)
      modifies this
      ensures woken == SleepersOf(old(waiters), room)
      ensures room !in waiters && Tidy(waiters)
      ensures forall other :: other != room ==> SleepersOf(waiters, other) == SleepersOf(old(waiters), other)
    {
      woken := [];
      if room !in waiters { return; }
      ghost var hub := waiters;
      var copy := waiters[room];
      assert copy[0..] == copy && StillAsleep(hub, hub, room, copy);
      for i := 0 to |copy|
        invariant woken == copy[..i] && StillAsleep(waiters, hub, room, copy[i..])
      {
        WakingTheNext(waiters, hub, room, copy, i);
        Done(room, copy[i]);
        woken := woken + [copy[i]];
      }
      assert copy[|copy|..] == [] && copy[..|copy|] == copy;
      AllAwake(waiters, hub, room);
    }
  }
}
