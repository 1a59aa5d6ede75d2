/**
 The reading protocol of a room: the `/messages` endpoint (src/server/http.ts) and the
 browser client that stitches a newest page, older pages and live polls into one view
 (src/browser/room.js).

 A fetch is three steps: the client sends it, the host answers it from the log of that
 moment, the client receives the answer. Polls, "earlier" loads, sends and host appends
 interleave between those steps.
 */
module RoomClient {
  import opened Collections
  import opened LogReads
  import opened RoomStore

  const PAGE_SIZE := 50
  const NEWEST_PAGE_BEFORE_ID := 9_007_199_254_740_991

  // ---- the client ----

  datatype Fetch = Quiet | Sent(request: Request) | Answered(request: Request, answer: Answer)

  datatype Earlier = Earlier(oldestId: nat, hasMore: bool, loaded: nat, failed: bool)

  datatype Client = Client(
    cursor: nat, seen: set<nat>, rows: seq<Message>,
    earlier: Earlier, controlMounted: bool, entryPageLoaded: bool,
    backupCursor: nat, seedUnverified: bool,
    poll: Fetch, verifying: bool,   // at most one poll or head check at a time
    earlierFetch: Fetch)

  const NO_EARLIER := Earlier(0, false, 0, false)
  const FRESH := Client(0, {}, [], NO_EARLIER, false, false, 0, false, Quiet, false, Quiet)

  datatype System = System(log: seq<Message>, client: Client)

  function Advanced(cursor: nat, id: nat): nat {
    if id > cursor then id else cursor
  }

  function Ids(batch: seq<Message>): set<nat> {
    set i | 0 <= i < |batch| :: batch[i].id
  }

  /** What the loop over a batch renders: each message whose id was not seen, in batch order. */
  function Fresh(seen: set<nat>, batch: seq<Message>): seq<Message>
    decreases |batch|
  {
    if batch == [] then []
    else
      var front, last := batch[..|batch| - 1], batch[|batch| - 1];
      if last.id in seen + Ids(front) then Fresh(seen, front) else Fresh(seen, front) + [last]
  }

  predicate ColdEntry(c: Client) {
    !c.entryPageLoaded && c.cursor == 0 && c.seen == {}
  }

  function PollRequest(c: Client): Request {
    if ColdEntry(c) then Before(NEWEST_PAGE_BEFORE_ID, PAGE_SIZE) else Since(c.cursor)
  }

  /** Rendering a poll's batch at the bottom of the view. */
  function Rendered(c: Client, batch: seq<Message>): Client {
    c.(rows := c.rows + Fresh(c.seen, batch), seen := c.seen + Ids(batch), entryPageLoaded := true)
  }

  /** A cold entry takes its cursor and its "earlier" state from the page; a poll only moves the cursor. */
  function Moved(c: Client, request: Request, answer: Answer): Client {
    var batch := answer.messages;
    if request.Before? then
      var hasMore := answer.Backward? && answer.hasMoreBefore;
      c.(cursor := if batch == [] then c.cursor else Advanced(c.cursor, batch[|batch| - 1].id),
         earlier := c.earlier.(oldestId := if batch == [] then c.earlier.oldestId else batch[0].id, hasMore := hasMore),
         controlMounted := c.controlMounted || hasMore)
    else c.(cursor := if answer.Forward? then Advanced(c.cursor, answer.nextSinceId) else c.cursor)
  }

  /** The first answer after a restore settles it, unless it is empty: then the head is asked for. */
  function Judged(c: Client, batch: seq<Message>): Client {
    if c.seedUnverified && batch == [] && c.backupCursor > 0
    then c.(seedUnverified := false, verifying := true, poll := Sent(Since(c.backupCursor - 1)))
    else c.(seedUnverified := false, poll := Quiet)
  }

  function ReceivePoll(c: Client, request: Request, answer: Answer): Client {
    Judged(Moved(Rendered(c, answer.messages), request, answer), answer.messages)
  }

  function ReceiveEarlier(c: Client, answer: Answer): Client {
    if !c.controlMounted then c.(earlierFetch := Quiet)
    else
      var older := answer.messages;
      c.(rows := Fresh(c.seen, older) + c.rows, seen := c.seen + Ids(older),
         earlier := Earlier(if older == [] then c.earlier.oldestId else older[0].id, answer.Backward? && answer.hasMoreBefore,
                            c.earlier.loaded + |older|, c.earlier.failed),
         earlierFetch := Quiet)
  }

  /** `discardRestoredHistory`, then the refetch from the start. */
  function Discarded(c: Client): Client {
    c.(rows := [], seen := {}, cursor := 0, backupCursor := 0, earlier := NO_EARLIER, controlMounted := false,
       verifying := false, poll := Sent(Since(0)))
  }

  function ReceiveVerify(c: Client, answer: Answer): Client {
    if c.backupCursor in Ids(answer.messages) then c.(verifying := false, poll := Quiet) else Discarded(c)
  }

  function Seeded(c: Client, backup: seq<Message>): Client
    requires backup != []
  {
    var lowest, highest := backup[0].id, backup[|backup| - 1].id;
    c.(rows := c.rows + backup, seen := c.seen + Ids(backup), cursor := highest, backupCursor := highest, seedUnverified := true,
       earlier := Earlier(lowest, lowest > 1, 0, false), controlMounted := lowest > 1)
  }

  function StartEarlier(c: Client): Client {
    if c.earlierFetch != Quiet || !c.earlier.hasMore then c
    else if c.earlier.oldestId <= 1 then c.(earlier := c.earlier.(hasMore := false))
    else c.(earlier := c.earlier.(failed := false), earlierFetch := Sent(Before(c.earlier.oldestId, PAGE_SIZE)))
  }

  function ReceiveSend(c: Client, own: Message): Client {
    if own.id in c.seen then c
    else c.(seen := c.seen + {own.id}, rows := c.rows + [own], cursor := Advanced(c.cursor, own.id))
  }

  // ---- runs ----

  datatype Event =
    | HostAppends(m: Message)
    | Restore(backup: seq<Message>)
    | StartPoll
    | HostAnswersPoll
    | PollFails
    | PollArrives
    | ClickEarlier
    | HostAnswersEarlier
    | EarlierFails
    | EarlierArrives
    | SendArrives(own: Message)

  ghost predicate Possible(s: System, e: Event) {
    match e
    case HostAppends(m) => 1 <= m.id < NEWEST_PAGE_BEFORE_ID && forall i :: 0 <= i < |s.log| ==> s.log[i].id < m.id
    case Restore(backup) => s.client == FRESH && backup != [] && Increasing(backup) && backup[0].id >= 1
    case StartPoll => s.client.poll == Quiet
    case HostAnswersPoll => s.client.poll.Sent?
    case PollFails => s.client.poll != Quiet
    case PollArrives => s.client.poll.Answered?
    case ClickEarlier => true
    case HostAnswersEarlier => s.client.earlierFetch.Sent?
    case EarlierFails => s.client.earlierFetch != Quiet
    case EarlierArrives => s.client.earlierFetch.Answered?
    case SendArrives(own) => own in s.log
  }

  function Apply(s: System, e: Event): System {
    var c := s.client;
    match e
    case HostAppends(m) => s.(log := s.log + [m])
    case Restore(backup) => if backup == [] then s else s.(client := Seeded(c, backup))
    case StartPoll => s.(client := c.(poll := Sent(PollRequest(c))))
    case HostAnswersPoll => if c.poll.Sent? then s.(client := c.(poll := Answered(c.poll.request, Serve(s.log, c.poll.request)))) else s
    case PollFails => s.(client := c.(poll := Quiet, verifying := false))
    case PollArrives =>
      if !c.poll.Answered? then s
      else if c.verifying then s.(client := ReceiveVerify(c, c.poll.answer))
      else s.(client := ReceivePoll(c, c.poll.request, c.poll.answer))
    case ClickEarlier => s.(client := StartEarlier(c))
    case HostAnswersEarlier =>
      if c.earlierFetch.Sent? then s.(client := c.(earlierFetch := Answered(c.earlierFetch.request, Serve(s.log, c.earlierFetch.request)))) else s
    case EarlierFails => s.(client := c.(earlierFetch := Quiet, earlier := c.earlier.(failed := true)))
    case EarlierArrives => if c.earlierFetch.Answered? then s.(client := ReceiveEarlier(c, c.earlierFetch.answer)) else s
    case SendArrives(own) => s.(client := ReceiveSend(c, own))
  }

  function Run(s: System, events: seq<Event>): System
    decreases |events|
  {
    if events == [] then s else Run(Apply(s, events[0]), events[1..])
  }

  ghost predicate PossibleRun(s: System, events: seq<Event>)
    decreases |events|
  {
    events != [] ==> Possible(s, events[0]) && PossibleRun(Apply(s, events[0]), events[1..])
  }

  const START := System([], FRESH)

  // ---- no id is ever rendered twice ----

  ghost predicate Distinct(rows: seq<Message>) {
    forall i, j :: 0 <= i < j < |rows| ==> rows[i].id != rows[j].id
  }

  ghost predicate AllSeen(rows: seq<Message>, seen: set<nat>) {
    forall i :: 0 <= i < |rows| ==> rows[i].id in seen
  }

  ghost predicate NoneSeen(rows: seq<Message>, seen: set<nat>) {
    forall i :: 0 <= i < |rows| ==> rows[i].id !in seen
  }

  /** Each row's id is unique and seen; a head check runs only after a first page, on a seed already judged. */
  ghost predicate RenderedOnce(c: Client) {
    && Distinct(c.rows) && AllSeen(c.rows, c.seen)
    && (c.verifying ==> c.entryPageLoaded && !c.seedUnverified)
  }

  lemma IdsOfSnoc(front: seq<Message>, last: Message)
    ensures Ids(front + [last]) == Ids(front) + {last.id}
  {
    var all := front + [last];
    assert forall i :: 0 <= i < |front| ==> all[i] == front[i];
    assert all[|front|] == last;
    forall k | k in Ids(front) ensures k in Ids(all) {
      var i :| 0 <= i < |front| && front[i].id == k;
      assert all[i].id == k;
    }
  }

  /** The loop renders unseen ids only, each once, all from the batch. */
  lemma {:induction false} FreshIsNew(seen: set<nat>, batch: seq<Message>)
    ensures Distinct(Fresh(seen, batch)) && NoneSeen(Fresh(seen, batch), seen) && AllSeen(Fresh(seen, batch), Ids(batch))
    decreases |batch|
  {
    if batch != [] {
      var front, last := batch[..|batch| - 1], batch[|batch| - 1];
      assert batch == front + [last];
      IdsOfSnoc(front, last);
      FreshIsNew(seen, front);
    }
  }

  lemma AddedRowsStayDistinct(rows: seq<Message>, seen: set<nat>, batch: seq<Message>)
    requires Distinct(rows) && AllSeen(rows, seen)
    ensures var f := Fresh(seen, batch);
            && Distinct(rows + f) && Distinct(f + rows)
            && AllSeen(rows + f, seen + Ids(batch)) && AllSeen(f + rows, seen + Ids(batch))
  {
    hide Ids, Fresh;
    FreshIsNew(seen, batch);
  }

  lemma StepRendersOnce(s: System, e: Event)
    requires RenderedOnce(s.client) && Possible(s, e)
    ensures RenderedOnce(Apply(s, e).client)
  {
    var c, none := s.client, [];
    assert Distinct(none) && AllSeen(none, {});
    hide Serve, GetMessages, Ids, Fresh, Distinct, AllSeen;
    match e
    case PollArrives => AddedRowsStayDistinct(c.rows, c.seen, c.poll.answer.messages);
    case EarlierArrives => AddedRowsStayDistinct(c.rows, c.seen, c.earlierFetch.answer.messages);
    case Restore(backup) => RestoredRows(backup);
    case SendArrives(own) => OneMoreRow(c.rows, c.seen, own);
    case _ =>
  }

  lemma RestoredRows(backup: seq<Message>)
    requires Increasing(backup)
    ensures Distinct([] + backup) && AllSeen([] + backup, {} + Ids(backup))
  {
    assert [] + backup == backup && {} + Ids(backup) == Ids(backup);
  }

  lemma OneMoreRow(rows: seq<Message>, seen: set<nat>, own: Message)
    requires Distinct(rows) && AllSeen(rows, seen)
    ensures own.id !in seen ==> Distinct(rows + [own]) && AllSeen(rows + [own], seen + {own.id})
  {
  }

  /** In every run, restores, discards and sends included, each id has at most one row. */
  lemma {:induction false} NeverRenderedTwice(s: System, events: seq<Event>)
    requires RenderedOnce(s.client) && PossibleRun(s, events)
    ensures RenderedOnce(Run(s, events).client)
    decreases |events|
  {
    if events != [] {
      StepRendersOnce(s, events[0]);
      NeverRenderedTwice(Apply(s, events[0]), events[1..]);
    }
  }

  // ---- what the endpoint answers on an increasing log ----

  function PageStart(end: nat): nat {
    if end > PAGE_SIZE then end - PAGE_SIZE else 0
  }

  function CursorAt(log: seq<Message>, end: nat): nat
    requires end <= |log|
  {
    if end == 0 then 0 else log[end - 1].id
  }

  ghost predicate Orderly(log: seq<Message>) {
    Increasing(log) && forall i :: 0 <= i < |log| ==> 1 <= log[i].id < NEWEST_PAGE_BEFORE_ID
  }

  /** A bounded backward read is the last page before the split, and says exactly whether more precede it. */
  lemma BackwardAnswer(log: seq<Message>, id: nat, p: nat)
    requires Orderly(log) && SplitsAt(log, id, p)
    ensures Serve(log, Before(id, PAGE_SIZE)) == Backward(log[PageStart(p)..p], p > PAGE_SIZE)
  {
    OlderIsPrefix(log, id, p);
    var page := LastFew(log[..p], Some(PAGE_SIZE));
    assert page == log[PageStart(p)..p];
    if p > PAGE_SIZE {
      assert page[0] == log[PageStart(p)] && log[0].id < page[0].id;
    } else if p > 0 {
      assert page[0] == log[0];
    }
  }

  /** An unbounded forward read from a cursor is the rest of the log and its last id. */
  lemma ForwardAnswer(log: seq<Message>, p: nat)
    requires Orderly(log) && p <= |log|
    ensures Serve(log, Since(CursorAt(log, p))) == Forward(log[p..], CursorAt(log, |log|))
  {
    NewerIsSuffix(log, CursorAt(log, p), p);
  }

  lemma {:induction false} NewBatchIsRendered(seen: set<nat>, batch: seq<Message>)
    requires Distinct(batch) && NoneSeen(batch, seen)
    ensures Fresh(seen, batch) == batch
    decreases |batch|
  {
    if batch != [] {
      var front, last := batch[..|batch| - 1], batch[|batch| - 1];
      NewBatchIsRendered(seen, front);
      assert last.id !in Ids(front);
      assert batch == front + [last];
    }
  }

  lemma IdsOfConcat(low: seq<Message>, high: seq<Message>)
    ensures Ids(low + high) == Ids(low) + Ids(high)
  {
    var all := low + high;
    assert forall i :: 0 <= i < |low| ==> all[i] == low[i];
    forall k | k in Ids(high) ensures k in Ids(all) {
      var i :| 0 <= i < |high| && high[i].id == k;
      assert all[|low| + i].id == k;
    }
    forall k | k in Ids(low) ensures k in Ids(all) {
      var i :| 0 <= i < |low| && low[i].id == k;
      assert all[i].id == k;
    }
  }

  lemma IdsApart(log: seq<Message>, a: nat, b: nat, c: nat)
    requires Increasing(log) && a <= b <= c <= |log|
    ensures NoneSeen(log[b..c], Ids(log[a..b])) && NoneSeen(log[a..b], Ids(log[b..c]))
    ensures Distinct(log[a..b]) && Distinct(log[b..c])
  {
    forall i, k | 0 <= i < |log[b..c]| && 0 <= k < |log[a..b]| ensures log[b..c][i].id != log[a..b][k].id {
      assert log[b..c][i] == log[b + i] && log[a..b][k] == log[a + k];
    }
  }

  /** A slice of the log is new to a client that has seen a slice beside it, and extends it. */
  lemma NeighbourIsNew(log: seq<Message>, a: nat, b: nat, c: nat)
    requires Increasing(log) && a <= b <= c <= |log|
    ensures Fresh(Ids(log[a..b]), log[b..c]) == log[b..c] && Fresh(Ids(log[b..c]), log[a..b]) == log[a..b]
    ensures log[a..b] + log[b..c] == log[a..c]
    ensures Ids(log[a..b]) + Ids(log[b..c]) == Ids(log[a..c])
  {
    hide Fresh, Ids, NoneSeen, Distinct, Increasing;
    var low, high, all := log[a..b], log[b..c], log[a..c];
    IdsApart(log, a, b, c);
    NewBatchIsRendered(Ids(low), high);
    NewBatchIsRendered(Ids(high), low);
    assert low + high == all;
    IdsOfConcat(low, high);
  }

  // ---- a cold entry shows an unbroken window of the log ----

  /** Answered from the log as it was when it had `k` messages, no fewer than `least`. */
  ghost predicate FromThePast(log: seq<Message>, r: Request, a: Answer, least: nat) {
    exists k :: least <= k <= |log| && a == Serve(log[..k], r)
  }

  ghost predicate PollFits(s: System, hi: nat)
    requires hi <= |s.log|
  {
    var c := s.client;
    var expected := if c.entryPageLoaded then Since(CursorAt(s.log, hi)) else Before(NEWEST_PAGE_BEFORE_ID, PAGE_SIZE);
    match c.poll
    case Quiet => true
    case Sent(r) => r == expected
    case Answered(r, a) => r == expected && FromThePast(s.log, r, a, hi)
  }

  ghost predicate EarlierFits(s: System, lo: nat) {
    lo < |s.log| &&
    var expected := Before(s.log[lo].id, PAGE_SIZE);
    match s.client.earlierFetch
    case Quiet => true
    case Sent(r) => lo > 0 && r == expected
    case Answered(r, a) => lo > 0 && r == expected && FromThePast(s.log, r, a, lo + 1)
  }

  /** The rows are exactly the log from `lo` up to `hi`, and the client knows whether anything precedes them. */
  ghost predicate Window(s: System, lo: nat, hi: nat) {
    && lo <= hi <= |s.log|
    && s.client.rows == s.log[lo..hi]
    && s.client.seen == Ids(s.log[lo..hi])
    && s.client.cursor == CursorAt(s.log, hi)
    && (s.client.earlier.hasMore <==> lo > 0)
    && (lo > 0 ==> lo < hi && s.client.controlMounted && s.client.earlier.oldestId == s.log[lo].id)
  }

  ghost predicate Stitched(s: System, lo: nat, hi: nat) {
    && Orderly(s.log) && Window(s, lo, hi)
    && !s.client.seedUnverified && !s.client.verifying
    && (!s.client.entryPageLoaded ==> lo == 0 && hi == 0 && s.client.earlierFetch == Quiet)
    && PollFits(s, hi)
    && (s.client.earlierFetch != Quiet && s.client.controlMounted ==> EarlierFits(s, lo))
  }

  /** Events other than a restore or a send. */
  predicate ReadsOnly(e: Event) {
    !e.Restore? && !e.SendArrives?
  }

  lemma AppendKeepsWindow(s: System, lo: nat, hi: nat, m: Message)
    requires Stitched(s, lo, hi) && Possible(s, HostAppends(m))
    ensures Stitched(Apply(s, HostAppends(m)), lo, hi)
  {
    hide Serve, GetMessages, Ids, Fresh;
    var log := s.log + [m];
    assert log[lo..hi] == s.log[lo..hi];
    assert forall k :: 0 <= k <= |s.log| ==> log[..k] == s.log[..k];
  }

  lemma ForwardAnswerOfThePast(log: seq<Message>, hi: nat, k: nat)
    requires Orderly(log) && hi <= k <= |log|
    ensures Serve(log[..k], Since(CursorAt(log, hi))) == Forward(log[hi..k], CursorAt(log, k))
  {
    hide Serve, GetMessages;
    var past := log[..k];
    PrefixIsOrderly(log, k);
    ForwardAnswer(past, hi);
    assert past[hi..] == log[hi..k];
  }

  lemma BackwardAnswerOfThePast(log: seq<Message>, id: nat, p: nat, k: nat)
    requires Orderly(log) && p <= k <= |log| && SplitsAt(log[..k], id, p)
    ensures Serve(log[..k], Before(id, PAGE_SIZE)) == Backward(log[PageStart(p)..p], p > PAGE_SIZE)
  {
    hide Serve, GetMessages;
    var past := log[..k];
    PrefixIsOrderly(log, k);
    BackwardAnswer(past, id, p);
    assert past[PageStart(p)..p] == log[PageStart(p)..p];
  }

  lemma NewerPollArrives(c: Client, log: seq<Message>, lo: nat, hi: nat, k: nat)
    requires Orderly(log) && lo <= hi <= k <= |log|
    requires c.rows == log[lo..hi] && c.seen == Ids(log[lo..hi]) && c.cursor == CursorAt(log, hi)
    requires !c.seedUnverified && c.entryPageLoaded
    ensures ReceivePoll(c, Since(c.cursor), Forward(log[hi..k], CursorAt(log, k)))
         == c.(rows := log[lo..k], seen := Ids(log[lo..k]), cursor := CursorAt(log, k), poll := Quiet)
  {
    hide Ids, Fresh;
    NeighbourIsNew(log, lo, hi, k);
  }

  lemma ColdBatch(c: Client, page: seq<Message>)
    requires c.rows == [] && c.seen == {} && Fresh({}, page) == page
    ensures Rendered(c, page) == c.(rows := page, seen := Ids(page), entryPageLoaded := true)
  {
    hide Fresh, Ids;
    assert [] + page == page && {} + Ids(page) == Ids(page);
  }

  lemma FirstPageIsNew(log: seq<Message>, lo: nat, k: nat)
    requires Increasing(log) && lo <= k <= |log|
    ensures Fresh({}, log[lo..k]) == log[lo..k]
  {
    hide Fresh, Ids, Increasing;
    NothingIsSeen();
    assert log[lo..lo] == [];
    NeighbourIsNew(log, lo, lo, k);
  }

  lemma ColdPageArrives(c: Client, page: seq<Message>, more: bool)
    requires c.rows == [] && c.seen == {} && c.cursor == 0 && !c.seedUnverified && Fresh({}, page) == page
    ensures ReceivePoll(c, Before(NEWEST_PAGE_BEFORE_ID, PAGE_SIZE), Backward(page, more))
         == c.(rows := page, seen := Ids(page), cursor := if page == [] then 0 else page[|page| - 1].id, poll := Quiet,
               earlier := c.earlier.(oldestId := if page == [] then c.earlier.oldestId else page[0].id, hasMore := more),
               controlMounted := c.controlMounted || more, entryPageLoaded := true)
  {
    hide Fresh, Ids, Rendered;
    ColdBatch(c, page);
  }

  lemma PageEnds(log: seq<Message>, lo: nat, k: nat)
    requires k <= |log| && lo == PageStart(k)
    ensures var page := log[lo..k];
      && (page == [] <==> k == 0) && (lo > 0 <==> k > PAGE_SIZE)
      && (k > 0 ==> page[|page| - 1].id == CursorAt(log, k) && page[0] == log[lo])
  {
  }

  lemma FirstPageArrives(c: Client, log: seq<Message>, lo: nat, k: nat)
    requires Orderly(log) && k <= |log| && lo == PageStart(k)
    requires c.rows == [] && c.seen == {} && c.cursor == 0 && !c.seedUnverified
    ensures ReceivePoll(c, Before(NEWEST_PAGE_BEFORE_ID, PAGE_SIZE), Backward(log[lo..k], k > PAGE_SIZE))
         == c.(rows := log[lo..k], seen := Ids(log[lo..k]), cursor := CursorAt(log, k), poll := Quiet,
               earlier := c.earlier.(oldestId := if k == 0 then c.earlier.oldestId else log[lo].id, hasMore := lo > 0),
               controlMounted := c.controlMounted || lo > 0, entryPageLoaded := true)
  {
    hide Fresh, Ids, Increasing, ReceivePoll;
    var page := log[lo..k];
    FirstPageIsNew(log, lo, k);
    PageEnds(log, lo, k);
    hide Orderly, PageStart;
    ColdPageArrives(c, page, k > PAGE_SIZE);
  }

  lemma PrefixIsOrderly(log: seq<Message>, k: nat)
    requires Orderly(log) && k <= |log|
    ensures Orderly(log[..k])
  {
  }

  lemma PollKeepsWindow(s: System, lo: nat, hi: nat) returns (lo': nat, hi': nat)
    requires Stitched(s, lo, hi) && s.client.poll.Answered?
    ensures hi <= hi' && (s.client.entryPageLoaded ==> lo' == lo)
    ensures Stitched(Apply(s, PollArrives), lo', hi')
  {
    hide Serve, GetMessages, Ids, Fresh, Increasing, ReceivePoll;
    var k :| hi <= k <= |s.log| && s.client.poll.answer == Serve(s.log[..k], s.client.poll.request);
    hi' := k;
    if s.client.entryPageLoaded {
      ForwardAnswerOfThePast(s.log, hi, k);
      NewerPollArrives(s.client, s.log, lo, hi, k);
      lo' := lo;
    } else {
      BackwardAnswerOfThePast(s.log, NEWEST_PAGE_BEFORE_ID, k, k);
      assert s.log[0..0] == [] && Ids([]) == {} by { NothingIsSeen(); }
      lo' := PageStart(k);
      FirstPageArrives(s.client, s.log, lo', k);
    }
  }

  lemma NothingIsSeen()
    ensures Ids([]) == {}
  {
  }

  lemma EarlierKeepsWindow(s: System, lo: nat, hi: nat) returns (lo': nat)
    requires Stitched(s, lo, hi) && s.client.earlierFetch.Answered?
    ensures lo' == if s.client.controlMounted then PageStart(lo) else lo
    ensures Stitched(Apply(s, EarlierArrives), lo', hi)
  {
    hide Serve, GetMessages, Ids, Fresh;
    var c := s.client;
    lo' := lo;
    if c.controlMounted {
      var k :| lo + 1 <= k <= |s.log| && c.earlierFetch.answer == Serve(s.log[..k], c.earlierFetch.request);
      BackwardAnswerOfThePast(s.log, s.log[lo].id, lo, k);
      lo' := PageStart(lo);
      NeighbourIsNew(s.log, lo', lo, hi);
    }
  }

  lemma FetchesKeepWindow(s: System, lo: nat, hi: nat, e: Event)
    requires Stitched(s, lo, hi) && Possible(s, e)
    requires e.StartPoll? || e.HostAnswersPoll? || e.PollFails? || e.HostAnswersEarlier? || e.EarlierFails?
    ensures Stitched(Apply(s, e), lo, hi)
  {
    hide Serve, GetMessages, Fresh, Increasing;
    assert s.log[..|s.log|] == s.log;
    if lo < hi { assert s.log[lo..hi][0].id in Ids(s.log[lo..hi]); }
  }

  lemma ClickKeepsWindow(s: System, lo: nat, hi: nat)
    requires Stitched(s, lo, hi)
    ensures Stitched(Apply(s, ClickEarlier), lo, hi)
  {
    hide Serve, GetMessages, Fresh, Ids;
    assert lo > 0 ==> s.log[lo - 1].id < s.log[lo].id;
  }

  /** One event of a run without restores and sends: the window's ends never move inwards. */
  lemma StepKeepsWindow(s: System, lo: nat, hi: nat, e: Event) returns (lo': nat, hi': nat)
    requires Stitched(s, lo, hi) && Possible(s, e) && ReadsOnly(e)
    ensures hi <= hi' && (s.client.entryPageLoaded ==> lo' <= lo)
    ensures Stitched(Apply(s, e), lo', hi')
  {
    hide Apply, Stitched;
    lo', hi' := lo, hi;
    match e
    case HostAppends(m) => AppendKeepsWindow(s, lo, hi, m);
    case PollArrives => lo', hi' := PollKeepsWindow(s, lo, hi);
    case EarlierArrives => lo' := EarlierKeepsWindow(s, lo, hi);
    case ClickEarlier => ClickKeepsWindow(s, lo, hi);
    case _ => FetchesKeepWindow(s, lo, hi, e);
  }

  lemma {:induction false} RunKeepsWindow(s: System, lo: nat, hi: nat, events: seq<Event>) returns (lo': nat, hi': nat)
    requires Stitched(s, lo, hi) && PossibleRun(s, events) && forall e :: e in events ==> ReadsOnly(e)
    ensures Stitched(Run(s, events), lo', hi')
    decreases |events|
  {
    hide Apply, Stitched;
    lo', hi' := lo, hi;
    if events != [] {
      lo', hi' := StepKeepsWindow(s, lo, hi, events[0]);
      lo', hi' := RunKeepsWindow(Apply(s, events[0]), lo', hi', events[1..]);
    }
  }

  /**
   A cold entry followed by any mix of polls, "earlier" loads, failures and host appends shows
   exactly the log between its oldest row and its cursor, in order and once each; it offers
   "earlier" exactly when the log holds an older message.
   */
  lemma ContiguousView(events: seq<Event>) returns (lo: nat, hi: nat)
    requires PossibleRun(START, events) && forall e :: e in events ==> ReadsOnly(e)
    ensures var s := Run(START, events);
      && lo <= hi <= |s.log|
      && s.client.rows == s.log[lo..hi]
      && s.client.cursor == CursorAt(s.log, hi)
      && (s.client.earlier.hasMore <==> s.client.rows != [] && AnyOlder(s.log, s.client.rows[0].id))
      && (s.client.rows == [] ==> lo == 0)
  {
    hide Run;
    NothingIsSeen();
    lo, hi := RunKeepsWindow(START, 0, 0, events);
    if lo < hi { OlderThanTheWindow(Run(START, events).log, lo, hi); }
  }

  lemma OlderThanTheWindow(log: seq<Message>, lo: nat, hi: nat)
    requires Increasing(log) && lo < hi <= |log|
    ensures AnyOlder(log, log[lo..hi][0].id) <==> lo > 0
  {
    if lo > 0 { assert log[0].id < log[lo].id; }
  }

  function EarlierRound(s: System): System {
    Apply(Apply(Apply(s, ClickEarlier), HostAnswersEarlier), EarlierArrives)
  }

  function EarlierRounds(s: System, n: nat): System
    decreases n
  {
    if n == 0 then s else EarlierRounds(EarlierRound(s), n - 1)
  }

  lemma OneRound(s: System, lo: nat, hi: nat)
    requires Stitched(s, lo, hi) && lo > 0 && s.client.earlierFetch == Quiet
    ensures Stitched(EarlierRound(s), PageStart(lo), hi)
    ensures EarlierRound(s).client.earlierFetch == Quiet && EarlierRound(s).log == s.log
  {
    hide Serve, GetMessages, Fresh, Ids;
    var clicked := Apply(s, ClickEarlier);
    ClickKeepsWindow(s, lo, hi);
    assert s.log[lo - 1].id < s.log[lo].id;
    assert clicked.client.earlierFetch.Sent?;
    var answered := Apply(clicked, HostAnswersEarlier);
    hide Apply, Stitched;
    FetchesKeepWindow(clicked, lo, hi, HostAnswersEarlier);
    RoundEnds(s, clicked, answered);
    var lo' := EarlierKeepsWindow(answered, lo, hi);
  }

  lemma RoundEnds(s: System, clicked: System, answered: System)
    requires clicked == Apply(s, ClickEarlier) && answered == Apply(clicked, HostAnswersEarlier)
    requires clicked.client.earlierFetch.Sent?
    ensures answered.client.earlierFetch.Answered? && answered.log == s.log
    ensures answered.client.controlMounted == s.client.controlMounted
    ensures Apply(answered, EarlierArrives).log == s.log && Apply(answered, EarlierArrives).client.earlierFetch == Quiet
  {
    hide Serve, Fresh, Ids;
  }

  /** Loading earlier again and again ends: after one round per page the whole log up to the cursor is shown. */
  lemma {:induction false} LoadingEarlierReachesTheBeginning(s: System, lo: nat, hi: nat, rounds: nat)
    requires Stitched(s, lo, hi) && s.client.earlierFetch == Quiet
    requires rounds == (lo + PAGE_SIZE - 1) / PAGE_SIZE
    ensures var done := EarlierRounds(s, rounds);
            done.log == s.log && done.client.rows == s.log[..hi] && !done.client.earlier.hasMore
    decreases rounds
  {
    hide EarlierRound;
    if rounds == 0 {
      assert s.log[0..hi] == s.log[..hi];
    } else {
      assert lo > 0;
      OneRound(s, lo, hi);
      LoadingEarlierReachesTheBeginning(EarlierRound(s), PageStart(lo), hi, rounds - 1);
    }
  }

  function PollRound(s: System): System {
    Apply(Apply(Apply(s, StartPoll), HostAnswersPoll), PollArrives)
  }

  /** A poll answered and received while nothing else happens brings the window's end to the end of the log. */
  lemma PollCatchesUp(s: System, lo: nat, hi: nat)
    requires Stitched(s, lo, hi) && s.client.entryPageLoaded && s.client.poll == Quiet
    ensures Stitched(PollRound(s), lo, |s.log|)
    ensures PollRound(s).log == s.log && PollRound(s).client.earlierFetch == s.client.earlierFetch
  {
    hide Serve, GetMessages, Ids, Fresh, Increasing, ReceivePoll;
    var log, c, k := s.log, s.client, |s.log|;
    assert log[..k] == log;
    assert !ColdEntry(c);
    ForwardAnswerOfThePast(log, hi, k);
    var answered := c.(poll := Answered(Since(c.cursor), Forward(log[hi..k], CursorAt(log, k))));
    assert Apply(Apply(s, StartPoll), HostAnswersPoll) == s.(client := answered);
    NewerPollArrives(answered, log, lo, hi, k);
  }

  /** A poll and then "earlier" to exhaustion shows the whole log, however short the first page was. */
  lemma WholeLogIsReachable(s: System, lo: nat, hi: nat)
    requires Stitched(s, lo, hi) && s.client.entryPageLoaded && s.client.poll == Quiet && s.client.earlierFetch == Quiet
    ensures var done := EarlierRounds(PollRound(s), (lo + PAGE_SIZE - 1) / PAGE_SIZE);
            done.log == s.log && done.client.rows == s.log && !done.client.earlier.hasMore
  {
    hide Stitched, PollRound, EarlierRounds;
    PollCatchesUp(s, lo, hi);
    LoadingEarlierReachesTheBeginning(PollRound(s), lo, |s.log|, (lo + PAGE_SIZE - 1) / PAGE_SIZE);
    assert s.log[..|s.log|] == s.log;
  }

  /** A discarded restore leaves an empty, stitched view whose next answer is the whole log. */
  lemma DiscardStartsAfresh(s: System)
    requires Orderly(s.log) && RenderedOnce(s.client) && s.client.verifying && s.client.poll.Answered?
    requires s.client.backupCursor !in Ids(s.client.poll.answer.messages)
    ensures Stitched(Apply(s, PollArrives), 0, 0)
    ensures Apply(s, PollArrives).client.poll == Sent(Since(0))
    ensures Serve(s.log, Since(0)) == Forward(s.log, CursorAt(s.log, |s.log|))
  {
    ForwardAnswer(s.log, 0);
    assert s.log[0..] == s.log && s.log[0..0] == [];
    NothingIsSeen();
  }

  // ---- what a send does to the window ----

  /**
   A send's own message keeps the view a window of the log exactly when it is the very next
   message, the view that is still empty included.
   */
  lemma SendKeepsWindowExactly(s: System, lo: nat, hi: nat, k: nat)
    requires Stitched(s, lo, hi) && hi <= k < |s.log|
    ensures (exists a, b :: Window(System(s.log, ReceiveSend(s.client, s.log[k])), a, b)) <==> k == hi
  {
    hide PollFits, EarlierFits, Ids;
    var log, own := s.log, s.log[k];
    var after := System(log, ReceiveSend(s.client, own));
    UnseenBeyond(log, lo, hi, k);
    assert after.client.rows == log[lo..hi] + [own];
    if k == hi {
      assert after.client.rows == log[lo..hi + 1];
      IdsOfSnoc(log[lo..hi], own);
      assert Window(after, lo, hi + 1);
    }
    if a: nat, b: nat :| Window(after, a, b) {
      NextInTheWindow(s, lo, hi, k, a, b);
    }
  }

  /** Whatever window the rows are after the send, it begins where the view did and ends one further on. */
  lemma NextInTheWindow(s: System, lo: nat, hi: nat, k: nat, a: nat, b: nat)
    requires Stitched(s, lo, hi) && hi <= k < |s.log|
    requires Window(System(s.log, ReceiveSend(s.client, s.log[k])), a, b)
    ensures k == hi
  {
    hide PollFits, EarlierFits, Ids;
    var log, own := s.log, s.log[k];
    UnseenBeyond(log, lo, hi, k);
    var rows := log[lo..hi] + [own];
    assert rows == log[a..b];
    assert rows[hi - lo] == own == log[a + hi - lo];
    SameIdSamePlace(log, a + hi - lo, k);
    if lo < hi {
      assert rows[0] == log[lo] == log[a];
      SameIdSamePlace(log, lo, a);
    }
  }

  lemma SameIdSamePlace(log: seq<Message>, i: nat, j: nat)
    requires Increasing(log) && i < |log| && j < |log|
    ensures log[i].id == log[j].id ==> i == j
  {
  }

  lemma UnseenBeyond(log: seq<Message>, lo: nat, hi: nat, k: nat)
    requires Increasing(log) && lo <= hi <= k < |log|
    ensures log[k].id !in Ids(log[lo..hi])
  {
  }

  /** The cursor is past `id` and nothing on its way to the client carries it. */
  ghost predicate Passed(c: Client, id: nat) {
    && id !in c.seen && id !in Ids(c.rows) && id <= c.cursor
    && 0 < id && !c.seedUnverified && !c.verifying
    && (match c.poll
        case Quiet => true
        case Sent(r) => r.Since? && id <= r.sinceId
        case Answered(r, a) => r.Since? && id !in Ids(a.messages))
    && (c.earlier.hasMore ==> c.earlier.oldestId <= id)
    && (c.controlMounted ==> EarlierMisses(c.earlierFetch, id))
  }

  predicate EarlierMisses(f: Fetch, id: nat) {
    match f
    case Quiet => true
    case Sent(r) => r.Before? && r.beforeId <= id
    case Answered(r, a) =>
      && id !in Ids(a.messages)
      && (if a.messages == [] then !(a.Backward? && a.hasMoreBefore) else a.messages[0].id <= id)
  }

  lemma AnswersMissIt(log: seq<Message>, r: Request, id: nat)
    requires if r.Since? then id <= r.sinceId else r.beforeId <= id
    ensures var a := Serve(log, r);
      && id !in Ids(a.messages)
      && (r.Before? && a.messages != [] ==> a.messages[0].id <= id)
      && (a.messages == [] ==> !(a.Backward? && a.hasMoreBefore))
  {
    match r
    case Since(since) => NewerIsNewer(log, since);
    case Before(before, limit) => OlderIsOlder(log, before);
  }

  lemma RowsMissIt(rows: seq<Message>, seen: set<nat>, batch: seq<Message>, id: nat)
    requires id !in Ids(rows) && id !in Ids(batch)
    ensures id !in Ids(rows + Fresh(seen, batch)) && id !in Ids(Fresh(seen, batch) + rows)
  {
    hide Fresh;
    FreshIsNew(seen, batch);
    IdsOfConcat(rows, Fresh(seen, batch));
    IdsOfConcat(Fresh(seen, batch), rows);
  }

  lemma StepKeepsPassed(s: System, e: Event, id: nat)
    requires Passed(s.client, id) && Possible(s, e) && (e.SendArrives? ==> e.own.id != id)
    ensures Passed(Apply(s, e).client, id)
  {
    hide Serve, GetMessages, Fresh, Ids;
    var c := s.client;
    match e
    case HostAnswersPoll => AnswersMissIt(s.log, c.poll.request, id);
    case HostAnswersEarlier => if c.controlMounted { AnswersMissIt(s.log, c.earlierFetch.request, id); }
    case PollArrives => RowsMissIt(c.rows, c.seen, c.poll.answer.messages, id);
    case EarlierArrives => if c.controlMounted { RowsMissIt(c.rows, c.seen, c.earlierFetch.answer.messages, id); }
    case SendArrives(own) => IdsOfSnoc(c.rows, own);
    case _ =>
  }

  lemma {:induction false} PassedForGood(s: System, events: seq<Event>, id: nat)
    requires Passed(s.client, id) && PossibleRun(s, events)
    requires forall e :: e in events ==> (e.SendArrives? ==> e.own.id != id)
    ensures Passed(Run(s, events).client, id)
    decreases |events|
  {
    hide Apply, Passed;
    if events != [] {
      StepKeepsPassed(s, events[0], id);
      PassedForGood(Apply(s, events[0]), events[1..], id);
    }
  }

  /** An "earlier" page on its way to a stitched view holds nothing from the view's end on. */
  lemma EarlierMissesTheRest(s: System, lo: nat, hi: nat)
    requires Stitched(s, lo, hi) && hi < |s.log| && s.client.controlMounted
    ensures EarlierMisses(s.client.earlierFetch, s.log[hi].id)
  {
    hide PollFits, Serve, GetMessages, Ids;
    var id, f := s.log[hi].id, s.client.earlierFetch;
    assert f != Quiet ==> s.log[lo].id <= id;
    if f.Answered? {
      var n :| lo + 1 <= n <= |s.log| && f.answer == Serve(s.log[..n], f.request);
      AnswersMissIt(s.log[..n], f.request, id);
    }
  }

  /** No poll is under way that could still carry `id`. */
  predicate PollMisses(c: Client, id: nat) {
    match c.poll
    case Quiet => true
    case Sent(r) => false
    case Answered(r, a) => r.Since? && id !in Ids(a.messages)
  }

  /**
   A send that overtakes another participant's message leaves that message out of the view for
   the rest of the run, whatever polls and "earlier" loads follow.
   */
  lemma OvertakenMessageIsLost(s: System, lo: nat, hi: nat, k: nat, events: seq<Event>)
    requires Stitched(s, lo, hi) && hi < k < |s.log| && PollMisses(s.client, s.log[hi].id)
    requires PossibleRun(Apply(s, SendArrives(s.log[k])), events)
    requires forall e :: e in events ==> (e.SendArrives? ==> e.own.id != s.log[hi].id)
    ensures s.log[hi].id !in Ids(Run(Apply(s, SendArrives(s.log[k])), events).client.rows)
  {
    hide Run, PossibleRun, Fresh, Serve, EarlierMisses, EarlierFits, Ids;
    var id, sent := s.log[hi].id, Apply(s, SendArrives(s.log[k]));
    if s.client.controlMounted { EarlierMissesTheRest(s, lo, hi); }
    UnseenBeyond(s.log, lo, hi, k);
    UnseenBeyond(s.log, lo, hi, hi);
    IdsOfSnoc(s.client.rows, s.log[k]);
    assert Passed(sent.client, id);
    PassedForGood(sent, events, id);
  }

  // ---- the client's state object ----

  /** The page's one `state` object; `rows` are the timeline's message rows, top to bottom. */
  class RoomView {
    var cursor: nat
    var seen: set<nat>
    var rows: seq<Message>
    var earlier: Earlier
    var controlMounted: bool
    var entryPageLoaded: bool
    var backupCursor: nat
    var seedUnverified: bool
    var poll: Fetch
    var verifying: bool
    var earlierFetch: Fetch

    ghost function State(): Client
      reads this
    {
      Client(cursor, seen, rows, earlier, controlMounted, entryPageLoaded, backupCursor, seedUnverified,
             poll, verifying, earlierFetch)
    }

    constructor ()
      ensures State() == FRESH
    {
      cursor, seen, rows, earlier := 0, {}, [], NO_EARLIER;
      controlMounted, entryPageLoaded, backupCursor, seedUnverified := false, false, 0, false;
      poll, verifying, earlierFetch := Quiet, false, Quiet;
    }

    method AdvanceCursorTo(id: nat)
      modifies `cursor
      ensures cursor == Advanced(old(cursor), id)
    {
      if id > cursor { cursor := id; }
    }

    method RenderRestored(restored: seq<Message>)
      modifies `rows, `seen
      ensures rows == old(rows) + restored && seen == old(seen) + Ids(restored)
    {
      hide Ids;
      NothingIsSeen();
      for i := 0 to |restored|
        invariant rows == old(rows) + restored[..i] && seen == old(seen) + Ids(restored[..i])
      {
        assert restored[..i + 1] == restored[..i] + [restored[i]];
        IdsOfSnoc(restored[..i], restored[i]);
        seen := seen + {restored[i].id};
        rows := rows + [restored[i]];
      }
      assert restored[..|restored|] == restored;
    }

    method SeedEntryFromBackup(restored: seq<Message>)
      modifies this
      ensures State() == if restored == [] then old(State()) else Seeded(old(State()), restored)
    {
      if restored == [] { return; }
      var lowest, highest := restored[0].id, restored[|restored| - 1].id;
      RenderRestored(restored);
      cursor, backupCursor := highest, highest;
      earlier := Earlier(lowest, lowest > 1, 0, false);
      controlMounted := lowest > 1;
      seedUnverified := true;
    }

    method BeginPoll()
      modifies `poll
      ensures poll == if old(poll) == Quiet then Sent(PollRequest(old(State()))) else old(poll)
    {
      if poll != Quiet { return; }
      var coldEntry := !entryPageLoaded && cursor == 0 && seen == {};
      poll := Sent(if coldEntry then Before(NEWEST_PAGE_BEFORE_ID, PAGE_SIZE) else Since(cursor));
    }

    /** The loop both readers share: unseen messages of a batch, kept in batch order. */
    method TakeUnseen(batch: seq<Message>) returns (unseen: seq<Message>)
      modifies `seen
      ensures unseen == Fresh(old(seen), batch) && seen == old(seen) + Ids(batch)
    {
      unseen := [];
      for i := 0 to |batch|
        invariant unseen == Fresh(old(seen), batch[..i]) && seen == old(seen) + Ids(batch[..i])
      {
        assert batch[..i + 1][..i] == batch[..i] && batch[..i + 1] == batch[..i] + [batch[i]];
        IdsOfSnoc(batch[..i], batch[i]);
        if batch[i].id !in seen {
          seen := seen + {batch[i].id};
          unseen := unseen + [batch[i]];
        }
      }
      assert batch[..|batch|] == batch;
    }

    method RenderBatch(batch: seq<Message>)
      modifies this
      ensures State() == Rendered(old(State()), batch)
    {
      hide Fresh, Ids;
      entryPageLoaded := true;
      var unseen := TakeUnseen(batch);
      rows := rows + unseen;
    }

    method MoveCursor(request: Request, answer: Answer)
      modifies this
      ensures State() == Moved(old(State()), request, answer)
    {
      var batch := answer.messages;
      if request.Before? {
        if batch != [] {
          AdvanceCursorTo(batch[|batch| - 1].id);
          earlier := earlier.(oldestId := batch[0].id);
        }
        earlier := earlier.(hasMore := answer.Backward? && answer.hasMoreBefore);
        if earlier.hasMore { controlMounted := true; }
      } else if answer.Forward? {
        AdvanceCursorTo(answer.nextSinceId);
      }
    }

    method PollArrived(request: Request, answer: Answer)
      modifies this
      ensures State() == ReceivePoll(old(State()), request, answer)
    {
      hide Rendered, Moved;
      RenderBatch(answer.messages);
      MoveCursor(request, answer);
      poll := Quiet;
      if seedUnverified {
        seedUnverified := false;
        if answer.messages == [] && backupCursor > 0 {
          verifying := true;
          poll := Sent(Since(backupCursor - 1));
        }
      }
    }

    method DiscardRestoredHistory()
      modifies this
      ensures State() == Discarded(old(State())).(verifying := old(verifying), poll := old(poll))
    {
      rows, seen, cursor, backupCursor := [], {}, 0, 0;
      earlier, controlMounted := NO_EARLIER, false;
    }

    method HeadCheckArrived(answer: Answer)
      requires entryPageLoaded
      modifies this
      ensures State() == ReceiveVerify(old(State()), answer)
    {
      var found := false;
      for i := 0 to |answer.messages|
        invariant found <==> backupCursor in Ids(answer.messages[..i])
        invariant State() == old(State())
      {
        assert answer.messages[..i + 1] == answer.messages[..i] + [answer.messages[i]];
        IdsOfSnoc(answer.messages[..i], answer.messages[i]);
        if answer.messages[i].id == backupCursor { found := true; }
      }
      assert answer.messages[..|answer.messages|] == answer.messages;
      verifying, poll := false, Quiet;
      if !found {
        DiscardRestoredHistory();
        BeginPoll();
      }
    }

    method LoadEarlier()
      modifies `earlier, `earlierFetch
      ensures State() == StartEarlier(old(State()))
    {
      if earlierFetch != Quiet || !earlier.hasMore { return; }
      var before := earlier.oldestId;
      if before <= 1 {
        earlier := earlier.(hasMore := false);
        return;
      }
      earlier := earlier.(failed := false);
      earlierFetch := Sent(Before(before, PAGE_SIZE));
    }

    method EarlierArrived(answer: Answer)
      modifies this
      ensures State() == ReceiveEarlier(old(State()), answer)
    {
      earlierFetch := Quiet;
      if !controlMounted { return; }
      var older := answer.messages;
      var unseen := TakeUnseen(older);
      rows := unseen + rows;
      if older != [] { earlier := earlier.(oldestId := older[0].id); }
      earlier := earlier.(loaded := earlier.loaded + |older|, hasMore := answer.Backward? && answer.hasMoreBefore);
    }

    method SendArrived(own: Message)
      modifies this
      ensures State() == ReceiveSend(old(State()), own)
    {
      if own.id !in seen {
        seen := seen + {own.id};
        rows := rows + [own];
        AdvanceCursorTo(own.id);
      }
    }
  }
}
