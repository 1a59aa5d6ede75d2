/** Reads of the message log: the two filters of `getMessages` (src/server/http.ts) and its bounded pages. */
module LogReads {
  import opened Collections
  import opened RoomStore

  /** The log's messages beyond a forward cursor, in log order. */
  function Newer(log: seq<Message>, since: nat): seq<Message> {
    if log == [] then []
    else
      var front, last := Newer(log[..|log| - 1], since), log[|log| - 1];
      if last.id > since then front + [last] else front
  }

  /** The log's messages strictly older than `before`, in log order. */
  function Older(log: seq<Message>, before: nat): seq<Message> {
    if log == [] then []
    else
      var front, last := Older(log[..|log| - 1], before), log[|log| - 1];
      if last.id < before then front + [last] else front
  }

  function FirstFew<T>(s: seq<T>, limit: Option<nat>): seq<T> {
    if limit.Some? && limit.value < |s| then s[..limit.value] else s
  }

  function LastFew<T>(s: seq<T>, limit: Option<nat>): seq<T> {
    if limit.Some? && limit.value < |s| then s[|s| - limit.value..] else s
  }

  /** A forward answer carries the next cursor, a backward one says whether older messages exist. */
  datatype Answer = Forward(messages: seq<Message>, nextSinceId: nat) | Backward(messages: seq<Message>, hasMoreBefore: bool)

  datatype Request = Since(sinceId: nat) | Before(beforeId: nat, limit: nat)

  predicate AnyOlder(log: seq<Message>, id: nat) {
    exists i :: 0 <= i < |log| && log[i].id < id
  }

  /** The answer to an accepted request; `limit` is at least one, and absent means unbounded. */
  function GetMessages(log: seq<Message>, sinceId: nat, beforeId: Option<nat>, limit: Option<nat>): Answer {
    if beforeId.Some? then
      var page := LastFew(Older(log, beforeId.value), limit);
      Backward(page, page != [] && AnyOlder(log, page[0].id))
    else
      var page := FirstFew(Newer(log, sinceId), limit);
      Forward(page, if page == [] then sinceId else page[|page| - 1].id)
  }

  function Serve(log: seq<Message>, r: Request): Answer {
    match r
    case Since(sinceId) => GetMessages(log, sinceId, None, None)
    case Before(beforeId, limit) => GetMessages(log, 0, Some(beforeId), Some(limit))
  }

  ghost predicate SplitsAt(log: seq<Message>, id: nat, p: nat) {
    && p <= |log|
    && (forall i :: 0 <= i < p ==> log[i].id < id)
    && (forall i :: p <= i < |log| ==> log[i].id >= id)
  }

  lemma {:induction false} OlderIsPrefix(log: seq<Message>, id: nat, p: nat)
    requires SplitsAt(log, id, p)
    ensures Older(log, id) == log[..p]
    decreases |log|
  {
    if log != [] {
      var front := log[..|log| - 1];
      if p == |log| {
        OlderIsPrefix(front, id, p - 1);
        assert front[..p - 1] + [log[p - 1]] == log[..p];
      } else {
        OlderIsPrefix(front, id, p);
        assert front[..p] == log[..p];
      }
    }
  }

  lemma SuffixOfSnoc<T>(log: seq<T>, p: nat)
    requires log != [] && p <= |log|
    ensures var front := log[..|log| - 1];
            log[p..] == if p == |log| then front[p - 1..] else front[p..] + [log[|log| - 1]]
  {
  }

  lemma {:induction false} NewerIsSuffix(log: seq<Message>, since: nat, p: nat)
    requires SplitsAt(log, since + 1, p)
    ensures Newer(log, since) == log[p..]
    decreases |log|
  {
    if log != [] {
      var front := log[..|log| - 1];
      var q := if p == |log| then p - 1 else p;
      assert SplitsAt(front, since + 1, q);
      NewerIsSuffix(front, since, q);
      SuffixOfSnoc(log, p);
    }
  }

  lemma {:induction false} NewerIsNewer(log: seq<Message>, since: nat)
    ensures forall m :: m in Newer(log, since) ==> m.id > since
  {
    if log != [] { NewerIsNewer(log[..|log| - 1], since); }
  }

  lemma {:induction false} OlderIsOlder(log: seq<Message>, before: nat)
    ensures forall m :: m in Older(log, before) ==> m.id < before
  {
    if log != [] { OlderIsOlder(log[..|log| - 1], before); }
  }

  lemma SplitBehind(log: seq<Message>, q: nat)
    requires Increasing(log) && 0 < q <= |log|
    ensures SplitsAt(log, log[q - 1].id + 1, q)
  {
  }

  /** Beyond the last message of a stretch stands exactly what follows it. */
  lemma NewerThanStretch(log: seq<Message>, p: nat, q: nat)
    requires Increasing(log) && p < q <= |log|
    ensures Newer(log, log[p..q][q - p - 1].id) == log[q..]
  {
    var last := log[q - 1];
    assert log[p..q][q - p - 1] == last;
    SplitBehind(log, q);
    hide Newer, SplitsAt, Increasing;
    NewerIsSuffix(log, last.id, q);
  }

  lemma FewAreStretch(log: seq<Message>, p: nat, limit: Option<nat>) returns (q: nat)
    requires p <= |log| && (limit.Some? ==> limit.value >= 1)
    ensures p <= q <= |log| && FirstFew(log[p..], limit) == log[p..q] && (p == q ==> p == |log|)
  {
    q := p + |FirstFew(log[p..], limit)|;
    assert log[p..][..q - p] == log[p..q];
    assert log[p..][..|log| - p] == log[p..];
  }

  /** A forward read continued from its own `next_since_id` leaves nothing out and repeats nothing. */
  lemma ForwardReadsCompose(log: seq<Message>, since: nat, limit: Option<nat>)
    requires Increasing(log) && (limit.Some? ==> limit.value >= 1)
    ensures var page := GetMessages(log, since, None, limit);
            Newer(log, since) == page.messages + Newer(log, page.nextSinceId)
  {
    hide Newer, FirstFew, SplitsAt;
    var p := SplitPoint(log, since + 1);
    NewerIsSuffix(log, since, p);
    var q := FewAreStretch(log, p, limit);
    if p == q {
      assert log[p..q] == [] && [] + log[p..] == log[p..];
    } else {
      NewerThanStretch(log, p, q);
      assert log[p..] == log[p..q] + log[q..];
    }
  }

  lemma {:induction false} SplitPoint(log: seq<Message>, id: nat) returns (p: nat)
    requires Increasing(log)
    ensures SplitsAt(log, id, p)
    decreases |log|
  {
    if log == [] || log[|log| - 1].id < id {
      p := |log|;
    } else {
      p := SplitPoint(log[..|log| - 1], id);
    }
  }
}
