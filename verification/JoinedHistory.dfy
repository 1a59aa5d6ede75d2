/**
 The bounded offline copy of a room's history (src/storage/joined-history-store.ts): the
 merge of a batch, the two count caps, the byte cap and the cursor.

 What every stored string goes through is a parameter where nothing depends on it, and
 `SnapshotRedaction.Redact` where it does: stored messages are redacted again by each
 further record, which leaves the text alone only when it is settled.
 */
module JoinedHistory {
  import opened Collections
  import opened JsonSize
  import opened SnapshotRedaction

  const SNAPSHOT_MAX_MESSAGES := 250
  const SNAPSHOT_MAX_FORUM_POSTS := 50
  const SNAPSHOT_MAX_COMMENTS_PER_POST := 100
  const SNAPSHOT_MAX_BYTES := 200_000

  datatype Message = Message(id: int, from: Text, ts: Text, kind: Text, text: Text)

  datatype Comment = Comment(id: Text, author: Text, ts: Text, body: Text)

  datatype Post = Post(id: Text, channel: Text, title: Text, author: Text, ts: Text, status: Text, body: Text, comments: seq<Comment>)

  datatype Snapshot = Snapshot(
    roomId: Text, baseUrl: Text, cursor: int, savedAt: Text, messages: seq<Message>, posts: seq<Post>)

  type Redaction = Text -> Text

  /** What the byte cap relies on; `SnapshotRedaction.Redact` promises it. */
  ghost predicate Caps(redact: Redaction) {
    forall t :: |redact(t)| <= SNAPSHOT_MAX_TEXT_CHARS
  }

  /** The text as it was handed in. */
  const RAW: Redaction := (t: Text) => t

  // ---- merging messages ----

  function Redacted(m: Message, redact: Redaction): Message {
    Message(m.id, redact(m.from), redact(m.ts), redact(m.kind), redact(m.text))
  }

  ghost predicate Ascending(ms: seq<Message>) {
    forall i, j :: 0 <= i < j < |ms| ==> ms[i].id < ms[j].id
  }

  /** Put one message into an ascending list, replacing the one that has its id. */
  function Inserted(ms: seq<Message>, m: Message): seq<Message> {
    if ms == [] then [m]
    else
      var front, last := ms[..|ms| - 1], ms[|ms| - 1];
      if m.id > last.id then ms + [m]
      else if m.id == last.id then front + [m]
      else Inserted(front, m) + [last]
  }

  /** The later of two messages with one id wins; ids end up strictly ascending. */
  function InsertedAll(ms: seq<Message>, batch: seq<Message>, redact: Redaction): seq<Message>
    decreases |batch|
  {
    if batch == [] then ms else InsertedAll(Inserted(ms, Redacted(batch[0], redact)), batch[1..], redact)
  }

  /** `mergeMessages` */
  function Merged(current: seq<Message>, incoming: seq<Message>, redact: Redaction): seq<Message> {
    InsertedAll([], current + incoming, redact)
  }

  function Newest<T>(s: seq<T>, n: nat): seq<T> {
    if |s| > n then s[|s| - n..] else s
  }

  lemma InsertedSnoc(front: seq<Message>, last: Message, m: Message)
    ensures Inserted(front + [last], m) ==
            if m.id > last.id then front + [last] + [m] else if m.id == last.id then front + [m] else Inserted(front, m) + [last]
  {
    assert (front + [last])[..|front|] == front;
  }

  lemma AscendingSnoc(ms: seq<Message>, last: Message)
    requires Ascending(ms) && forall x :: x in ms ==> x.id < last.id
    ensures Ascending(ms + [last])
  {
  }

  lemma AscendingFront(ms: seq<Message>)
    requires Ascending(ms) && ms != []
    ensures Ascending(ms[..|ms| - 1]) && (forall x :: x in ms[..|ms| - 1] ==> x in ms && x.id < ms[|ms| - 1].id)
  {
  }

  lemma {:induction false} InsertedKeeps(ms: seq<Message>, m: Message)
    requires Ascending(ms)
    ensures Ascending(Inserted(ms, m)) && Inserted(ms, m) != []
    ensures forall x :: x in Inserted(ms, m) ==> x == m || x in ms
  {
    if ms != [] {
      var front, last := ms[..|ms| - 1], ms[|ms| - 1];
      assert ms == front + [last];
      AscendingFront(ms);
      if m.id > last.id {
        AscendingSnoc(ms, m);
      } else if m.id == last.id {
        AscendingSnoc(front, m);
      } else {
        InsertedKeeps(front, m);
        AscendingSnoc(Inserted(front, m), last);
      }
    }
  }

  function Find(ms: seq<Message>, id: int): Option<Message> {
    if ms == [] then None
    else if ms[|ms| - 1].id == id then Some(ms[|ms| - 1])
    else Find(ms[..|ms| - 1], id)
  }

  lemma {:induction false} FindNone(ms: seq<Message>, id: int)
    requires forall x :: x in ms ==> x.id != id
    ensures Find(ms, id) == None
  {
    if ms != [] {
      assert ms[|ms| - 1] in ms;
      FindNone(ms[..|ms| - 1], id);
    }
  }

  /** Last write wins, and nothing else moves. */
  lemma {:induction false} FindInserted(ms: seq<Message>, m: Message, id: int)
    requires Ascending(ms)
    ensures Find(Inserted(ms, m), id) == if id == m.id then Some(m) else Find(ms, id)
  {
    if ms != [] {
      var front, last := ms[..|ms| - 1], ms[|ms| - 1];
      AscendingFront(ms);
      if m.id == last.id {
        assert (front + [m])[..|front|] == front;
      } else if m.id < last.id {
        FindInserted(front, m, id);
        assert (Inserted(front, m) + [last])[..|Inserted(front, m)|] == Inserted(front, m);
      }
    }
  }

  lemma {:induction false} InsertedAllKeeps(ms: seq<Message>, batch: seq<Message>, redact: Redaction)
    requires Ascending(ms)
    ensures Ascending(InsertedAll(ms, batch, redact))
    decreases |batch|
  {
    if batch != [] {
      InsertedKeeps(ms, Redacted(batch[0], redact));
      InsertedAllKeeps(Inserted(ms, Redacted(batch[0], redact)), batch[1..], redact);
    }
  }

  lemma {:induction false} InsertedAllConcat(ms: seq<Message>, a: seq<Message>, b: seq<Message>, redact: Redaction)
    ensures InsertedAll(ms, a + b, redact) == InsertedAll(InsertedAll(ms, a, redact), b, redact)
    decreases |a|
  {
    if a == [] {
      assert a + b == b;
    } else {
      assert (a + b)[1..] == a[1..] + b;
      InsertedAllConcat(Inserted(ms, Redacted(a[0], redact)), a[1..], b, redact);
    }
  }

  lemma NewestSnoc<T>(s: seq<T>, x: T, n: nat)
    requires n >= 1
    ensures Newest(s + [x], n) == Newest(s, n - 1) + [x]
  {
  }

  lemma NewestOfNewest<T>(s: seq<T>, m: nat, n: nat)
    requires m <= n
    ensures Newest(Newest(s, n), m) == Newest(s, m)
    ensures Newest(s, 0) == []
  {
  }

  lemma CapThenInsertBelow(front: seq<Message>, last: Message, m: Message, n: nat)
    requires n >= 1 && m.id < last.id
    requires Newest(Inserted(Newest(front, n - 1), m), n - 1) == Newest(Inserted(front, m), n - 1)
    ensures Newest(Inserted(Newest(front, n - 1) + [last], m), n) == Newest(Inserted(front + [last], m), n)
  {
    hide Inserted, Newest;
    var kept := Newest(front, n - 1);
    InsertedSnoc(front, last, m);
    InsertedSnoc(kept, last, m);
    NewestSnoc(Inserted(front, m), last, n);
    NewestSnoc(Inserted(kept, m), last, n);
  }

  lemma CapThenInsertAbove(front: seq<Message>, last: Message, m: Message, n: nat)
    requires n >= 1 && m.id >= last.id
    ensures Newest(Inserted(Newest(front, n - 1) + [last], m), n) == Newest(Inserted(front + [last], m), n)
  {
    hide Inserted, Newest;
    var kept := Newest(front, n - 1);
    InsertedSnoc(front, last, m);
    InsertedSnoc(kept, last, m);
    NewestOfNewest(front, n - 1, n - 1);
    if m.id > last.id {
      NewestSnoc(front + [last], m, n);
      NewestSnoc(kept + [last], m, n);
      NewestSnoc(front, last, n);
      NewestOfNewest(front + [last], n - 1, n);
    } else {
      NewestSnoc(front, m, n);
      NewestSnoc(kept, m, n);
    }
  }

  lemma NewestNone<T>(s: seq<T>)
    ensures Newest(s, 0) == []
  {
  }

  /** What a cap of `n` dropped cannot come back into the newest `n`. */
  lemma {:induction false} CapThenInsert(ms: seq<Message>, m: Message, n: nat)
    requires n >= 1
    ensures Newest(Inserted(Newest(ms, n), m), n) == Newest(Inserted(ms, m), n)
  {
    assert |ms| <= n ==> Newest(ms, n) == ms;
    hide Inserted, Newest;
    if |ms| > n {
      var front, last := ms[..|ms| - 1], ms[|ms| - 1];
      assert ms == front + [last];
      NewestSnoc(front, last, n);
      if m.id >= last.id {
        CapThenInsertAbove(front, last, m, n);
      } else {
        if n > 1 {
          CapThenInsert(front, m, n - 1);
        } else {
          NewestNone(Inserted(front, m));
          NewestNone(Inserted(Newest(front, 0), m));
        }
        CapThenInsertBelow(front, last, m, n);
      }
    }
  }

  lemma {:induction false} CapThenInsertAll(ms: seq<Message>, batch: seq<Message>, n: nat, redact: Redaction)
    requires Ascending(ms) && n >= 1
    ensures Newest(InsertedAll(Newest(ms, n), batch, redact), n) == Newest(InsertedAll(ms, batch, redact), n)
    decreases |batch|
  {
    if batch != [] {
      var m := Redacted(batch[0], redact);
      InsertedKeeps(ms, m);
      NewestAscends(ms, n);
      InsertedKeeps(Newest(ms, n), m);
      CapThenInsertAll(Inserted(Newest(ms, n), m), batch[1..], n, redact);
      CapThenInsert(ms, m, n);
      CapThenInsertAll(Inserted(ms, m), batch[1..], n, redact);
    }
  }

  lemma NewestAscends(ms: seq<Message>, n: nat)
    requires Ascending(ms)
    ensures Ascending(Newest(ms, n))
  {
  }

  ghost predicate FromRedaction(m: Message, redact: Redaction) {
    exists x :: m == Redacted(x, redact)
  }

  ghost predicate AllRedacted(ms: seq<Message>, redact: Redaction) {
    forall i :: 0 <= i < |ms| ==> FromRedaction(ms[i], redact)
  }

  function RedactedEach(ms: seq<Message>, redact: Redaction): (r: seq<Message>)
    ensures |r| == |ms| && forall i :: 0 <= i < |ms| ==> r[i] == Redacted(ms[i], redact)
  {
    seq(|ms|, i requires 0 <= i < |ms| => Redacted(ms[i], redact))
  }

  /** Merging over an ascending stored list starts from that list redacted once more. */
  lemma {:induction false} RebuildsRedacted(ms: seq<Message>, redact: Redaction)
    requires Ascending(ms)
    ensures InsertedAll([], ms, redact) == RedactedEach(ms, redact)
  {
    if ms != [] {
      var front, last := ms[..|ms| - 1], ms[|ms| - 1];
      assert ms == front + [last];
      RebuildsRedacted(front, redact);
      InsertedAllConcat([], front, [last], redact);
      assert [last][1..] == [];
      assert RedactedEach(ms, redact) == RedactedEach(front, redact) + [Redacted(last, redact)];
    }
  }

  lemma {:induction false} InsertedAllRedacts(ms: seq<Message>, batch: seq<Message>, redact: Redaction)
    requires Ascending(ms) && AllRedacted(ms, redact)
    ensures AllRedacted(InsertedAll(ms, batch, redact), redact)
    decreases |batch|
  {
    hide FromRedaction;
    if batch != [] {
      var m := Redacted(batch[0], redact);
      assert FromRedaction(m, redact) by { RedactedIsFrom(batch[0], redact); }
      InsertedKeeps(ms, m);
      var next := Inserted(ms, m);
      forall i | 0 <= i < |next| ensures FromRedaction(next[i], redact) {
        assert next[i] in next;
      }
      InsertedAllRedacts(next, batch[1..], redact);
    }
  }

  lemma RedactedIsFrom(m: Message, redact: Redaction)
    ensures FromRedaction(Redacted(m, redact), redact)
  {
  }

  /** The messages of a record call when the byte cap does not act. */
  function Kept(current: seq<Message>, batch: seq<Message>, redact: Redaction): seq<Message> {
    Newest(Merged(current, batch, redact), SNAPSHOT_MAX_MESSAGES)
  }

  lemma KeptAscends(current: seq<Message>, batch: seq<Message>, redact: Redaction)
    ensures Ascending(Kept(current, batch, redact)) && |Kept(current, batch, redact)| <= SNAPSHOT_MAX_MESSAGES
  {
    InsertedAllKeeps([], current + batch, redact);
  }

  lemma MergeOverAscending(stored: seq<Message>, batch: seq<Message>, redact: Redaction)
    requires Ascending(stored)
    ensures Merged(stored, batch, redact) == InsertedAll(RedactedEach(stored, redact), batch, redact)
  {
    InsertedAllConcat([], stored, batch, redact);
    RebuildsRedacted(stored, redact);
  }

  lemma MergeConcat(current: seq<Message>, a: seq<Message>, b: seq<Message>, redact: Redaction)
    ensures Merged(current, a + b, redact) == InsertedAll(Merged(current, a, redact), b, redact)
  {
    assert (current + a) + b == current + (a + b);
    InsertedAllConcat([], current + a, b, redact);
  }

  /** Without redaction two batches, one after the other or as one, keep the same messages. */
  lemma RawBatchesCompose(current: seq<Message>, a: seq<Message>, b: seq<Message>)
    ensures Kept(Kept(current, a, RAW), b, RAW) == Kept(current, a + b, RAW)
  {
    var merged, kept := Merged(current, a, RAW), Kept(current, a, RAW);
    assert Ascending(merged) by { InsertedAllKeeps([], current + a, RAW); }
    KeptAscends(current, a, RAW);
    MergeOverAscending(kept, b, RAW);
    assert RedactedEach(kept, RAW) == kept;
    hide Merged, Newest, Ascending;
    CapThenInsertAll(merged, b, SNAPSHOT_MAX_MESSAGES, RAW);
    MergeConcat(current, a, b, RAW);
  }

  // ---- batches one after another ----

  function KeptAll(current: seq<Message>, batches: seq<seq<Message>>, redact: Redaction): seq<Message> {
    if batches == [] then current
    else Kept(KeptAll(current, batches[..|batches| - 1], redact), batches[|batches| - 1], redact)
  }

  function Concat(batches: seq<seq<Message>>): seq<Message> {
    if batches == [] then [] else Concat(batches[..|batches| - 1]) + batches[|batches| - 1]
  }

  /** What survives of all that was stored and handed in, each message as it was written last. */
  function Survivors(current: seq<Message>, batches: seq<seq<Message>>): seq<Message> {
    Kept(current, Concat(batches), RAW)
  }

  function IdsOf(ms: seq<Message>): set<int> {
    set m | m in ms :: m.id
  }

  /** Redacting the message's fields again changes none of them. */
  ghost predicate SettledMessage(m: Message, redact: Redaction) {
    Redacted(Redacted(m, redact), redact) == Redacted(m, redact)
  }

  /** Whatever survives from before the last batch is settled. */
  ghost predicate OlderAreSettled(current: seq<Message>, batches: seq<seq<Message>>, redact: Redaction)
    requires batches != []
  {
    forall m :: m in Survivors(current, batches) && m.id !in IdsOf(batches[|batches| - 1]) ==> SettledMessage(m, redact)
  }

  function RedactedOver(m: Message, n: nat, redact: Redaction): Message {
    Message(m.id, Times(redact, m.from, n), Times(redact, m.ts, n), Times(redact, m.kind, n), Times(redact, m.text, n))
  }

  lemma OnceMore(m: Message, n: nat, redact: Redaction)
    ensures Redacted(RedactedOver(m, n, redact), redact) == RedactedOver(m, n + 1, redact)
    ensures RedactedOver(m, 0, redact) == m
  {
  }

  /** The message was redacted once, if it came late, and more than once if not. */
  ghost predicate Stands(x: Message, raw: Message, late: bool, redact: Redaction) {
    if late then x == RedactedOver(raw, 1, redact) else exists n :: n >= 2 && x == RedactedOver(raw, n, redact)
  }

  ghost predicate StandFor(ms: seq<Message>, raws: seq<Message>, late: set<int>, redact: Redaction) {
    |ms| == |raws| && forall i :: 0 <= i < |ms| ==> ms[i].id == raws[i].id && Stands(ms[i], raws[i], raws[i].id in late, redact)
  }

  lemma StandSnoc(ms: seq<Message>, raws: seq<Message>, x: Message, raw: Message, late: set<int>, redact: Redaction)
    requires StandFor(ms, raws, late, redact) && x.id == raw.id && Stands(x, raw, raw.id in late, redact)
    ensures StandFor(ms + [x], raws + [raw], late, redact)
  {
    hide Stands;
  }

  lemma StandFront(ms: seq<Message>, raws: seq<Message>, late: set<int>, redact: Redaction)
    requires StandFor(ms, raws, late, redact) && ms != []
    ensures StandFor(ms[..|ms| - 1], raws[..|raws| - 1], late, redact)
  {
    hide Stands;
  }

  /** Ids that do not occur may count as late. */
  lemma StandWider(ms: seq<Message>, raws: seq<Message>, late: set<int>, id: int, redact: Redaction)
    requires StandFor(ms, raws, late, redact) && forall m :: m in raws ==> m.id != id
    ensures StandFor(ms, raws, late + {id}, redact)
  {
    hide Stands;
    forall i | 0 <= i < |ms| ensures Stands(ms[i], raws[i], raws[i].id in late + {id}, redact) {
      assert raws[i] in raws;
    }
  }

  lemma StandLast(ms: seq<Message>, raws: seq<Message>, late: set<int>, redact: Redaction)
    requires StandFor(ms, raws, late, redact) && ms != []
    ensures raws != []
    ensures var x, raw := ms[|ms| - 1], raws[|raws| - 1]; x.id == raw.id && Stands(x, raw, raw.id in late, redact)
  {
    hide Stands;
  }

  lemma BelowLast(raws: seq<Message>, id: int)
    requires Ascending(raws) && raws != [] && id > raws[|raws| - 1].id
    ensures forall m :: m in raws ==> m.id != id
  {
    AscendingFront(raws);
    assert raws == raws[..|raws| - 1] + [raws[|raws| - 1]];
  }

  /** The last of the list stays behind what is inserted before it. */
  lemma LastStillStands(x: Message, raw: Message, late: set<int>, id: int, redact: Redaction)
    requires Stands(x, raw, raw.id in late, redact) && raw.id != id
    ensures Stands(x, raw, raw.id in late + {id}, redact)
  {
  }

  /** The message inserted at the end, behind smaller ids. */
  lemma EndStands(ms: seq<Message>, raws: seq<Message>, m: Message, late: set<int>, redact: Redaction)
    requires StandFor(ms, raws, late, redact) && forall y :: y in raws ==> y.id != m.id
    ensures StandFor(ms + [Redacted(m, redact)], raws + [m], late + {m.id}, redact)
  {
    OnceMore(m, 0, redact);
    assert Stands(Redacted(m, redact), m, true, redact);
    StandWider(ms, raws, late, m.id, redact);
    hide Stands, StandFor;
    assert m.id in late + {m.id};
    StandSnoc(ms, raws, Redacted(m, redact), m, late + {m.id}, redact);
  }

  /** The last message, kept behind one inserted before it. */
  lemma BehindStands(ms: seq<Message>, raws: seq<Message>, x: Message, raw: Message, late: set<int>, id: int, redact: Redaction)
    requires StandFor(ms, raws, late + {id}, redact) && raw.id != id && x.id == raw.id && Stands(x, raw, raw.id in late, redact)
    ensures StandFor(ms + [x], raws + [raw], late + {id}, redact)
  {
    LastStillStands(x, raw, late, id, redact);
    hide Stands, StandFor;
    StandSnoc(ms, raws, x, raw, late + {id}, redact);
  }

  lemma {:induction false} InsertedStands(ms: seq<Message>, raws: seq<Message>, m: Message, late: set<int>, redact: Redaction)
    requires Ascending(raws) && StandFor(ms, raws, late, redact)
    ensures StandFor(Inserted(ms, Redacted(m, redact)), Inserted(raws, m), late + {m.id}, redact)
    decreases |raws|
  {
    hide Stands;
    if raws == [] {
      EndStands([], [], m, late, redact);
      assert [] + [m] == [m] && [] + [Redacted(m, redact)] == [Redacted(m, redact)];
    } else {
      StandLast(ms, raws, late, redact);
      var front, last := raws[..|raws| - 1], raws[|raws| - 1];
      var msFront, msLast := ms[..|ms| - 1], ms[|ms| - 1];
      AscendingFront(raws);
      StandFront(ms, raws, late, redact);
      hide StandFor, Ascending;
      if m.id > last.id {
        BelowLast(raws, m.id);
        EndStands(ms, raws, m, late, redact);
      } else if m.id == last.id {
        EndStands(msFront, front, m, late, redact);
      } else {
        InsertedStands(msFront, front, m, late, redact);
        BehindStands(Inserted(msFront, Redacted(m, redact)), Inserted(front, m), msLast, last, late, m.id, redact);
      }
    }
  }

  lemma {:induction false} InsertedAllStands(ms: seq<Message>, raws: seq<Message>, batch: seq<Message>, late: set<int>, redact: Redaction)
    requires Ascending(raws) && StandFor(ms, raws, late, redact)
    ensures StandFor(InsertedAll(ms, batch, redact), InsertedAll(raws, batch, RAW), late + IdsOf(batch), redact)
    decreases |batch|
  {
    hide StandFor, Inserted;
    if batch == [] {
      assert late + IdsOf(batch) == late;
    } else {
      var m := batch[0];
      assert Redacted(m, RAW) == m;
      InsertedStands(ms, raws, m, late, redact);
      InsertedKeeps(raws, m);
      InsertedAllStands(Inserted(ms, Redacted(m, redact)), Inserted(raws, m), batch[1..], late + {m.id}, redact);
      IdsOfCons(batch);
      assert late + {m.id} + IdsOf(batch[1..]) == late + IdsOf(batch);
    }
  }

  lemma IdsOfCons(batch: seq<Message>)
    requires batch != []
    ensures IdsOf(batch) == {batch[0].id} + IdsOf(batch[1..])
  {
    assert batch == [batch[0]] + batch[1..];
  }

  lemma NewestStands(ms: seq<Message>, raws: seq<Message>, late: set<int>, n: nat, redact: Redaction)
    requires StandFor(ms, raws, late, redact)
    ensures StandFor(Newest(ms, n), Newest(raws, n), late, redact)
  {
    hide Stands;
  }

  lemma RedactedAgainStands(ms: seq<Message>, raws: seq<Message>, late: set<int>, redact: Redaction)
    requires StandFor(ms, raws, late, redact)
    ensures StandFor(RedactedEach(ms, redact), raws, {}, redact)
  {
    forall i | 0 <= i < |ms| ensures Stands(Redacted(ms[i], redact), raws[i], false, redact) {
      var n :| n >= 1 && ms[i] == RedactedOver(raws[i], n, redact);
      OnceMore(raws[i], n, redact);
    }
  }

  lemma SameIdsAscend(ms: seq<Message>, raws: seq<Message>, late: set<int>, redact: Redaction)
    requires StandFor(ms, raws, late, redact)
    ensures Ascending(ms) <==> Ascending(raws)
  {
    hide Stands;
  }

  /** One record over messages that already stand: those of its batch are redacted once, all others once more. */
  lemma RecordStands(ms: seq<Message>, raws: seq<Message>, late: set<int>, batch: seq<Message>, redact: Redaction)
    requires StandFor(ms, raws, late, redact) && Ascending(raws)
    ensures StandFor(Kept(ms, batch, redact), Kept(raws, batch, RAW), IdsOf(batch), redact)
  {
    SameIdsAscend(ms, raws, late, redact);
    MergeOverAscending(ms, batch, redact);
    MergeOverAscending(raws, batch, RAW);
    assert RedactedEach(raws, RAW) == raws;
    hide StandFor, Merged, Ascending;
    RedactedAgainStands(ms, raws, late, redact);
    InsertedAllStands(RedactedEach(ms, redact), raws, batch, {}, redact);
    assert {} + IdsOf(batch) == IdsOf(batch);
    NewestStands(Merged(ms, batch, redact), Merged(raws, batch, RAW), IdsOf(batch), SNAPSHOT_MAX_MESSAGES, redact);
  }

  /** In one record everything is redacted once. */
  lemma OneRecordStands(current: seq<Message>, batch: seq<Message>, redact: Redaction)
    ensures StandFor(Kept(current, batch, redact), Kept(current, batch, RAW), IdsOf(current + batch), redact)
    ensures IdsOf(Kept(current, batch, RAW)) <= IdsOf(current + batch)
  {
    assert StandFor([], [], {}, redact);
    hide StandFor;
    InsertedAllStands([], [], current + batch, {}, redact);
    assert {} + IdsOf(current + batch) == IdsOf(current + batch);
    NewestStands(Merged(current, batch, redact), Merged(current, batch, RAW), IdsOf(current + batch), SNAPSHOT_MAX_MESSAGES, redact);
    InsertedAllIds([], current + batch);
  }

  lemma {:induction false} InsertedAllIds(ms: seq<Message>, batch: seq<Message>)
    requires Ascending(ms)
    ensures IdsOf(InsertedAll(ms, batch, RAW)) <= IdsOf(ms) + IdsOf(batch)
    decreases |batch|
  {
    if batch != [] {
      var m := batch[0];
      assert Redacted(m, RAW) == m;
      InsertedKeeps(ms, m);
      IdsOfCons(batch);
      InsertedAllIds(Inserted(ms, m), batch[1..]);
    }
  }

  /** After two or more records, one after another, the last batch was redacted once and all else more often. */
  lemma {:induction false} BatchesStand(current: seq<Message>, batches: seq<seq<Message>>, redact: Redaction) returns (late: set<int>)
    requires batches != []
    ensures StandFor(KeptAll(current, batches, redact), Survivors(current, batches), late, redact)
    ensures |batches| >= 2 ==> late == IdsOf(batches[|batches| - 1])
    ensures Ascending(Survivors(current, batches))
  {
    hide StandFor, Kept;
    var front, last := batches[..|batches| - 1], batches[|batches| - 1];
    KeptAscends(current, Concat(batches), RAW);
    if front == [] {
      assert Concat(batches) == last by { assert Concat(front) == [] && [] + last == last; }
      assert KeptAll(current, batches, redact) == Kept(KeptAll(current, front, redact), last, redact);
      assert KeptAll(current, front, redact) == current;
      OneRecordStands(current, last, redact);
      late := IdsOf(current + last);
    } else {
      late := BatchesStand(current, front, redact);
      RecordStands(KeptAll(current, front, redact), Survivors(current, front), late, last, redact);
      RawBatchesCompose(current, Concat(front), last);
      late := IdsOf(last);
    }
  }

  /** A text that a second redaction changes never comes back, as `ComesBackExactly` proves of the source's own. */
  ghost predicate FinalOrGone(redact: Redaction) {
    forall t, n :: n >= 2 ==> (Times(redact, t, n) == redact(t) <==> redact(redact(t)) == redact(t))
  }

  lemma RedactIsFinalOrGone()
    ensures FinalOrGone(Redact)
  {
    hide Redact;
    forall t, n | n >= 2 ensures Times(Redact, t, n) == Redact(t) <==> Redact(Redact(t)) == Redact(t) {
      ComesBackExactly(t, n);
    }
  }

  lemma OverExactly(m: Message, n: nat, redact: Redaction)
    requires n >= 2 && FinalOrGone(redact)
    ensures RedactedOver(m, n, redact) == RedactedOver(m, 1, redact) <==> SettledMessage(m, redact)
  {
    OnceMore(m, 0, redact);
    assert RedactedOver(m, 1, redact) == Redacted(m, redact);
  }

  /** Two ways of standing for the same messages agree exactly when the ones that differ in lateness are settled. */
  lemma StandingsAgree(ms: seq<Message>, once: seq<Message>, raws: seq<Message>, late: set<int>, all: set<int>, redact: Redaction)
    requires StandFor(ms, raws, late, redact) && StandFor(once, raws, all, redact) && IdsOf(raws) <= all && FinalOrGone(redact)
    ensures ms == once <==> forall m :: m in raws && m.id !in late ==> SettledMessage(m, redact)
  {
    hide SettledMessage, RedactedOver, FinalOrGone;
    forall i | 0 <= i < |raws| ensures ms[i] == once[i] <==> raws[i].id in late || SettledMessage(raws[i], redact) {
      assert raws[i] in raws && raws[i].id in IdsOf(raws);
      if raws[i].id !in late {
        var n :| n >= 2 && ms[i] == RedactedOver(raws[i], n, redact);
        OverExactly(raws[i], n, redact);
      }
    }
    if ms == once {
      forall m | m in raws && m.id !in late ensures SettledMessage(m, redact) {
        var i :| 0 <= i < |raws| && raws[i] == m;
        assert ms[i] == once[i];
      }
    }
  }

  ghost predicate SameIds(a: seq<Message>, b: seq<Message>) {
    |a| == |b| && forall i :: 0 <= i < |a| ==> a[i].id == b[i].id
  }

  /**
   Recording batches one at a time always keeps the ids that recording their concatenation at
   once keeps, the newest 250 in ascending order. It keeps the same texts exactly when every
   survivor that came before the last batch is settled: any other is redacted again.
   */
  lemma BatchesAgreeExactly(current: seq<Message>, batches: seq<seq<Message>>, redact: Redaction)
    requires |batches| >= 2 && FinalOrGone(redact)
    ensures SameIds(KeptAll(current, batches, redact), Kept(current, Concat(batches), redact))
    ensures Ascending(KeptAll(current, batches, redact))
    ensures KeptAll(current, batches, redact) == Kept(current, Concat(batches), redact) <==> OlderAreSettled(current, batches, redact)
  {
    var ms, once, raws := KeptAll(current, batches, redact), Kept(current, Concat(batches), redact), Survivors(current, batches);
    var late, all := IdsOf(batches[|batches| - 1]), IdsOf(current + Concat(batches));
    var _ := BatchesStand(current, batches, redact);
    OneRecordStands(current, Concat(batches), redact);
    hide KeptAll, Kept, Concat, SettledMessage, FinalOrGone;
    SameIdsAscend(ms, raws, late, redact);
    StandingsAgree(ms, once, raws, late, all, redact);
    StandSameIds(ms, once, raws, late, all, redact);
  }

  lemma StandSameIds(a: seq<Message>, b: seq<Message>, raws: seq<Message>, late: set<int>, all: set<int>, redact: Redaction)
    requires StandFor(a, raws, late, redact) && StandFor(b, raws, all, redact)
    ensures SameIds(a, b)
  {
    hide Stands;
  }

  /** So it is with the source's redaction. */
  lemma BatchIndependence(current: seq<Message>, batches: seq<seq<Message>>)
    requires |batches| >= 2
    ensures SameIds(KeptAll(current, batches, Redact), Kept(current, Concat(batches), Redact))
    ensures Ascending(KeptAll(current, batches, Redact))
    ensures KeptAll(current, batches, Redact) == Kept(current, Concat(batches), Redact) <==> OlderAreSettled(current, batches, Redact)
  {
    RedactIsFinalOrGone();
    hide Redact, FinalOrGone, KeptAll, Kept, OlderAreSettled;
    BatchesAgreeExactly(current, batches, Redact);
  }

  lemma PairOfBatches(current: seq<Message>, a: seq<Message>, b: seq<Message>, redact: Redaction)
    ensures var batches := [a, b];
      KeptAll(current, batches, redact) == Kept(Kept(current, a, redact), b, redact) && Concat(batches) == a + b
  {
    var batches := [a, b];
    assert batches[..1] == [a] && [a][..0] == [];
    hide Kept;
    assert Concat([]) == [] && Concat([a]) == [] + a == a && Concat(batches) == a + b;
    assert KeptAll(current, [], redact) == current && KeptAll(current, [a], redact) == Kept(current, a, redact);
  }

  /** The same for two batches, spelled out. */
  lemma TwoBatchesAreOne(current: seq<Message>, a: seq<Message>, b: seq<Message>)
    ensures Kept(Kept(current, a, Redact), b, Redact) == Kept(current, a + b, Redact) <==>
            forall m :: m in Kept(current, a + b, RAW) && m.id !in IdsOf(b) ==> SettledMessage(m, Redact)
  {
    hide Kept, Redact, SettledMessage, KeptAll, Concat;
    PairOfBatches(current, a, b, Redact);
    BatchIndependence(current, [a, b]);
  }

  /** Whatever the redaction: a stored message it changes again is changed by the next record, even one that brings nothing. */
  lemma EmptyBatchChangesText(m: Message, redact: Redaction)
    ensures KeptAll([], [[m], []], redact) == Kept([], Concat([[m], []]), redact) <==> SettledMessage(m, redact)
  {
    var once := Redacted(m, redact);
    PairOfBatches([], [m], [], redact);
    OnlyOne([], m, redact);
    OnlyOne([once], once, redact);
    hide KeptAll, Concat, Kept, Redacted;
    assert [m] + [] == [m];
    assert [once][0] == once && [Redacted(once, redact)][0] == Redacted(once, redact);
  }

  lemma OnlyOne(stored: seq<Message>, m: Message, redact: Redaction)
    ensures stored == [] ==> Kept(stored, [m], redact) == [Redacted(m, redact)]
    ensures stored == [m] ==> Kept(stored, [], redact) == [Redacted(m, redact)]
  {
    assert [] + [m] == [m] && [m] + [] == [m] && [m][1..] == [];
    assert InsertedAll([Redacted(m, redact)], [], redact) == [Redacted(m, redact)];
  }

  /** So it is with any message that says `token=&token=abc`. */
  lemma AdjacentParamsChange(m: Message)
    requires m.text == NAME + ([38] + (NAME + VALUE))
    ensures KeptAll([], [[m], []], Redact) != Kept([], Concat([[m], []]), Redact)
  {
    NotSettled();
    hide Redact, KeptAll, Kept;
    EmptyBatchChangesText(m, Redact);
  }

  // ---- forum posts ----

  function RedactedComment(c: Comment, redact: Redaction): Comment {
    Comment(redact(c.id), redact(c.author), redact(c.ts), redact(c.body))
  }

  function RedactedComments(cs: seq<Comment>, redact: Redaction): (r: seq<Comment>)
    ensures |r| == |cs| && forall i :: 0 <= i < |cs| ==> r[i] == RedactedComment(cs[i], redact)
  {
    seq(|cs|, i requires 0 <= i < |cs| => RedactedComment(cs[i], redact))
  }

  /** `Map.set` on an insertion-ordered map of posts. */
  function PutPost(posts: seq<Post>, post: Post): seq<Post> {
    if posts == [] then [post]
    else if posts[0].id == post.id then [post] + posts[1..]
    else [posts[0]] + PutPost(posts[1..], post)
  }

  function FindPost(posts: seq<Post>, id: Text): Option<Post> {
    if posts == [] then None else if posts[0].id == id then Some(posts[0]) else FindPost(posts[1..], id)
  }

  /** A re-load that carries no comments keeps the stored ones. */
  function Reloaded(posts: seq<Post>, post: Post, redact: Redaction): Post {
    var id := redact(post.id);
    var existing := FindPost(posts, id);
    var comments := if |post.comments| > 0 then post.comments else if existing.Some? then existing.value.comments else [];
    Post(id, redact(post.channel), redact(post.title), redact(post.author), redact(post.ts), redact(post.status), redact(post.body),
         RedactedComments(Newest(comments, SNAPSHOT_MAX_COMMENTS_PER_POST), redact))
  }

  function PutAll(posts: seq<Post>, more: seq<Post>): seq<Post>
    decreases |more|
  {
    if more == [] then posts else PutAll(PutPost(posts, more[0]), more[1..])
  }

  function ReloadAll(posts: seq<Post>, incoming: seq<Post>, redact: Redaction): seq<Post>
    decreases |incoming|
  {
    if incoming == [] then posts else ReloadAll(PutPost(posts, Reloaded(posts, incoming[0], redact)), incoming[1..], redact)
  }

  /** `mergeForumPosts` */
  function MergedPosts(current: seq<Post>, incoming: seq<Post>, redact: Redaction): seq<Post> {
    ReloadAll(PutAll([], current), incoming, redact)
  }

  ghost predicate DistinctPosts(posts: seq<Post>) {
    forall i, j :: 0 <= i < j < |posts| ==> posts[i].id != posts[j].id
  }

  lemma {:induction false} PutPostKeeps(posts: seq<Post>, post: Post)
    requires DistinctPosts(posts)
    ensures DistinctPosts(PutPost(posts, post)) && |posts| <= |PutPost(posts, post)| <= |posts| + 1
    ensures forall i :: 0 <= i < |posts| ==> PutPost(posts, post)[i] == if posts[i].id == post.id then post else posts[i]
    ensures |PutPost(posts, post)| == |posts| + 1 ==> PutPost(posts, post)[|posts|] == post
  {
    if posts != [] && posts[0].id != post.id {
      var tail := posts[1..];
      assert forall i :: 0 <= i < |tail| ==> tail[i] == posts[i + 1];
      PutPostKeeps(tail, post);
      var rest, next := PutPost(tail, post), PutPost(posts, post);
      assert next == [posts[0]] + rest;
      hide PutPost;
      assert forall i :: 0 < i < |next| ==> next[i] == rest[i - 1];
    }
  }

  /** Posts stay one per (redacted) id, and a re-load keeps the stored order. */
  lemma {:induction false} ReloadsKeepOrder(posts: seq<Post>, incoming: seq<Post>, redact: Redaction)
    requires DistinctPosts(posts)
    ensures var next := ReloadAll(posts, incoming, redact);
            && DistinctPosts(next) && |posts| <= |next|
            && (forall i :: 0 <= i < |posts| ==> next[i].id == posts[i].id)
    decreases |incoming|
  {
    if incoming != [] {
      var post := Reloaded(posts, incoming[0], redact);
      PutPostKeeps(posts, post);
      ReloadsKeepOrder(PutPost(posts, post), incoming[1..], redact);
    }
  }

  ghost predicate SettledComment(c: Comment) {
    Settled(c.id) && Settled(c.author) && Settled(c.ts) && Settled(c.body)
  }

  /**
   A re-load that brings no comments redacts the stored ones again: it keeps them exactly when
   each was written with settled fields.
   */
  lemma ReloadKeepsCommentsExactly(posts: seq<Post>, post: Post, written: seq<Comment>)
    requires post.comments == [] && |written| <= SNAPSHOT_MAX_COMMENTS_PER_POST
    requires var stored := FindPost(posts, Redact(post.id)); stored.Some? && stored.value.comments == RedactedComments(written, Redact)
    ensures Reloaded(posts, post, Redact).comments == RedactedComments(written, Redact)
            <==> forall i :: 0 <= i < |written| ==> SettledComment(written[i])
  {
    var stored := RedactedComments(written, Redact);
    var again := RedactedComments(stored, Redact);
    assert Reloaded(posts, post, Redact).comments == again;
    hide Redact, FindPost;
    forall i | 0 <= i < |written| ensures again[i] == stored[i] <==> SettledComment(written[i]) {
      assert stored[i] == RedactedComment(written[i], Redact) && again[i] == RedactedComment(stored[i], Redact);
    }
    if again == stored {
      forall i | 0 <= i < |written| ensures SettledComment(written[i]) { assert again[i] == stored[i]; }
    }
  }

  // ---- the byte cap ----

  function MessageJson(m: Message): Json {
    Obj([Prop(2, Num(m.id)), Prop(4, Str(m.from)), Prop(2, Str(m.ts)), Prop(4, Str(m.kind)), Prop(4, Str(m.text))])
  }

  function CommentJson(c: Comment): Json {
    Obj([Prop(2, Str(c.id)), Prop(6, Str(c.author)), Prop(2, Str(c.ts)), Prop(4, Str(c.body))])
  }

  function PostJson(p: Post): Json {
    Obj([Prop(2, Str(p.id)), Prop(7, Str(p.channel)), Prop(5, Str(p.title)), Prop(6, Str(p.author)), Prop(2, Str(p.ts)),
         Prop(6, Str(p.status)), Prop(4, Str(p.body)), Prop(8, Arr(seq(|p.comments|, i requires 0 <= i < |p.comments| => CommentJson(p.comments[i]))))])
  }

  function MessageItems(ms: seq<Message>): (items: seq<Json>)
    ensures |items| == |ms|
  {
    seq(|ms|, i requires 0 <= i < |ms| => MessageJson(ms[i]))
  }

  function PostItems(ps: seq<Post>): (items: seq<Json>)
    ensures |items| == |ps|
  {
    seq(|ps|, i requires 0 <= i < |ps| => PostJson(ps[i]))
  }

  function SnapshotJson(s: Snapshot): Json {
    Obj([Prop(6, Str(s.roomId)), Prop(7, Str(s.baseUrl)), Prop(6, Num(s.cursor)), Prop(7, Str(s.savedAt)),
         Prop(8, Arr(MessageItems(s.messages))), Prop(10, Arr(PostItems(s.posts)))])
  }

  /** Bytes of the file as written, trailing newline included. */
  function SerializedBytes(s: Snapshot): nat {
    Size(SnapshotJson(s), 0) + 1
  }

  /** `reduce` with `Math.max` from zero. */
  function MaxId(ms: seq<Message>): int {
    if ms == [] then 0
    else
      var rest := MaxId(ms[..|ms| - 1]);
      if ms[|ms| - 1].id > rest then ms[|ms| - 1].id else rest
  }

  function Trimmed(s: Snapshot): Snapshot
    decreases |s.messages| + |s.posts|
  {
    if SerializedBytes(s) > SNAPSHOT_MAX_BYTES && (|s.messages| > 1 || |s.posts| > 0) then
      Trimmed(if |s.posts| > 0 then s.(posts := s.posts[1..]) else s.(messages := s.messages[1..]))
    else s
  }

  /** `bound` */
  function Bounded(s: Snapshot): Snapshot {
    var counted := s.(messages := Newest(s.messages, SNAPSHOT_MAX_MESSAGES), posts := Newest(s.posts, SNAPSHOT_MAX_FORUM_POSTS));
    var trimmed := Trimmed(counted);
    trimmed.(cursor := MaxId(trimmed.messages))
  }

  /** The least the trimming loop can leave. */
  function Floor(s: Snapshot): Snapshot {
    s.(messages := Newest(s.messages, 1), posts := [])
  }

  ghost predicate IsSuffix<T>(a: seq<T>, b: seq<T>) {
    |a| <= |b| && a == b[|b| - |a|..]
  }

  lemma SnapshotSize(s: Snapshot)
    ensures SerializedBytes(s) ==
            Size(Str(s.roomId), 1) + Size(Str(s.baseUrl), 1) + Size(Num(s.cursor), 1) + Size(Str(s.savedAt), 1)
            + Size(Arr(MessageItems(s.messages)), 1) + Size(Arr(PostItems(s.posts)), 1) + 95
  {
    var p1, p2, p3 := Prop(6, Str(s.roomId)), Prop(7, Str(s.baseUrl)), Prop(6, Num(s.cursor));
    var p4, p5, p6 := Prop(7, Str(s.savedAt)), Prop(8, Arr(MessageItems(s.messages))), Prop(10, Arr(PostItems(s.posts)));
    assert SnapshotJson(s).props == [p1] + ([p2] + ([p3] + ([p4] + ([p5] + [p6]))));
    PropsOfOne(p6, 1);
    PropsOfCons(p5, [p6], 1);
    PropsOfCons(p4, [p5] + [p6], 1);
    PropsOfCons(p3, [p4] + ([p5] + [p6]), 1);
    PropsOfCons(p2, [p3] + ([p4] + ([p5] + [p6])), 1);
    PropsOfCons(p1, [p2] + ([p3] + ([p4] + ([p5] + [p6]))), 1);
  }

  // ---- what the trimming loop guarantees ----

  lemma TrimStepShrinks(s: Snapshot)
    requires |s.messages| > 1 || |s.posts| > 0
    ensures var next := if |s.posts| > 0 then s.(posts := s.posts[1..]) else s.(messages := s.messages[1..]);
            SerializedBytes(next) <= SerializedBytes(s) && Floor(next) == Floor(s)
  {
    var next := if |s.posts| > 0 then s.(posts := s.posts[1..]) else s.(messages := s.messages[1..]);
    SnapshotSize(s);
    SnapshotSize(next);
    if |s.posts| > 0 {
      assert PostItems(next.posts) == PostItems(s.posts)[1..];
      DropFirstShrinks(PostItems(s.posts), 1);
    } else {
      assert MessageItems(next.messages) == MessageItems(s.messages)[1..];
      DropFirstShrinks(MessageItems(s.messages), 1);
    }
  }

  lemma {:induction false} FloorIsLeast(s: Snapshot)
    ensures SerializedBytes(Floor(s)) <= SerializedBytes(s)
    decreases |s.messages| + |s.posts|
  {
    if |s.messages| > 1 || |s.posts| > 0 {
      TrimStepShrinks(s);
      FloorIsLeast(if |s.posts| > 0 then s.(posts := s.posts[1..]) else s.(messages := s.messages[1..]));
    }
  }

  lemma FloorOfLeast(s: Snapshot)
    ensures |s.messages| <= 1 && |s.posts| == 0 ==> Floor(s) == s
  {
  }

  /**
   The trimming loop keeps suffixes of messages and posts, drops a message only once every
   post is gone, keeps the newest message, and meets the cap exactly when the one-message
   floor does.
   */
  lemma TrimmingExactly(s: Snapshot)
    ensures var t := Trimmed(s);
            && IsSuffix(t.messages, s.messages) && IsSuffix(t.posts, s.posts)
            && (t.messages != s.messages ==> t.posts == [])
            && (s.messages != [] ==> t.messages != [])
            && t == s.(messages := t.messages, posts := t.posts)
            && (SerializedBytes(t) <= SNAPSHOT_MAX_BYTES <==> SerializedBytes(Floor(s)) <= SNAPSHOT_MAX_BYTES)
  {
    hide Trimmed, SerializedBytes;
    TrimmedKeepsSuffixes(s);
    TrimmedFitsExactly(s);
  }

  lemma SuffixOfTail<T>(a: seq<T>, s: seq<T>)
    ensures s != [] && IsSuffix(a, s[1..]) ==> IsSuffix(a, s)
    ensures IsSuffix(s, s)
    ensures s == [] && IsSuffix(a, s) ==> a == []
  {
    if s != [] && IsSuffix(a, s[1..]) {
      assert s[1..][|s| - 1 - |a|..] == s[|s| - |a|..];
    }
  }

  lemma {:induction false} TrimmedKeepsSuffixes(s: Snapshot)
    ensures var t := Trimmed(s);
            && IsSuffix(t.messages, s.messages) && IsSuffix(t.posts, s.posts)
            && (t.messages != s.messages ==> t.posts == [])
            && (s.messages != [] ==> t.messages != [])
            && t == s.(messages := t.messages, posts := t.posts)
    decreases |s.messages| + |s.posts|
  {
    hide SerializedBytes, Newest, IsSuffix;
    var t := Trimmed(s);
    SuffixOfTail(t.messages, s.messages);
    SuffixOfTail(t.posts, s.posts);
    if SerializedBytes(s) > SNAPSHOT_MAX_BYTES && (|s.messages| > 1 || |s.posts| > 0) {
      TrimmedKeepsSuffixes(if |s.posts| > 0 then s.(posts := s.posts[1..]) else s.(messages := s.messages[1..]));
    }
  }

  lemma {:induction false} TrimmedFitsExactly(s: Snapshot)
    ensures SerializedBytes(Trimmed(s)) <= SNAPSHOT_MAX_BYTES <==> SerializedBytes(Floor(s)) <= SNAPSHOT_MAX_BYTES
    decreases |s.messages| + |s.posts|
  {
    hide SerializedBytes, Newest;
    if SerializedBytes(s) > SNAPSHOT_MAX_BYTES && (|s.messages| > 1 || |s.posts| > 0) {
      TrimStepShrinks(s);
      TrimmedFitsExactly(if |s.posts| > 0 then s.(posts := s.posts[1..]) else s.(messages := s.messages[1..]));
    } else {
      FloorIsLeast(s);
      FloorOfLeast(s);
    }
  }

  // ---- the cursor ----

  lemma {:induction false} MaxIdIsLast(ms: seq<Message>)
    requires Ascending(ms) && ms != []
    ensures MaxId(ms) == if ms[|ms| - 1].id > 0 then ms[|ms| - 1].id else 0
  {
    if |ms| > 1 { MaxIdIsLast(ms[..|ms| - 1]); }
  }

  lemma SuffixKeepsMaxId(a: seq<Message>, b: seq<Message>)
    requires Ascending(b) && IsSuffix(a, b) && (b != [] ==> a != [])
    ensures Ascending(a) && MaxId(a) == MaxId(b)
  {
    if b != [] {
      MaxIdIsLast(a);
      MaxIdIsLast(b);
    }
  }

  lemma {:induction false} InsertedAllKeepsMaxId(ms: seq<Message>, batch: seq<Message>, redact: Redaction)
    requires Ascending(ms)
    ensures MaxId(InsertedAll(ms, batch, redact)) >= MaxId(ms)
    decreases |batch|
  {
    if batch != [] {
      var m := Redacted(batch[0], redact);
      InsertedKeeps(ms, m);
      InsertedKeepsMaxId(ms, m);
      InsertedAllKeepsMaxId(Inserted(ms, m), batch[1..], redact);
    }
  }

  lemma InsertedKeepsMaxId(ms: seq<Message>, m: Message)
    requires Ascending(ms)
    ensures MaxId(Inserted(ms, m)) >= MaxId(ms)
  {
    if ms != [] {
      InsertedKeeps(ms, m);
      MaxIdIsLast(ms);
      MaxIdIsLast(Inserted(ms, m));
    }
  }

  lemma SuffixOfSuffix<T>(a: seq<T>, b: seq<T>, c: seq<T>)
    ensures IsSuffix(a, b) && IsSuffix(b, c) ==> IsSuffix(a, c)
    ensures forall n: nat :: IsSuffix(Newest(c, n), c)
  {
  }

  /** The size measured by the loop is the size written: recomputing the cursor changes nothing. */
  lemma BoundedIsTrimmed(s: Snapshot)
    requires Ascending(s.messages) && s.cursor == MaxId(s.messages)
    ensures var counted := s.(messages := Newest(s.messages, SNAPSHOT_MAX_MESSAGES), posts := Newest(s.posts, SNAPSHOT_MAX_FORUM_POSTS));
            && Bounded(s) == Trimmed(counted) && Bounded(s).cursor == s.cursor
            && Ascending(Bounded(s).messages) && IsSuffix(Bounded(s).messages, s.messages)
            && |Bounded(s).messages| <= SNAPSHOT_MAX_MESSAGES && |Bounded(s).posts| <= SNAPSHOT_MAX_FORUM_POSTS
  {
    var counted := s.(messages := Newest(s.messages, SNAPSHOT_MAX_MESSAGES), posts := Newest(s.posts, SNAPSHOT_MAX_FORUM_POSTS));
    TrimmingExactly(counted);
    hide Trimmed, SerializedBytes, MaxId;
    SuffixOfSuffix(Trimmed(counted).messages, counted.messages, s.messages);
    hide IsSuffix, Ascending;
    SuffixKeepsMaxId(counted.messages, s.messages);
    SuffixKeepsMaxId(Trimmed(counted).messages, counted.messages);
  }

  // ---- recording ----

  datatype Entry = Entry(roomId: Text, baseUrl: Text, savedAt: Text, messages: seq<Message>, posts: seq<Post>)

  /** What reading the stored file yields; anything unreadable starts a fresh snapshot. */
  datatype Stored = Absent | Unreadable | Readable(snapshot: Snapshot)

  function Recorded(stored: Stored, e: Entry, redact: Redaction): Snapshot {
    var messages := Merged(if stored.Readable? then stored.snapshot.messages else [], e.messages, redact);
    var posts := MergedPosts(if stored.Readable? then stored.snapshot.posts else [], e.posts, redact);
    Bounded(Snapshot(e.roomId, e.baseUrl, MaxId(messages), e.savedAt, messages, posts))
  }

  /** What every written snapshot satisfies. */
  ghost predicate Canonical(s: Snapshot, redact: Redaction) {
    && Ascending(s.messages) && AllRedacted(s.messages, redact)
    && s.cursor == MaxId(s.messages)
    && |s.messages| <= SNAPSHOT_MAX_MESSAGES && |s.posts| <= SNAPSHOT_MAX_FORUM_POSTS
  }

  lemma SuffixIsRedacted(a: seq<Message>, b: seq<Message>, redact: Redaction)
    requires IsSuffix(a, b) && AllRedacted(b, redact)
    ensures AllRedacted(a, redact)
  {
    hide FromRedaction;
    assert forall i :: 0 <= i < |a| ==> a[i] == b[|b| - |a| + i];
  }

  lemma MergedIsCanonical(current: seq<Message>, batch: seq<Message>, redact: Redaction)
    ensures Ascending(Merged(current, batch, redact)) && AllRedacted(Merged(current, batch, redact), redact)
  {
    InsertedAllKeeps([], current + batch, redact);
    InsertedAllRedacts([], current + batch, redact);
  }

  lemma RecordIsCanonical(stored: Stored, e: Entry, redact: Redaction)
    ensures Canonical(Recorded(stored, e, redact), redact)
  {
    hide Ascending, AllRedacted, Merged, MergedPosts, MaxId, Bounded, Newest;
    var current := if stored.Readable? then stored.snapshot.messages else [];
    var messages := Merged(current, e.messages, redact);
    var posts := MergedPosts(if stored.Readable? then stored.snapshot.posts else [], e.posts, redact);
    var s := Snapshot(e.roomId, e.baseUrl, MaxId(messages), e.savedAt, messages, posts);
    MergedIsCanonical(current, e.messages, redact);
    BoundedIsTrimmed(s);
    BoundedCursor(s);
    SuffixIsRedacted(Bounded(s).messages, messages, redact);
  }

  lemma BoundedCursor(s: Snapshot)
    ensures Bounded(s).cursor == MaxId(Bounded(s).messages)
  {
  }

  /** No pass but the third matches in the text, and that one only before a mark. */
  ghost predicate NothingLeft(t: Text) {
    Clean(Urls, t) && Clean(Bearers, t) && Clean(Tokens, t) && NoLiveParam(t)
  }

  /** Whatever was stored and arrives, no field of a message a record writes holds anything credential-shaped. */
  lemma StoredTextIsClean(stored: Stored, e: Entry)
    ensures forall m :: m in Recorded(stored, e, Redact).messages ==>
      NothingLeft(m.from) && NothingLeft(m.ts) && NothingLeft(m.kind) && NothingLeft(m.text)
  {
    RecordIsCanonical(stored, e, Redact);
    hide Recorded, Redact, Clean, NoLiveParam;
    var written := Recorded(stored, e, Redact).messages;
    forall m | m in written ensures NothingLeft(m.from) && NothingLeft(m.ts) && NothingLeft(m.kind) && NothingLeft(m.text) {
      var i :| 0 <= i < |written| && written[i] == m;
      assert FromRedaction(written[i], Redact);
      var x :| m == Redacted(x, Redact);
      NothingIsLeft(x.from);
      NothingIsLeft(x.ts);
      NothingIsLeft(x.kind);
      NothingIsLeft(x.text);
    }
  }

  // ---- records one after another ----

  function MessagesOf(stored: Stored): seq<Message> {
    if stored.Readable? then stored.snapshot.messages else []
  }

  /** What the byte cap compares once every post is gone. */
  function Bare(stored: Stored, e: Entry, redact: Redaction): Snapshot {
    var kept := Kept(MessagesOf(stored), e.messages, redact);
    Snapshot(e.roomId, e.baseUrl, MaxId(kept), e.savedAt, kept, [])
  }

  /** The messages alone are within the byte cap, or are a single one, which is never dropped. */
  predicate RoomForMessages(stored: Stored, e: Entry, redact: Redaction) {
    var bare := Bare(stored, e, redact);
    |bare.messages| <= 1 || SerializedBytes(bare) <= SNAPSHOT_MAX_BYTES
  }

  lemma {:induction false} PostsOnlyAdd(s: Snapshot)
    ensures SerializedBytes(s.(posts := [])) <= SerializedBytes(s)
    decreases |s.posts|
  {
    hide SerializedBytes;
    if s.posts == [] {
      assert s.(posts := []) == s;
    } else {
      TrimStepShrinks(s);
      PostsOnlyAdd(s.(posts := s.posts[1..]));
    }
  }

  lemma {:induction false} TrimmedKeepsMessagesExactly(s: Snapshot)
    ensures Trimmed(s).messages == s.messages <==>
            |s.messages| <= 1 || SerializedBytes(s.(posts := [])) <= SNAPSHOT_MAX_BYTES
    decreases |s.posts|
  {
    hide SerializedBytes;
    PostsOnlyAdd(s);
    if SerializedBytes(s) > SNAPSHOT_MAX_BYTES {
      if |s.posts| > 0 {
        TrimmedKeepsMessagesExactly(s.(posts := s.posts[1..]));
      } else if |s.messages| > 1 {
        assert s.(posts := []) == s;
        TrimmedKeepsSuffixes(s.(messages := s.messages[1..]));
      }
    }
  }

  lemma NewestKeepsMaxId(ms: seq<Message>, n: nat)
    requires Ascending(ms) && n > 0
    ensures MaxId(Newest(ms, n)) == MaxId(ms)
  {
    SuffixKeepsMaxId(Newest(ms, n), ms);
  }

  /** A record keeps the newest 250 of the merge, no fewer, exactly when the byte cap has room for them without posts. */
  lemma RecordKeeps(stored: Stored, e: Entry, redact: Redaction)
    ensures Recorded(stored, e, redact).messages == Kept(MessagesOf(stored), e.messages, redact)
            <==> RoomForMessages(stored, e, redact)
  {
    var messages := Merged(MessagesOf(stored), e.messages, redact);
    var posts := MergedPosts(if stored.Readable? then stored.snapshot.posts else [], e.posts, redact);
    var counted := Snapshot(e.roomId, e.baseUrl, MaxId(messages), e.savedAt,
                            Newest(messages, SNAPSHOT_MAX_MESSAGES), Newest(posts, SNAPSHOT_MAX_FORUM_POSTS));
    MergedIsCanonical(MessagesOf(stored), e.messages, redact);
    hide MergedPosts, Merged, Trimmed, SerializedBytes, MaxId, Newest;
    NewestKeepsMaxId(messages, SNAPSHOT_MAX_MESSAGES);
    TrimmedKeepsMessagesExactly(counted);
    assert counted.(posts := []) == Bare(stored, e, redact);
  }

  function RecordedAll(stored: Stored, entries: seq<Entry>, redact: Redaction): Stored {
    if entries == [] then stored
    else Readable(Recorded(RecordedAll(stored, entries[..|entries| - 1], redact), entries[|entries| - 1], redact))
  }

  function BatchesOf(entries: seq<Entry>): (batches: seq<seq<Message>>)
    ensures |batches| == |entries| && forall i :: 0 <= i < |entries| ==> batches[i] == entries[i].messages
  {
    seq(|entries|, i requires 0 <= i < |entries| => entries[i].messages)
  }

  /** The last entry, carrying every entry's messages. */
  function AsOne(entries: seq<Entry>): Entry
    requires entries != []
  {
    entries[|entries| - 1].(messages := Concat(BatchesOf(entries)))
  }

  predicate RoomForEach(stored: Stored, entries: seq<Entry>, redact: Redaction) {
    entries != [] ==>
      && RoomForEach(stored, entries[..|entries| - 1], redact)
      && RoomForMessages(RecordedAll(stored, entries[..|entries| - 1], redact), entries[|entries| - 1], redact)
  }

  /** While each record has room for its messages, the records keep what the merges keep. */
  lemma {:induction false} RecordsKeepAll(stored: Stored, entries: seq<Entry>, redact: Redaction)
    requires RoomForEach(stored, entries, redact)
    ensures MessagesOf(RecordedAll(stored, entries, redact)) == KeptAll(MessagesOf(stored), BatchesOf(entries), redact)
  {
    if entries != [] {
      var front, last := entries[..|entries| - 1], entries[|entries| - 1];
      assert BatchesOf(entries)[..|entries| - 1] == BatchesOf(front);
      hide Kept, Recorded, RoomForMessages;
      RecordsKeepAll(stored, front, redact);
      RecordKeeps(RecordedAll(stored, front, redact), last, redact);
    }
  }

  lemma SameKeptSameRoom(a: Stored, b: Stored, d: Entry, e: Entry, redact: Redaction)
    requires d.roomId == e.roomId && d.baseUrl == e.baseUrl && d.savedAt == e.savedAt
    requires Kept(MessagesOf(a), d.messages, redact) == Kept(MessagesOf(b), e.messages, redact)
    ensures RoomForMessages(a, d, redact) <==> RoomForMessages(b, e, redact)
  {
    hide Kept, SerializedBytes, MaxId;
  }

  lemma RecordKeepsSuffix(stored: Stored, e: Entry, redact: Redaction)
    ensures IsSuffix(Recorded(stored, e, redact).messages, Kept(MessagesOf(stored), e.messages, redact))
    ensures Recorded(stored, e, redact).cursor == MaxId(Kept(MessagesOf(stored), e.messages, redact))
  {
    var messages := Merged(MessagesOf(stored), e.messages, redact);
    var posts := MergedPosts(if stored.Readable? then stored.snapshot.posts else [], e.posts, redact);
    var s := Snapshot(e.roomId, e.baseUrl, MaxId(messages), e.savedAt, messages, posts);
    var counted := s.(messages := Newest(messages, SNAPSHOT_MAX_MESSAGES), posts := Newest(posts, SNAPSHOT_MAX_FORUM_POSTS));
    MergedIsCanonical(MessagesOf(stored), e.messages, redact);
    hide Merged, MergedPosts, MaxId, Trimmed, Bounded, IsSuffix, Newest;
    BoundedIsTrimmed(s);
    TrimmingExactly(counted);
    NewestKeepsMaxId(messages, SNAPSHOT_MAX_MESSAGES);
  }

  lemma {:induction false} SameIdsSameMax(a: seq<Message>, b: seq<Message>)
    requires SameIds(a, b)
    ensures MaxId(a) == MaxId(b)
  {
    if a != [] { SameIdsSameMax(a[..|a| - 1], b[..|b| - 1]); }
  }

  /** A suffix of a list as long as what it equals is the list. */
  lemma WholeSuffix(part: seq<Message>, whole: seq<Message>, other: seq<Message>)
    requires IsSuffix(part, whole) && |other| == |whole|
    ensures other == part ==> part == whole
  {
  }

  /** Two records that keep the same ids leave one cursor, and the same messages exactly when they keep the same. */
  lemma RecordsAgree(a: Stored, d: Entry, b: Stored, e: Entry, redact: Redaction)
    requires d.roomId == e.roomId && d.baseUrl == e.baseUrl && d.savedAt == e.savedAt && RoomForMessages(a, d, redact)
    requires SameIds(Kept(MessagesOf(a), d.messages, redact), Kept(MessagesOf(b), e.messages, redact))
    ensures Recorded(a, d, redact).cursor == Recorded(b, e, redact).cursor
    ensures Recorded(a, d, redact).messages == Recorded(b, e, redact).messages <==>
            Kept(MessagesOf(a), d.messages, redact) == Kept(MessagesOf(b), e.messages, redact)
  {
    hide Kept, Recorded, RoomForMessages, MessagesOf, IsSuffix, MaxId;
    var each, all := Kept(MessagesOf(a), d.messages, redact), Kept(MessagesOf(b), e.messages, redact);
    RecordKeeps(a, d, redact);
    RecordKeepsSuffix(a, d, redact);
    RecordKeepsSuffix(b, e, redact);
    SameIdsSameMax(each, all);
    WholeSuffix(Recorded(b, e, redact).messages, all, each);
    if each == all {
      SameKeptSameRoom(a, b, d, e, redact);
      RecordKeeps(b, e, redact);
    }
  }

  lemma LastBatch(current: seq<Message>, entries: seq<Entry>, redact: Redaction)
    requires entries != []
    ensures var front, last := entries[..|entries| - 1], entries[|entries| - 1];
      KeptAll(current, BatchesOf(entries), redact) == Kept(KeptAll(current, BatchesOf(front), redact), last.messages, redact)
  {
    hide Kept;
    assert BatchesOf(entries)[..|entries| - 1] == BatchesOf(entries[..|entries| - 1]);
  }

  /**
   Entries recorded one at a time, as long as the byte cap has room for the messages of
   each, always leave the cursor of one record of all their messages. They leave the same
   messages exactly when whatever survives from before the last entry is settled.
   */
  lemma RecordsAgreeExactly(stored: Stored, entries: seq<Entry>, redact: Redaction)
    requires |entries| >= 2 && RoomForEach(stored, entries, redact) && FinalOrGone(redact)
    ensures var after := RecordedAll(stored, entries, redact); var once := Recorded(stored, AsOne(entries), redact);
      && after.Readable? && after.snapshot.cursor == once.cursor
      && (after.snapshot.messages == once.messages <==> OlderAreSettled(MessagesOf(stored), BatchesOf(entries), redact))
  {
    var front, last, one := entries[..|entries| - 1], entries[|entries| - 1], AsOne(entries);
    var batches := BatchesOf(entries);
    hide Kept, KeptAll, Recorded, RoomForMessages, OlderAreSettled, MessagesOf, SameIds, Concat;
    RecordsKeepAll(stored, front, redact);
    LastBatch(MessagesOf(stored), entries, redact);
    BatchesAgreeExactly(MessagesOf(stored), batches, redact);
    RecordsAgree(RecordedAll(stored, front, redact), last, stored, one, redact);
  }

  /** So it is with the source's redaction, as long as the byte cap has room for the messages of each record. */
  lemma RecordsAreOne(stored: Stored, entries: seq<Entry>)
    ensures |entries| >= 2 && RoomForEach(stored, entries, Redact) ==>
      var after := RecordedAll(stored, entries, Redact); var once := Recorded(stored, AsOne(entries), Redact);
      && after.Readable? && after.snapshot.cursor == once.cursor
      && (after.snapshot.messages == once.messages <==> OlderAreSettled(MessagesOf(stored), BatchesOf(entries), Redact))
  {
    RedactIsFinalOrGone();
    hide Redact, FinalOrGone, RecordedAll, Recorded, RoomForEach, OlderAreSettled;
    if |entries| >= 2 && RoomForEach(stored, entries, Redact) { RecordsAgreeExactly(stored, entries, Redact); }
  }

  lemma {:induction false} RedactedEachKeepsMaxId(ms: seq<Message>, redact: Redaction)
    ensures MaxId(RedactedEach(ms, redact)) == MaxId(ms)
  {
    if ms != [] {
      var front := ms[..|ms| - 1];
      assert RedactedEach(ms, redact)[..|ms| - 1] == RedactedEach(front, redact);
      RedactedEachKeepsMaxId(front, redact);
    }
  }

  lemma MergeKeepsMaxId(ms: seq<Message>, batch: seq<Message>, redact: Redaction)
    requires Ascending(ms)
    ensures MaxId(Merged(ms, batch, redact)) >= MaxId(ms)
  {
    MergeOverAscending(ms, batch, redact);
    RedactedEachKeepsMaxId(ms, redact);
    assert Ascending(RedactedEach(ms, redact));
    hide MaxId;
    InsertedAllKeepsMaxId(RedactedEach(ms, redact), batch, redact);
  }

  /** One record over a canonical snapshot: the cursor has not gone back. */
  lemma RecordAdvances(s: Snapshot, e: Entry, redact: Redaction)
    requires Canonical(s, redact)
    ensures Recorded(Readable(s), e, redact).cursor >= s.cursor
  {
    hide MaxId, Recorded, Newest, AllRedacted;
    MergeKeepsMaxId(s.messages, e.messages, redact);
    MergedIsCanonical(s.messages, e.messages, redact);
    NewestKeepsMaxId(Merged(s.messages, e.messages, redact), SNAPSHOT_MAX_MESSAGES);
    RecordKeepsSuffix(Readable(s), e, redact);
  }

  /** In every run of records over readable files the cursor never decreases, caps included. */
  lemma {:induction false} CursorNeverDecreases(stored: Stored, entries: seq<Entry>, more: seq<Entry>, redact: Redaction)
    requires entries != []
    ensures var a := RecordedAll(stored, entries, redact); var b := RecordedAll(a, more, redact);
            && a.Readable? && b.Readable? && Canonical(a.snapshot, redact) && Canonical(b.snapshot, redact)
            && a.snapshot.cursor <= b.snapshot.cursor
    decreases |more|
  {
    hide Canonical, Recorded;
    var a := RecordedAll(stored, entries, redact);
    RecordIsCanonical(RecordedAll(stored, entries[..|entries| - 1], redact), entries[|entries| - 1], redact);
    if more != [] {
      var front, last := more[..|more| - 1], more[|more| - 1];
      CursorNeverDecreases(stored, entries, front, redact);
      RecordIsCanonical(RecordedAll(a, front, redact), last, redact);
      RecordAdvances(RecordedAll(a, front, redact).snapshot, last, redact);
    }
  }

  // ---- the cap always fits ----

  /** Units of the fields that are not capped one by one. */
  function KeyUnits(s: Snapshot): nat {
    |s.roomId| + |s.baseUrl| + |s.savedAt|
  }

  const MAX_KEY_UNITS := 17_000

  predicate SafeId(id: int) { -MAX_SAFE_INTEGER <= id <= MAX_SAFE_INTEGER }

  lemma MessageSize(m: Message, d: nat)
    ensures Size(MessageJson(m), d) ==
            Size(Num(m.id), d + 1) + Size(Str(m.from), d + 1) + Size(Str(m.ts), d + 1) + Size(Str(m.kind), d + 1) + Size(Str(m.text), d + 1)
            + 12 * d + 58
  {
    var p1, p2, p3, p4, p5 := Prop(2, Num(m.id)), Prop(4, Str(m.from)), Prop(2, Str(m.ts)), Prop(4, Str(m.kind)), Prop(4, Str(m.text));
    assert MessageJson(m).props == [p1] + ([p2] + ([p3] + ([p4] + [p5])));
    PropsOfOne(p5, d + 1);
    PropsOfCons(p4, [p5], d + 1);
    PropsOfCons(p3, [p4] + [p5], d + 1);
    PropsOfCons(p2, [p3] + ([p4] + [p5]), d + 1);
    PropsOfCons(p1, [p2] + ([p3] + ([p4] + [p5])), d + 1);
  }

  lemma FloorFits(s: Snapshot, redact: Redaction)
    requires Caps(redact) && AllRedacted(s.messages, redact) && KeyUnits(s) <= MAX_KEY_UNITS
    requires SafeId(s.cursor) && forall i :: 0 <= i < |s.messages| ==> SafeId(s.messages[i].id)
    ensures SerializedBytes(Floor(s)) <= SNAPSHOT_MAX_BYTES
  {
    var f := Floor(s);
    SnapshotSize(f);
    SixBytesPerUnit(s.roomId);
    SixBytesPerUnit(s.baseUrl);
    SixBytesPerUnit(s.savedAt);
    SafeIntegersAreShort(s.cursor);
    assert PostItems(f.posts) == [];
    if s.messages == [] {
      assert MessageItems(f.messages) == [];
    } else {
      var m := s.messages[|s.messages| - 1];
      assert f.messages == [m];
      FieldsAreCapped(m, redact);
      OneMessageSize(m);
    }
  }

  lemma FieldsAreCapped(m: Message, redact: Redaction)
    requires Caps(redact) && FromRedaction(m, redact)
    ensures |m.from| <= SNAPSHOT_MAX_TEXT_CHARS && |m.ts| <= SNAPSHOT_MAX_TEXT_CHARS
    ensures |m.kind| <= SNAPSHOT_MAX_TEXT_CHARS && |m.text| <= SNAPSHOT_MAX_TEXT_CHARS
  {
    var x :| m == Redacted(x, redact);
    assert |redact(x.from)| <= SNAPSHOT_MAX_TEXT_CHARS && |redact(x.ts)| <= SNAPSHOT_MAX_TEXT_CHARS;
    assert |redact(x.kind)| <= SNAPSHOT_MAX_TEXT_CHARS && |redact(x.text)| <= SNAPSHOT_MAX_TEXT_CHARS;
  }

  lemma OneMessageSize(m: Message)
    requires |m.from| <= SNAPSHOT_MAX_TEXT_CHARS && |m.ts| <= SNAPSHOT_MAX_TEXT_CHARS
    requires |m.kind| <= SNAPSHOT_MAX_TEXT_CHARS && |m.text| <= SNAPSHOT_MAX_TEXT_CHARS && SafeId(m.id)
    ensures Size(Arr(MessageItems([m])), 1) <= 24 * SNAPSHOT_MAX_TEXT_CHARS + 150
  {
    var items := MessageItems([m]);
    assert items == [MessageJson(m)] && items[1..] == [];
    assert ItemsSize(items, 2) == 4 + Size(MessageJson(m), 2);
    MessageSize(m, 2);
    SafeIntegersAreShort(m.id);
    SixBytesPerUnit(m.from);
    SixBytesPerUnit(m.ts);
    SixBytesPerUnit(m.kind);
    SixBytesPerUnit(m.text);
  }

  ghost predicate SafeIds(ms: seq<Message>) {
    forall i :: 0 <= i < |ms| ==> SafeId(ms[i].id)
  }

  /**
   Whatever was stored (absent, unreadable, or a canonical snapshot) and whatever arrives,
   the snapshot a record call writes is at most 200,000 bytes, provided room id, base URL
   and save time together have at most 17,000 code units.
   */
  lemma WrittenWithinCap(stored: Stored, e: Entry, redact: Redaction)
    requires Caps(redact) && |e.roomId| + |e.baseUrl| + |e.savedAt| <= MAX_KEY_UNITS
    requires SafeIds(e.messages) && (stored.Readable? ==> SafeIds(stored.snapshot.messages))
    ensures SerializedBytes(Recorded(stored, e, redact)) <= SNAPSHOT_MAX_BYTES
  {
    hide Caps, Ascending, AllRedacted, Merged, MergedPosts, Bounded, SerializedBytes, Trimmed;
    var current := if stored.Readable? then stored.snapshot.messages else [];
    var messages := Merged(current, e.messages, redact);
    var posts := MergedPosts(if stored.Readable? then stored.snapshot.posts else [], e.posts, redact);
    var s := Snapshot(e.roomId, e.baseUrl, MaxId(messages), e.savedAt, messages, posts);
    var counted := s.(messages := Newest(messages, SNAPSHOT_MAX_MESSAGES), posts := Newest(posts, SNAPSHOT_MAX_FORUM_POSTS));
    MergedIsCanonical(current, e.messages, redact);
    MergedIsSafe(current, e.messages, redact);
    BoundedIsTrimmed(s);
    TrimmingExactly(counted);
    if messages != [] { MaxIdIsLast(messages); }
    SuffixIsRedacted(counted.messages, messages, redact);
    FloorFits(counted, redact);
  }

  /** The source's own redaction is one the cap can rely on. */
  lemma RedactCaps()
    ensures Caps(Redact)
  {
    hide Redact;
  }

  lemma MergedIsSafe(current: seq<Message>, batch: seq<Message>, redact: Redaction)
    requires SafeIds(current) && SafeIds(batch)
    ensures SafeIds(Merged(current, batch, redact))
  {
    InsertedAllSafe([], current + batch, redact);
  }

  lemma {:induction false} InsertedAllSafe(ms: seq<Message>, batch: seq<Message>, redact: Redaction)
    requires Ascending(ms) && SafeIds(ms) && SafeIds(batch)
    ensures SafeIds(InsertedAll(ms, batch, redact))
    decreases |batch|
  {
    if batch != [] {
      var m := Redacted(batch[0], redact);
      InsertedKeeps(ms, m);
      assert forall x :: x in Inserted(ms, m) ==> SafeId(x.id);
      InsertedAllSafe(Inserted(ms, m), batch[1..], redact);
    }
  }

  // ---- the loops of the source ----

  /** The id-keyed map behind an ascending list. */
  function AsMap(ms: seq<Message>): map<int, Message> {
    if ms == [] then map[] else AsMap(ms[..|ms| - 1])[ms[|ms| - 1].id := ms[|ms| - 1]]
  }

  lemma AsMapSnoc(ms: seq<Message>, m: Message)
    ensures AsMap(ms + [m]) == AsMap(ms)[m.id := m]
  {
    assert (ms + [m])[..|ms|] == ms;
  }

  lemma {:induction false} AsMapKeys(ms: seq<Message>, id: int)
    ensures id in AsMap(ms) <==> exists x :: x in ms && x.id == id
    ensures id in AsMap(ms) ==> AsMap(ms)[id].id == id && AsMap(ms)[id] in ms
  {
    if ms != [] {
      var front, last := ms[..|ms| - 1], ms[|ms| - 1];
      assert ms == front + [last];
      AsMapKeys(front, id);
    }
  }

  lemma UpdatesCommute(f: map<int, Message>, m: Message, last: Message)
    ensures m.id != last.id ==> f[m.id := m][last.id := last] == f[last.id := last][m.id := m]
    ensures m.id == last.id ==> f[m.id := m] == f[last.id := last][m.id := m]
  {
  }

  lemma {:induction false} InsertedAsMap(ms: seq<Message>, m: Message)
    requires Ascending(ms)
    ensures AsMap(Inserted(ms, m)) == AsMap(ms)[m.id := m]
  {
    if ms != [] {
      var front, last := ms[..|ms| - 1], ms[|ms| - 1];
      assert ms == front + [last];
      AscendingFront(ms);
      InsertedSnoc(front, last, m);
      hide AsMap, Inserted, Ascending;
      AsMapSnoc(front, last);
      UpdatesCommute(AsMap(front), m, last);
      if m.id > last.id {
        AsMapSnoc(ms, m);
      } else if m.id == last.id {
        AsMapSnoc(front, m);
      } else {
        InsertedAsMap(front, m);
        AsMapSnoc(Inserted(front, m), last);
      }
    }
  }

  lemma AscendingFrontMap(ms: seq<Message>)
    requires Ascending(ms) && ms != []
    ensures var front, last := ms[..|ms| - 1], ms[|ms| - 1];
            && Ascending(front) && last.id !in AsMap(front) && AsMap(ms) == AsMap(front)[last.id := last]
            && AsMap(front) == AsMap(ms) - {last.id}
            && (forall id :: id in AsMap(ms) ==> id <= last.id)
  {
    var front, last := ms[..|ms| - 1], ms[|ms| - 1];
    AscendingFront(ms);
    AsMapKeys(front, last.id);
    forall id | id in AsMap(ms) ensures id <= last.id { AsMapKeys(ms, id); }
  }

  /** An ascending list is determined by its map: sorting by id has one answer. */
  lemma {:induction false} AscendingIsUnique(a: seq<Message>, b: seq<Message>)
    requires Ascending(a) && Ascending(b) && AsMap(a) == AsMap(b)
    ensures a == b
    decreases |a|
  {
    LastIsKey(a);
    LastIsKey(b);
    if a != [] {
      AscendingFrontMap(a);
      AscendingFrontMap(b);
      hide AsMap, Ascending;
      assert a[|a| - 1].id == b[|b| - 1].id;
      AscendingIsUnique(a[..|a| - 1], b[..|b| - 1]);
      assert a == a[..|a| - 1] + [a[|a| - 1]] && b == b[..|b| - 1] + [b[|b| - 1]];
    }
  }

  lemma LastIsKey(ms: seq<Message>)
    ensures ms != [] ==> ms[|ms| - 1].id in AsMap(ms)
    ensures ms == [] ==> AsMap(ms) == map[]
  {
  }

  /** The insertion-ordered `Map` of the source is a map and the order of its keys. */
  method MergeMessages(current: seq<Message>, incoming: seq<Message>, redact: Redaction) returns (merged: seq<Message>)
    ensures merged == Merged(current, incoming, redact)
  {
    var all := current + incoming;
    var byId: map<int, Message>, order: seq<int> := map[], [];
    var i := 0;
    while i < |all|
      invariant 0 <= i <= |all|
      invariant Ascending(InsertedAll([], all[..i], redact))
      invariant byId == AsMap(InsertedAll([], all[..i], redact))
      invariant forall k :: 0 <= k < |order| ==> order[k] in byId
      invariant forall id :: id in byId ==> id in order
    {
      var m := Redacted(all[i], redact);
      if m.id !in byId { order := order + [m.id]; }
      byId := byId[m.id := m];
      MergeStep(all[..i], all[i], redact);
      assert all[..i + 1] == all[..i] + [all[i]];
      i := i + 1;
    }
    assert all[..i] == all;
    merged := SortById(byId, order, InsertedAll([], all, redact));
  }

  lemma MergeStep(before: seq<Message>, next: Message, redact: Redaction)
    requires Ascending(InsertedAll([], before, redact))
    ensures var a := InsertedAll([], before, redact); var b := InsertedAll([], before + [next], redact);
            Ascending(b) && AsMap(b) == AsMap(a)[next.id := Redacted(next, redact)]
  {
    var a := InsertedAll([], before, redact);
    InsertedAllConcat([], before, [next], redact);
    assert [next][1..] == [];
    InsertedKeeps(a, Redacted(next, redact));
    InsertedAsMap(a, Redacted(next, redact));
  }

  lemma NothingIsAscending()
    ensures Ascending([]) && AsMap([]) == map[]
  {
  }

  /** The values of the map in ascending id order. */
  method SortById(byId: map<int, Message>, order: seq<int>, ghost expected: seq<Message>) returns (sorted: seq<Message>)
    requires Ascending(expected) && byId == AsMap(expected)
    requires (forall k :: 0 <= k < |order| ==> order[k] in byId) && (forall id :: id in byId ==> id in order)
    ensures sorted == expected
  {
    hide Inserted, Ascending;
    sorted := [];
    forall id | id in byId ensures byId[id].id == id { AsMapKeys(expected, id); }
    NothingIsAscending();
    hide AsMap;
    var i := 0;
    while i < |order|
      invariant 0 <= i <= |order| && Ascending(sorted)
      invariant AsMap(sorted) == map id | id in byId && id in order[..i] :: byId[id]
    {
      var m := byId[order[i]];
      InsertedKeeps(sorted, m);
      InsertedAsMap(sorted, m);
      sorted := Inserted(sorted, m);
      i := i + 1;
    }
    assert order[..i] == order;
    assert AsMap(sorted) == byId;
    AscendingIsUnique(sorted, expected);
  }

  lemma {:induction false} PutAllSnoc(posts: seq<Post>, more: seq<Post>, last: Post)
    ensures PutAll(posts, more + [last]) == PutPost(PutAll(posts, more), last)
    decreases |more|
  {
    if more == [] {
      assert [last][1..] == [];
    } else {
      assert (more + [last])[1..] == more[1..] + [last];
      PutAllSnoc(PutPost(posts, more[0]), more[1..], last);
    }
  }

  lemma {:induction false} ReloadAllSnoc(posts: seq<Post>, more: seq<Post>, last: Post, redact: Redaction)
    ensures ReloadAll(posts, more + [last], redact) ==
            PutPost(ReloadAll(posts, more, redact), Reloaded(ReloadAll(posts, more, redact), last, redact))
    decreases |more|
  {
    if more == [] {
      assert [last][1..] == [];
    } else {
      assert (more + [last])[1..] == more[1..] + [last];
      ReloadAllSnoc(PutPost(posts, Reloaded(posts, more[0], redact)), more[1..], last, redact);
    }
  }

  method MergeForumPosts(current: seq<Post>, incoming: seq<Post>, redact: Redaction) returns (merged: seq<Post>)
    ensures merged == MergedPosts(current, incoming, redact)
  {
    hide PutPost, Reloaded;
    merged := [];
    var i := 0;
    while i < |current|
      invariant 0 <= i <= |current| && merged == PutAll([], current[..i])
    {
      PutAllSnoc([], current[..i], current[i]);
      assert current[..i + 1] == current[..i] + [current[i]];
      merged := PutPost(merged, current[i]);
      i := i + 1;
    }
    assert current[..i] == current;
    ghost var loaded := merged;
    i := 0;
    while i < |incoming|
      invariant 0 <= i <= |incoming| && merged == ReloadAll(loaded, incoming[..i], redact)
    {
      ReloadAllSnoc(loaded, incoming[..i], incoming[i], redact);
      assert incoming[..i + 1] == incoming[..i] + [incoming[i]];
      merged := PutPost(merged, Reloaded(merged, incoming[i], redact));
      i := i + 1;
    }
    assert incoming[..i] == incoming;
  }

  method Bound(s: Snapshot) returns (r: Snapshot)
    ensures r == Bounded(s)
  {
    r := s;
    if |r.messages| > SNAPSHOT_MAX_MESSAGES { r := r.(messages := r.messages[|r.messages| - SNAPSHOT_MAX_MESSAGES..]); }
    if |r.posts| > SNAPSHOT_MAX_FORUM_POSTS { r := r.(posts := r.posts[|r.posts| - SNAPSHOT_MAX_FORUM_POSTS..]); }
    ghost var counted := r;
    while SerializedBytes(r) > SNAPSHOT_MAX_BYTES && (|r.messages| > 1 || |r.posts| > 0)
      invariant Trimmed(r) == Trimmed(counted)
      decreases |r.messages| + |r.posts|
    {
      if |r.posts| > 0 { r := r.(posts := r.posts[1..]); } else { r := r.(messages := r.messages[1..]); }
    }
    var highest, i := 0, 0;
    while i < |r.messages|
      invariant 0 <= i <= |r.messages| && highest == MaxId(r.messages[..i])
    {
      assert r.messages[..i + 1][..i] == r.messages[..i];
      if r.messages[i].id > highest { highest := r.messages[i].id; }
      i := i + 1;
    }
    assert r.messages[..i] == r.messages;
    r := r.(cursor := highest);
  }

  /** The snapshot file of one room key, behind its writer lock. */
  class SnapshotFile {
    var stored: Stored

    constructor ()
      ensures stored == Absent
    {
      stored := Absent;
    }

    /** `stillTracked` is what the guard answers inside the lock. */
    method Record(e: Entry, stillTracked: bool, redact: Redaction) returns (written: Option<Snapshot>)
      modifies this
      ensures !stillTracked ==> written == None && stored == old(stored)
      ensures stillTracked ==> written == Some(Recorded(old(stored), e, redact)) && stored == Readable(written.value)
    {
      if !stillTracked { return None; }
      var current := if stored.Readable? then stored.snapshot else Snapshot(e.roomId, e.baseUrl, 0, e.savedAt, [], []);
      var messages := MergeMessages(current.messages, e.messages, redact);
      var posts := MergeForumPosts(current.posts, e.posts, redact);
      var highest := MaxId(messages);
      var next := Bound(Snapshot(e.roomId, e.baseUrl, highest, e.savedAt, messages, posts));
      stored := Readable(next);
      return Some(next);
    }

    method Delete() returns (removed: bool)
      modifies this
      ensures stored == Absent && (removed <==> old(stored) != Absent)
    {
      removed := stored != Absent;
      stored := Absent;
    }
  }
}
