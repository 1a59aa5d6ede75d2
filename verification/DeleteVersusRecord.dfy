/**
 Deleting a joined room against the bridge that records its history
 (src/storage/joined-rooms-store.ts, src/storage/joined-history-store.ts and the bridge
 handler in src/platform/http.ts), as a transition system with one step per filesystem
 or lock call.

 Row edits run under the room-list lock; a snapshot is written and removed under its own
 lock. A bridge writer re-reads the room list inside the snapshot lock before it writes;
 a deleter removes rows first and snapshots after. Both locks are taken to exclude, as
 shown for the writer lock, and a crashed holder's lock to be recovered.
 */
module DeleteVersusRecord {
  import opened Collections

  datatype Key = Key(roomId: string, baseUrl: string)

  type Agent = nat

  /** One read-modify-write of the room list. */
  datatype RowJob =
    | PutRow(key: Key, archived: bool)
    | SetArchived(keys: seq<Key>, archived: bool)
    | DeleteRows(keys: seq<Key>)

  datatype Pc =
    | Idle
    // a bridge post being recorded
    | RecordWaits(key: Key)
    | RecordChecks(key: Key)     // holds the snapshot lock, about to re-read the room list
    | RecordReads(key: Key)      // tracked: about to read the stored snapshot
    | RecordWrites(key: Key)     // about to replace the snapshot file
    | RecordUnlocks(key: Key)
    // a row edit
    | RowWaits(job: RowJob)
    | RowReads(job: RowJob)
    | RowWrites(job: RowJob, seen: map<Key, bool>)
    | RowUnlocks(job: RowJob)
    // the second half of a delete: one snapshot after another
    | ClearWaits(todo: seq<Key>)
    | ClearRemoves(todo: seq<Key>)
    | ClearUnlocks(todo: seq<Key>)

  datatype State = State(
    rows: map<Key, bool>,          // tracked rooms; true when archived
    snapshots: set<Key>,
    listLock: Option<Agent>,
    snapshotLocks: map<Key, Agent>,
    pcs: map<Agent, Pc>,
    abandoned: set<Key>)           // rooms without a row whose last removal failed or crashed (history)

  datatype Step =
    | StartRecord(a: Agent, key: Key)
    | StartRowJob(a: Agent, job: RowJob)
    | Advance(a: Agent)
    | RemoveFails(a: Agent)
    | Crash(a: Agent)

  function PcOf(s: State, a: Agent): Pc {
    if a in s.pcs then s.pcs[a] else Idle
  }

  function At(s: State, a: Agent, pc: Pc): State {
    s.(pcs := s.pcs[a := pc])
  }

  function KeySet(keys: seq<Key>): set<Key> {
    set k | k in keys
  }

  function Edited(rows: map<Key, bool>, job: RowJob): map<Key, bool> {
    match job
    case PutRow(key, archived) => rows[key := if key in rows then rows[key] else archived]
    case SetArchived(keys, archived) => map k | k in rows :: if k in keys then archived else rows[k]
    case DeleteRows(keys) => rows - KeySet(keys)
  }

  /** `isStillTracked` of the bridge handler. */
  predicate Tracked(rows: map<Key, bool>, key: Key) {
    key in rows && !rows[key]
  }

  predicate Enabled(s: State, step: Step) {
    match step
    case StartRecord(a, _) => PcOf(s, a).Idle?
    case StartRowJob(a, _) => PcOf(s, a).Idle?
    case Advance(a) =>
      (match PcOf(s, a)
       case Idle => false
       case RecordWaits(key) => key !in s.snapshotLocks
       case RowWaits(_) => s.listLock.None?
       case ClearWaits(todo) => todo != [] ==> todo[0] !in s.snapshotLocks
       case ClearRemoves(todo) => todo != []
       case ClearUnlocks(todo) => todo != []
       case _ => true)
    case RemoveFails(a) => PcOf(s, a).ClearRemoves? && PcOf(s, a).todo != []
    case Crash(a) => !PcOf(s, a).Idle?
  }

  /** The snapshot removals a caller still has ahead of it. */
  function Pending(pc: Pc): set<Key> {
    match pc
    case RowUnlocks(DeleteRows(keys)) => KeySet(keys)
    case ClearWaits(todo) => KeySet(todo)
    case ClearRemoves(todo) => KeySet(todo)
    case ClearUnlocks(todo) => if todo == [] then {} else KeySet(todo[1..])
    case _ => {}
  }

  function Apply(s: State, step: Step): State
    requires Enabled(s, step)
  {
    match step
    case StartRecord(a, key) => At(s, a, RecordWaits(key))
    case StartRowJob(a, job) => At(s, a, RowWaits(job))
    case Advance(a) =>
      (match PcOf(s, a)
       case RecordWaits(key) => At(s.(snapshotLocks := s.snapshotLocks[key := a]), a, RecordChecks(key))
       case RecordChecks(key) => At(s, a, if Tracked(s.rows, key) then RecordReads(key) else RecordUnlocks(key))
       case RecordReads(key) => At(s, a, RecordWrites(key))
       case RecordWrites(key) => At(s.(snapshots := s.snapshots + {key}), a, RecordUnlocks(key))
       case RecordUnlocks(key) => At(s.(snapshotLocks := s.snapshotLocks - {key}), a, Idle)
       case RowWaits(job) => At(s.(listLock := Some(a)), a, RowReads(job))
       case RowReads(job) => At(s, a, RowWrites(job, s.rows))
       case RowWrites(job, seen) =>
         var rows := Edited(seen, job);
         At(s.(rows := rows, abandoned := s.abandoned - rows.Keys), a, RowUnlocks(job))
       case RowUnlocks(job) =>
         At(s.(listLock := None), a, if job.DeleteRows? then ClearWaits(job.keys) else Idle)
       case ClearWaits(todo) =>
         if todo == [] then At(s, a, Idle)
         else At(s.(snapshotLocks := s.snapshotLocks[todo[0] := a]), a, ClearRemoves(todo))
       case ClearRemoves(todo) =>
         At(s.(snapshots := s.snapshots - {todo[0]}, abandoned := s.abandoned - {todo[0]}), a, ClearUnlocks(todo))
       case ClearUnlocks(todo) => At(s.(snapshotLocks := s.snapshotLocks - {todo[0]}), a, ClearWaits(todo[1..]))
       case Idle => s)
    case RemoveFails(a) =>
      var todo := PcOf(s, a).todo;
      At(s.(abandoned := s.abandoned + ({todo[0]} - s.rows.Keys)), a, ClearUnlocks(todo))
    case Crash(a) =>
      At(s.(listLock := if s.listLock == Some(a) then None else s.listLock,
            snapshotLocks := map k | k in s.snapshotLocks && s.snapshotLocks[k] != a :: s.snapshotLocks[k],
            abandoned := s.abandoned + (Pending(PcOf(s, a)) - s.rows.Keys)), a, Idle)
  }

  // ---- the invariant ----

  predicate HoldsSnapshotLock(pc: Pc, key: Key) {
    match pc
    case RecordChecks(k) => k == key
    case RecordReads(k) => k == key
    case RecordWrites(k) => k == key
    case RecordUnlocks(k) => k == key
    case ClearRemoves(todo) => todo != [] && todo[0] == key
    case ClearUnlocks(todo) => todo != [] && todo[0] == key
    case _ => false
  }

  /** Between taking and leaving the list lock a caller holds it, and what it read is still what is stored. */
  predicate ListLockFits(s: State, a: Agent) {
    var pc := PcOf(s, a);
    (pc.RowReads? || pc.RowWrites? || pc.RowUnlocks? ==> s.listLock == Some(a)) && (pc.RowWrites? ==> pc.seen == s.rows)
  }

  ghost predicate LocksHeld(s: State) {
    && (forall a: Agent, key :: HoldsSnapshotLock(PcOf(s, a), key) ==> key in s.snapshotLocks && s.snapshotLocks[key] == a)
    && (forall a: Agent :: ListLockFits(s, a))
  }

  /** A snapshot is on disk, or a writer that passed the check is about to put one there. */
  ghost predicate Present(s: State, key: Key) {
    key in s.snapshots || exists a: Agent :: PcOf(s, a) == RecordReads(key) || PcOf(s, a) == RecordWrites(key)
  }

  ghost predicate Awaited(s: State, key: Key) {
    exists d: Agent :: key in Pending(PcOf(s, d))
  }

  ghost predicate Covered(s: State, key: Key) {
    Present(s, key) ==> key in s.rows || key in s.abandoned || Awaited(s, key)
  }

  ghost predicate Inv(s: State) {
    LocksHeld(s) && forall key :: Covered(s, key)
  }

  /** Nothing is running and no snapshot lacks its row. */
  ghost predicate Init(s: State) {
    (forall a: Agent :: PcOf(s, a).Idle?) && s.snapshots <= s.rows.Keys && s.listLock.None? && s.snapshotLocks == map[] && s.abandoned == {}
  }

  lemma OneHolder(s: State, a: Agent, b: Agent, key: Key)
    requires LocksHeld(s) && HoldsSnapshotLock(PcOf(s, a), key) && HoldsSnapshotLock(PcOf(s, b), key)
    ensures a == b && s.snapshotLocks[key] == a
  {
  }

  lemma StepKeepsSnapshotLock(s: State, step: Step, b: Agent, key: Key)
    requires LocksHeld(s) && Enabled(s, step) && HoldsSnapshotLock(PcOf(Apply(s, step), b), key)
    ensures key in Apply(s, step).snapshotLocks && Apply(s, step).snapshotLocks[key] == b
  {
    hide Edited, Pending;
    var t, a := Apply(s, step), step.a;
    if b != a {
      assert PcOf(t, b) == PcOf(s, b) && HoldsSnapshotLock(PcOf(s, b), key);
      if HoldsSnapshotLock(PcOf(s, a), key) { OneHolder(s, a, b, key); }
    } else {
      assert HoldsSnapshotLock(PcOf(s, a), key) || t.snapshotLocks == s.snapshotLocks[key := a];
    }
  }

  lemma OwnStepKeepsListLock(s: State, step: Step)
    requires Enabled(s, step) && ListLockFits(s, step.a)
    ensures ListLockFits(Apply(s, step), step.a)
  {
    hide Edited, Pending;
  }

  lemma OthersStepKeepsListLock(s: State, step: Step, b: Agent)
    requires Enabled(s, step) && ListLockFits(s, b) && ListLockFits(s, step.a) && b != step.a
    ensures ListLockFits(Apply(s, step), b)
  {
    hide Edited, Pending;
    assert PcOf(Apply(s, step), b) == PcOf(s, b);
  }

  lemma StepKeepsListLock(s: State, step: Step, b: Agent)
    requires Enabled(s, step) && ListLockFits(s, b) && ListLockFits(s, step.a)
    ensures ListLockFits(Apply(s, step), b)
  {
    hide Apply, Enabled, ListLockFits;
    if b == step.a { OwnStepKeepsListLock(s, step); } else { OthersStepKeepsListLock(s, step, b); }
  }

  lemma StepKeepsLocks(s: State, step: Step)
    requires LocksHeld(s) && Enabled(s, step)
    ensures LocksHeld(Apply(s, step))
  {
    hide Edited, Pending, HoldsSnapshotLock, Apply;
    var t := Apply(s, step);
    forall b: Agent, key | HoldsSnapshotLock(PcOf(t, b), key)
      ensures key in t.snapshotLocks && t.snapshotLocks[key] == b
    {
      StepKeepsSnapshotLock(s, step, b, key);
    }
    forall b: Agent ensures ListLockFits(t, b) {
      assert ListLockFits(s, b) && ListLockFits(s, step.a);
      StepKeepsListLock(s, step, b);
    }
  }

  lemma OthersStillAwait(s: State, t: State, a: Agent, key: Key)
    requires Awaited(s, key) && (forall b: Agent :: b != a ==> PcOf(t, b) == PcOf(s, b))
    requires key in Pending(PcOf(s, a)) ==> key in Pending(PcOf(t, a))
    ensures Awaited(t, key)
  {
    var d :| key in Pending(PcOf(s, d));
    assert key in Pending(PcOf(t, d));
  }

  /** Taking the file away under the lock leaves no writer past its check on that room. */
  lemma RemovalLeavesNothing(s: State, a: Agent, key: Key)
    requires LocksHeld(s) && PcOf(s, a).ClearRemoves? && PcOf(s, a).todo != [] && PcOf(s, a).todo[0] == key
    ensures !Present(Apply(s, Advance(a)), key)
  {
    var t := Apply(s, Advance(a));
    if b: Agent :| PcOf(t, b) == RecordReads(key) || PcOf(t, b) == RecordWrites(key) {
      assert PcOf(s, b) == PcOf(t, b);
      OneHolder(s, a, b, key);
    }
  }

  /** A snapshot comes to be present only through a check that found its row. */
  lemma AppearsWithRow(s: State, step: Step, key: Key)
    requires Enabled(s, step) && Present(Apply(s, step), key) && !Present(s, key)
    ensures key in Apply(s, step).rows
  {
    hide Edited, Pending;
    assert forall b: Agent :: b != step.a ==> PcOf(Apply(s, step), b) == PcOf(s, b);
  }

  /** A row goes by a delete's write, and that delete then awaits the removal. */
  lemma RowGoesByDelete(s: State, step: Step, key: Key)
    requires Enabled(s, step) && ListLockFits(s, step.a) && key in s.rows && key !in Apply(s, step).rows
    ensures key in Pending(PcOf(Apply(s, step), step.a))
  {
  }

  /** A step that first leaves a snapshot without its row is a delete's, and the delete then awaits the removal. */
  lemma DeleterAwaits(s: State, step: Step, key: Key)
    requires LocksHeld(s) && Enabled(s, step)
    requires Present(Apply(s, step), key) && key !in Apply(s, step).rows && (Present(s, key) ==> key in s.rows)
    ensures key in Pending(PcOf(Apply(s, step), step.a))
  {
    assert ListLockFits(s, step.a);
    hide Apply, Enabled, Present, Pending, ListLockFits;
    if !Present(s, key) { AppearsWithRow(s, step, key); }
    RowGoesByDelete(s, step, key);
  }

  /** A pending removal stays pending until it is made or abandoned. */
  lemma OwnPendingStays(s: State, step: Step, key: Key)
    requires Enabled(s, step) && key in Pending(PcOf(s, step.a)) && key !in s.rows && key !in Apply(s, step).abandoned
    requires step.Advance? && PcOf(s, step.a).ClearRemoves? ==> PcOf(s, step.a).todo[0] != key
    ensures key in Pending(PcOf(Apply(s, step), step.a))
  {
    hide Edited;
  }

  lemma StepKeepsCover(s: State, step: Step, key: Key)
    requires Inv(s) && Enabled(s, step)
    ensures Covered(Apply(s, step), key)
  {
    var t, a := Apply(s, step), step.a;
    assert Covered(s, key);
    assert forall b: Agent :: b != a ==> PcOf(t, b) == PcOf(s, b);
    assert key in s.abandoned && key !in t.abandoned ==>
      key in t.rows || (step.Advance? && PcOf(s, a).ClearRemoves? && PcOf(s, a).todo[0] == key) by { if key in s.abandoned && key !in t.abandoned { LeavesAbandoned(s, step, key); } }
    hide Apply, Pending, Present, LocksHeld;
    if Present(t, key) && key !in t.rows && key !in t.abandoned {
      if step.Advance? && PcOf(s, a).ClearRemoves? && PcOf(s, a).todo[0] == key {
        RemovalLeavesNothing(s, a, key);
      } else if Present(s, key) && key !in s.rows {
        if key in Pending(PcOf(s, a)) { OwnPendingStays(s, step, key); }
        OthersStillAwait(s, t, a, key);
      } else {
        DeleterAwaits(s, step, key);
      }
    }
  }

  lemma LeavesAbandoned(s: State, step: Step, key: Key)
    requires Enabled(s, step) && key in s.abandoned && key !in Apply(s, step).abandoned
    ensures key in Apply(s, step).rows || (step.Advance? && PcOf(s, step.a).ClearRemoves? && PcOf(s, step.a).todo[0] == key)
  {
    hide Edited, Pending;
  }

  lemma StepKeeps(s: State, step: Step)
    requires Inv(s) && Enabled(s, step)
    ensures Inv(Apply(s, step))
  {
    StepKeepsLocks(s, step);
    forall key ensures Covered(Apply(s, step), key) { StepKeepsCover(s, step, key); }
  }

  // ---- runs ----

  ghost predicate PossibleRun(s: State, steps: seq<Step>)
    decreases |steps|
  {
    steps != [] ==> Enabled(s, steps[0]) && PossibleRun(Apply(s, steps[0]), steps[1..])
  }

  ghost function Run(s: State, steps: seq<Step>): State
    requires PossibleRun(s, steps)
    decreases |steps|
  {
    if steps == [] then s else Run(Apply(s, steps[0]), steps[1..])
  }

  lemma {:induction false} RunKeeps(s: State, steps: seq<Step>)
    requires Inv(s) && PossibleRun(s, steps)
    ensures Inv(Run(s, steps))
    decreases |steps|
  {
    hide Inv;
    if steps != [] {
      StepKeeps(s, steps[0]);
      RunKeeps(Apply(s, steps[0]), steps[1..]);
    }
  }

  lemma InitInv(s: State)
    requires Init(s)
    ensures Inv(s)
  {
  }

  /**
   Over every interleaving of bridge writers, deleters of any number of rooms, archivers
   and re-joins, a snapshot whose row is gone still has a deleter with its removal ahead,
   unless since its row went a removal of it failed or its deleter crashed, and none succeeded.
   */
  lemma NoOrphanSnapshots(s: State, steps: seq<Step>, key: Key)
    requires Init(s) && PossibleRun(s, steps)
    ensures var t := Run(s, steps);
            key in t.snapshots ==>
              key in t.rows || key in t.abandoned || exists d: Agent :: key in Pending(PcOf(t, d))
  {
    InitInv(s);
    RunKeeps(s, steps);
    assert Covered(Run(s, steps), key);
  }

  ghost predicate NoFailures(steps: seq<Step>) {
    forall i :: 0 <= i < |steps| ==> !steps[i].RemoveFails? && !steps[i].Crash?
  }

  lemma {:induction false} NothingAbandoned(s: State, steps: seq<Step>)
    requires PossibleRun(s, steps) && NoFailures(steps)
    ensures Run(s, steps).abandoned <= s.abandoned
    decreases |steps|
  {
    if steps != [] { NothingAbandoned(Apply(s, steps[0]), steps[1..]); }
  }

  /** Once every caller has finished, with no failed removal and no crash, every snapshot has its row. */
  lemma QuietMeansNoOrphans(s: State, steps: seq<Step>)
    requires Init(s) && PossibleRun(s, steps) && NoFailures(steps)
    requires forall a: Agent :: PcOf(Run(s, steps), a).Idle?
    ensures Run(s, steps).snapshots <= Run(s, steps).rows.Keys
  {
    NothingAbandoned(s, steps);
    forall key | key in Run(s, steps).snapshots ensures key in Run(s, steps).rows {
      NoOrphanSnapshots(s, steps, key);
    }
  }

  // ---- what stands behind a snapshot that appears ----

  /** The state before step `i` of a run. */
  ghost function StateAt(s: State, steps: seq<Step>, i: nat): State
    requires PossibleRun(s, steps) && i <= |steps|
    decreases i
  {
    if i == 0 then s else StateAt(Apply(s, steps[0]), steps[1..], i - 1)
  }

  lemma {:induction false} StepAt(s: State, steps: seq<Step>, i: nat)
    requires PossibleRun(s, steps) && i < |steps|
    ensures Enabled(StateAt(s, steps, i), steps[i])
    ensures StateAt(s, steps, i + 1) == Apply(StateAt(s, steps, i), steps[i])
    decreases i
  {
    hide Apply, Enabled;
    if i > 0 { StepAt(Apply(s, steps[0]), steps[1..], i - 1); }
  }

  lemma {:induction false} LocksAt(s: State, steps: seq<Step>, i: nat)
    requires LocksHeld(s) && PossibleRun(s, steps) && i <= |steps|
    ensures LocksHeld(StateAt(s, steps, i))
    decreases i
  {
    hide LocksHeld, Apply, Enabled;
    if i > 0 {
      StepKeepsLocks(s, steps[0]);
      LocksAt(Apply(s, steps[0]), steps[1..], i - 1);
    }
  }

  predicate PastCheck(pc: Pc, key: Key) {
    pc == RecordReads(key) || pc == RecordWrites(key)
  }

  lemma PassingTheCheck(s: State, step: Step, a: Agent, key: Key)
    requires Enabled(s, step) && PastCheck(PcOf(Apply(s, step), a), key)
    ensures PastCheck(PcOf(s, a), key) || (step == Advance(a) && PcOf(s, a) == RecordChecks(key) && Tracked(s.rows, key))
  {
    hide Edited, Pending;
  }

  lemma {:induction false} CheckedBefore(s: State, steps: seq<Step>, i: nat, a: Agent, key: Key) returns (j: nat)
    requires PossibleRun(s, steps) && i <= |steps| && !PastCheck(PcOf(s, a), key) && PastCheck(PcOf(StateAt(s, steps, i), a), key)
    ensures j < i && steps[j] == Advance(a) && PcOf(StateAt(s, steps, j), a) == RecordChecks(key)
    ensures Tracked(StateAt(s, steps, j).rows, key)
    ensures forall m :: j < m <= i ==> PastCheck(PcOf(StateAt(s, steps, m), a), key)
    decreases i
  {
    assert i > 0;
    StepAt(s, steps, i - 1);
    PassingTheCheck(StateAt(s, steps, i - 1), steps[i - 1], a, key);
    hide StateAt, PossibleRun, Apply, Enabled;
    if PastCheck(PcOf(StateAt(s, steps, i - 1), a), key) {
      j := CheckedBefore(s, steps, i - 1, a, key);
    } else {
      j := i - 1;
    }
  }

  lemma AppearsByAWrite(s: State, step: Step, key: Key)
    requires Enabled(s, step) && key !in s.snapshots && key in Apply(s, step).snapshots
    ensures step.Advance? && PcOf(s, step.a) == RecordWrites(key)
  {
    hide Edited, Pending;
  }

  /**
   Over every run: whenever a room's snapshot appears, the caller that wrote it had found
   the room's row stored and not archived, and held that snapshot's lock ever since.
   */
  lemma SnapshotsNeedActiveRows(s: State, steps: seq<Step>, k: nat, key: Key) returns (check: nat)
    requires Init(s) && PossibleRun(s, steps) && k < |steps|
    requires key !in StateAt(s, steps, k).snapshots && key in StateAt(s, steps, k + 1).snapshots
    ensures check < k && steps[check] == Advance(steps[k].a) && Tracked(StateAt(s, steps, check).rows, key)
    ensures forall m :: check <= m <= k ==>
              key in StateAt(s, steps, m).snapshotLocks && StateAt(s, steps, m).snapshotLocks[key] == steps[k].a
  {
    var a := steps[k].a;
    StepAt(s, steps, k);
    AppearsByAWrite(StateAt(s, steps, k), steps[k], key);
    assert !PastCheck(PcOf(s, a), key);
    InitInv(s);
    check := CheckedBefore(s, steps, k, a, key);
    hide StateAt, PossibleRun, Apply, Enabled, Init;
    forall m | check <= m <= k
      ensures key in StateAt(s, steps, m).snapshotLocks && StateAt(s, steps, m).snapshotLocks[key] == a
    {
      LocksAt(s, steps, m);
      assert HoldsSnapshotLock(PcOf(StateAt(s, steps, m), a), key);
    }
  }
}
