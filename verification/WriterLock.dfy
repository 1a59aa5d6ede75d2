/**
 The cross-process writer lock (src/storage/lock.ts) as a transition system: any number
 of processes, each running any number of asynchronous callers, one step per filesystem
 call, and crashes of whole processes at any point.

 A process id is never used again. `Config` says which of two branches runs may take:
 `agedReclaim` lets an age check on a file without a readable record answer "old enough",
 `takeover` lets a caller rename an abandoned reclaim file away. Mutual exclusion is
 shown to hold over every run exactly when both are switched off.
 */
module WriterLock {
  import opened Collections

  type Pid = nat

  /** One asynchronous caller of `withWriterLock` inside a process. */
  datatype Agent = Agent(pid: Pid, task: nat)

  /** File contents: created but not yet written, or a lock record. */
  datatype Raw = Blank | Record(pid: Pid, createdAt: int)

  /** A file that exists under some name; `owner` is the caller that created it. */
  datatype File = File(owner: Agent, raw: Raw)

  /** Where a caller stands: the next filesystem or liveness call it makes. */
  datatype Pc =
    | Idle
    | Creating(at: int)
    | Writing(at: int)
    | Critical(at: int)
    | Reading(at: int)
    | Judging(at: int, raw: Raw)
    | OpeningReclaim(at: int, raw: Raw)
    | Stamping(at: int, raw: Raw)
    | Rereading(at: int, raw: Raw)
    | Removing(at: int, raw: Raw)
    | ClosingReclaim(at: int)
    | ReadingReclaim(at: int)
    | JudgingReclaim(at: int, raw: Raw)
    | Renaming(at: int, raw: Raw)
    | Comparing(at: int, raw: Raw)
    | Restoring(at: int)

  datatype State = State(
    dead: set<Pid>,
    pcs: map<Agent, Pc>,
    primary: Option<File>,         // lockPath
    reclaim: Option<File>,         // lockPath.reclaim
    scratch: map<Agent, File>)     // reclaim files renamed away, by the caller that did it

  datatype Config = Config(agedReclaim: bool, takeover: bool)

  datatype Step =
    | Begin(a: Agent, at: int)
    | Create(a: Agent)
    | Write(a: Agent)
    | Release(a: Agent)
    | GiveUp(a: Agent)
    | ReadLock(a: Agent)
    | ReadFails(a: Agent)
    | Judge(a: Agent, aged: bool)
    | OpenReclaim(a: Agent)
    | Stamp(a: Agent)
    | Reread(a: Agent)
    | RemoveLock(a: Agent)
    | CloseReclaim(a: Agent)
    | ReadReclaim(a: Agent)
    | JudgeReclaim(a: Agent, aged: bool)
    | Rename(a: Agent)
    | Compare(a: Agent)
    | Restore(a: Agent)
    | Crash(pid: Pid)

  function PcOf(s: State, a: Agent): Pc {
    if a in s.pcs then s.pcs[a] else Idle
  }

  predicate Alive(s: State, a: Agent) {
    a.pid !in s.dead
  }

  function At(s: State, a: Agent, pc: Pc): State {
    s.(pcs := s.pcs[a := pc])
  }

  /** Judging a record asks whether its process lives; judging a blank file asks its age. */
  predicate Stale(s: State, raw: Raw, aged: bool) {
    match raw case Blank => aged case Record(pid, _) => pid in s.dead
  }

  predicate Enabled(cfg: Config, s: State, step: Step) {
    if step.Crash? then true
    else
      var pc := PcOf(s, step.a);
      && Alive(s, step.a)
      && match step
         case Begin(_, _) => pc.Idle?
         case Create(_) => pc.Creating?
         case Write(_) => pc.Writing?
         case Release(_) => pc.Critical?
         case GiveUp(_) => pc.Reading?
         case ReadLock(_) => pc.Reading?
         case ReadFails(_) => pc.Reading?
         case Judge(_, aged) => pc.Judging? && (aged && pc.raw.Blank? ==> cfg.agedReclaim)
         case OpenReclaim(_) => pc.OpeningReclaim?
         case Stamp(_) => pc.Stamping?
         case Reread(_) => pc.Rereading?
         case RemoveLock(_) => pc.Removing?
         case CloseReclaim(_) => pc.ClosingReclaim?
         case ReadReclaim(_) => pc.ReadingReclaim?
         case JudgeReclaim(_, aged) => pc.JudgingReclaim? && (aged && pc.raw.Blank? ==> cfg.agedReclaim)
         case Rename(_) => pc.Renaming? && cfg.takeover
         case Compare(_) => pc.Comparing? && step.a in s.scratch
         case Restore(_) => pc.Restoring? && step.a in s.scratch
  }

  /** A write through an open handle reaches the file wherever it now is, if anywhere. */
  function Written(file: Option<File>, a: Agent, raw: Raw): Option<File> {
    if file.Some? && file.value.owner == a then Some(File(a, raw)) else file
  }

  function WrittenScratch(scratch: map<Agent, File>, a: Agent, raw: Raw): map<Agent, File> {
    map c | c in scratch :: if scratch[c].owner == a then File(a, raw) else scratch[c]
  }

  function Apply(cfg: Config, s: State, step: Step): State
    requires Enabled(cfg, s, step)
  {
    match step
    case Begin(a, at) => At(s, a, Creating(at))
    case Create(a) =>
      var at := PcOf(s, a).at;
      if s.primary.None? then At(s.(primary := Some(File(a, Blank))), a, Writing(at)) else At(s, a, Reading(at))
    case Write(a) =>
      var at := PcOf(s, a).at;
      At(s.(primary := Written(s.primary, a, Record(a.pid, at))), a, Critical(at))
    case Release(a) => At(s.(primary := None), a, Idle)
    case GiveUp(a) => At(s, a, Idle)
    case ReadLock(a) =>
      var at := PcOf(s, a).at;
      if s.primary.None? then At(s, a, Creating(at)) else At(s, a, Judging(at, s.primary.value.raw))
    case ReadFails(a) => At(s, a, Creating(PcOf(s, a).at))
    case Judge(a, aged) =>
      var pc := PcOf(s, a);
      At(s, a, if Stale(s, pc.raw, aged) then OpeningReclaim(pc.at, pc.raw) else Creating(pc.at))
    case OpenReclaim(a) =>
      var pc := PcOf(s, a);
      if s.reclaim.None? then At(s.(reclaim := Some(File(a, Blank))), a, Stamping(pc.at, pc.raw)) else At(s, a, ReadingReclaim(pc.at))
    case Stamp(a) =>
      var pc := PcOf(s, a);
      var stamp := Record(a.pid, pc.at);
      At(s.(reclaim := Written(s.reclaim, a, stamp), scratch := WrittenScratch(s.scratch, a, stamp)), a, Rereading(pc.at, pc.raw))
    case Reread(a) =>
      var pc := PcOf(s, a);
      At(s, a, if s.primary.Some? && s.primary.value.raw == pc.raw then Removing(pc.at, pc.raw) else ClosingReclaim(pc.at))
    case RemoveLock(a) => At(s.(primary := None), a, ClosingReclaim(PcOf(s, a).at))
    case CloseReclaim(a) => At(s.(reclaim := None), a, Creating(PcOf(s, a).at))
    case ReadReclaim(a) =>
      var at := PcOf(s, a).at;
      if s.reclaim.None? then At(s, a, Creating(at)) else At(s, a, JudgingReclaim(at, s.reclaim.value.raw))
    case JudgeReclaim(a, aged) =>
      var pc := PcOf(s, a);
      At(s, a, if Stale(s, pc.raw, aged) then Renaming(pc.at, pc.raw) else Creating(pc.at))
    case Rename(a) =>
      var pc := PcOf(s, a);
      if s.reclaim.None? then At(s, a, Creating(pc.at))
      else At(s.(reclaim := None, scratch := s.scratch[a := s.reclaim.value]), a, Comparing(pc.at, pc.raw))
    case Compare(a) =>
      var pc := PcOf(s, a);
      if s.scratch[a].raw == pc.raw then At(s.(scratch := s.scratch - {a}), a, Creating(pc.at)) else At(s, a, Restoring(pc.at))
    case Restore(a) =>
      var at := PcOf(s, a).at;
      At(s.(reclaim := if s.reclaim.None? then Some(s.scratch[a]) else s.reclaim, scratch := s.scratch - {a}), a, Creating(at))
    case Crash(pid) => s.(dead := s.dead + {pid})
  }

  // ---- runs ----

  /** Nobody has started; files left behind belong to processes that are gone. */
  ghost predicate Init(s: State) {
    && (forall a :: PcOf(s, a).Idle?)
    && s.scratch == map[]
    && (s.primary.Some? ==> LeftBehind(s, s.primary.value))
    && (s.reclaim.Some? ==> LeftBehind(s, s.reclaim.value))
  }

  predicate LeftBehind(s: State, file: File) {
    file.owner.pid in s.dead && OwnRecord(file)
  }

  predicate OwnRecord(file: File) {
    file.raw.Blank? || file.raw.pid == file.owner.pid
  }

  ghost predicate Next(cfg: Config, s: State, t: State) {
    exists step :: Enabled(cfg, s, step) && t == Apply(cfg, s, step)
  }

  ghost predicate IsRun(cfg: Config, run: seq<State>) {
    run != [] && forall i :: 0 <= i < |run| - 1 ==> Next(cfg, run[i], run[i + 1])
  }

  ghost predicate Reaches(cfg: Config, s: State, t: State) {
    exists run :: IsRun(cfg, run) && run[0] == s && run[|run| - 1] == t
  }

  ghost predicate Exclusive(s: State) {
    forall a, b :: Alive(s, a) && Alive(s, b) && PcOf(s, a).Critical? && PcOf(s, b).Critical? ==> a == b
  }

  ghost predicate AlwaysExclusive(cfg: Config) {
    forall s, t :: Init(s) && Reaches(cfg, s, t) ==> Exclusive(t)
  }

  // ---- the invariant when neither branch is taken ----

  predicate HolderOwns(s: State, a: Agent) {
    Alive(s, a) ==>
      && (PcOf(s, a).Writing? ==> s.primary == Some(File(a, Blank)))
      && (PcOf(s, a).Critical? ==> s.primary == Some(File(a, Record(a.pid, PcOf(s, a).at))))
  }

  ghost predicate HoldersOwn(s: State) {
    forall a :: HolderOwns(s, a)
  }

  predicate Reclaiming(pc: Pc) {
    pc.Stamping? || pc.Rereading? || pc.Removing? || pc.ClosingReclaim?
  }

  predicate Expects(pc: Pc) {
    pc.OpeningReclaim? || pc.Stamping? || pc.Rereading? || pc.Removing?
  }

  predicate ReclaimerOwns(s: State, a: Agent) {
    Alive(s, a) ==>
      && (Reclaiming(PcOf(s, a)) ==> s.reclaim.Some? && s.reclaim.value.owner == a)
      && (Expects(PcOf(s, a)) ==> PcOf(s, a).raw.Record? && PcOf(s, a).raw.pid in s.dead)
      && (PcOf(s, a).Removing? ==> s.primary.Some? && s.primary.value.raw == PcOf(s, a).raw)
      && !PcOf(s, a).Comparing? && !PcOf(s, a).Restoring?
  }

  ghost predicate ReclaimersOwn(s: State) {
    forall a :: ReclaimerOwns(s, a)
  }

  ghost predicate FilesNamed(s: State) {
    && (s.primary.Some? ==> OwnRecord(s.primary.value))
    && (s.reclaim.Some? ==> OwnRecord(s.reclaim.value))
  }

  ghost predicate Inv(s: State) {
    HoldersOwn(s) && ReclaimersOwn(s) && FilesNamed(s)
  }

  predicate Plain(cfg: Config) {
    !cfg.agedReclaim && !cfg.takeover
  }

  /** An agent's own claims survive a step of any agent, given both agents' claims before it. */
  lemma StepKeepsHolder(cfg: Config, s: State, step: Step, a: Agent)
    requires Plain(cfg) && Enabled(cfg, s, step) && FilesNamed(s)
    requires HolderOwns(s, a) && (!step.Crash? ==> HolderOwns(s, step.a) && ReclaimerOwns(s, step.a))
    ensures HolderOwns(Apply(cfg, s, step), a)
  {
  }

  lemma OwnStepKeepsReclaimer(cfg: Config, s: State, step: Step)
    requires Plain(cfg) && Enabled(cfg, s, step) && FilesNamed(s) && !step.Crash?
    requires HolderOwns(s, step.a) && ReclaimerOwns(s, step.a)
    ensures ReclaimerOwns(Apply(cfg, s, step), step.a)
  {
    hide WrittenScratch;
  }

  lemma OthersStepKeepsReclaimer(cfg: Config, s: State, step: Step, a: Agent)
    requires Plain(cfg) && Enabled(cfg, s, step) && FilesNamed(s) && !step.Crash? && a != step.a
    requires ReclaimerOwns(s, a) && HolderOwns(s, step.a) && ReclaimerOwns(s, step.a)
    ensures ReclaimerOwns(Apply(cfg, s, step), a)
  {
    hide WrittenScratch, Stale;
    assert PcOf(Apply(cfg, s, step), a) == PcOf(s, a);
  }

  lemma StepKeepsReclaimer(cfg: Config, s: State, step: Step, a: Agent)
    requires Plain(cfg) && Enabled(cfg, s, step) && FilesNamed(s)
    requires HolderOwns(s, a) && ReclaimerOwns(s, a) && (!step.Crash? ==> HolderOwns(s, step.a) && ReclaimerOwns(s, step.a))
    ensures ReclaimerOwns(Apply(cfg, s, step), a)
  {
    if step.Crash? {
    } else {
      hide Apply, Enabled, ReclaimerOwns, HolderOwns, FilesNamed;
      if a == step.a { OwnStepKeepsReclaimer(cfg, s, step); } else { OthersStepKeepsReclaimer(cfg, s, step, a); }
    }
  }

  lemma StepKeepsFiles(cfg: Config, s: State, step: Step)
    requires Plain(cfg) && Enabled(cfg, s, step) && FilesNamed(s) && (!step.Crash? ==> ReclaimerOwns(s, step.a))
    ensures FilesNamed(Apply(cfg, s, step))
  {
  }

  lemma StepKeeps(cfg: Config, s: State, step: Step)
    requires Plain(cfg) && Inv(s) && Enabled(cfg, s, step)
    ensures Inv(Apply(cfg, s, step))
  {
    hide HolderOwns, ReclaimerOwns, FilesNamed, Apply, Enabled;
    forall a ensures HolderOwns(Apply(cfg, s, step), a) && ReclaimerOwns(Apply(cfg, s, step), a) {
      StepKeepsHolder(cfg, s, step, a);
      StepKeepsReclaimer(cfg, s, step, a);
    }
    StepKeepsFiles(cfg, s, step);
  }

  lemma {:induction false} RunKeeps(cfg: Config, run: seq<State>, i: nat)
    requires Plain(cfg) && IsRun(cfg, run) && Inv(run[0]) && i < |run|
    ensures Inv(run[i])
  {
    hide Inv;
    if i > 0 {
      RunKeeps(cfg, run, i - 1);
      assert Next(cfg, run[i - 1], run[i - 1 + 1]);
      var step :| Enabled(cfg, run[i - 1], step) && run[i] == Apply(cfg, run[i - 1], step);
      StepKeeps(cfg, run[i - 1], step);
    }
  }

  lemma OwnersExclude(s: State)
    requires HoldersOwn(s)
    ensures Exclusive(s)
  {
    forall a, b | Alive(s, a) && Alive(s, b) && PcOf(s, a).Critical? && PcOf(s, b).Critical? ensures a == b {
      assert HolderOwns(s, a) && HolderOwns(s, b);
    }
  }

  /** Over every run of any callers in any processes, crashes included, at most one live caller is inside. */
  lemma PlainRunsExclude(cfg: Config)
    requires Plain(cfg)
    ensures AlwaysExclusive(cfg)
  {
    forall s, t | Init(s) && Reaches(cfg, s, t)
      ensures Exclusive(t)
    {
      var run :| IsRun(cfg, run) && run[0] == s && run[|run| - 1] == t;
      RunKeeps(cfg, run, |run| - 1);
      OwnersExclude(t);
    }
  }

  lemma HolderStays(cfg: Config, t: State, step: Step, holder: Agent)
    requires Plain(cfg) && Enabled(cfg, t, step) && HolderOwns(t, holder)
    requires !step.Crash? ==> HolderOwns(t, step.a) && ReclaimerOwns(t, step.a)
    requires Alive(t, holder) && PcOf(t, holder).Critical?
    requires step != Release(holder) && step != Crash(holder.pid)
    ensures var next := Apply(cfg, t, step);
            && next.primary == t.primary && Alive(next, holder) && PcOf(next, holder) == PcOf(t, holder)
  {
  }

  /**
   While a live caller is inside, its lock file stays as it is whatever anyone else does:
   only its own release or the crash of its own process ends that.
   */
  lemma HolderIsSpared(cfg: Config, s: State, t: State, step: Step, holder: Agent)
    requires Plain(cfg) && Init(s) && Reaches(cfg, s, t) && Enabled(cfg, t, step)
    requires Alive(t, holder) && PcOf(t, holder).Critical?
    requires step != Release(holder) && step != Crash(holder.pid)
    ensures var next := Apply(cfg, t, step);
            && next.primary == t.primary == Some(File(holder, Record(holder.pid, PcOf(t, holder).at)))
            && Alive(next, holder) && PcOf(next, holder) == PcOf(t, holder)
  {
    var run :| IsRun(cfg, run) && run[0] == s && run[|run| - 1] == t;
    RunKeeps(cfg, run, |run| - 1);
    hide Apply, Init, Reaches;
    assert HolderOwns(t, holder);
    HolderStays(cfg, t, step, holder);
  }

  // ---- building runs ----

  lemma Stays(cfg: Config, s: State)
    ensures Reaches(cfg, s, s)
  {
    assert IsRun(cfg, [s]) && [s][0] == s;
  }

  lemma Then(cfg: Config, s: State, t: State, step: Step)
    requires Reaches(cfg, s, t) && Enabled(cfg, t, step)
    ensures Reaches(cfg, s, Apply(cfg, t, step))
  {
    var run :| IsRun(cfg, run) && run[0] == s && run[|run| - 1] == t;
    var next := Apply(cfg, t, step);
    var longer := run + [next];
    forall i | 0 <= i < |longer| - 1 ensures Next(cfg, longer[i], longer[i + 1]) {
      if i < |run| - 1 { assert Next(cfg, run[i], run[i + 1]); }
    }
    assert IsRun(cfg, longer) && longer[0] == s && longer[|longer| - 1] == next;
  }

  /** An idle live caller that finds a lock of a dead process gets as far as opening the reclaim file. */
  lemma JudgesDead(cfg: Config, s: State, t: State, a: Agent, at: int)
    requires Reaches(cfg, s, t) && Alive(t, a) && PcOf(t, a) in {Idle, Creating(at)}
    requires t.primary.Some? && t.primary.value.raw.Record? && t.primary.value.raw.pid in t.dead
    ensures Reaches(cfg, s, At(t, a, OpeningReclaim(at, t.primary.value.raw)))
  {
    var raw := t.primary.value.raw;
    var t1 := At(t, a, Creating(at));
    if PcOf(t, a).Idle? { Then(cfg, s, t, Begin(a, at)); } else { assert t1.pcs == t.pcs; }
    Then(cfg, s, t1, Create(a));
    var t2 := At(t1, a, Reading(at));
    Then(cfg, s, t2, ReadLock(a));
    var t3 := At(t2, a, Judging(at, raw));
    Then(cfg, s, t3, Judge(a, false));
    assert At(t3, a, OpeningReclaim(at, raw)).pcs == At(t, a, OpeningReclaim(at, raw)).pcs;
  }

  /** With no reclaim file in the way it then stands ready to remove the dead lock. */
  lemma ReadyToRemove(cfg: Config, s: State, t: State, a: Agent)
    requires Reaches(cfg, s, t) && Alive(t, a) && PcOf(t, a).OpeningReclaim? && t.reclaim.None? && t.scratch == map[]
    requires t.primary.Some? && t.primary.value.raw == PcOf(t, a).raw
    ensures var pc := PcOf(t, a);
            Reaches(cfg, s, At(t, a, Removing(pc.at, pc.raw)).(reclaim := Some(File(a, Record(a.pid, pc.at)))))
  {
    var pc := PcOf(t, a);
    Then(cfg, s, t, OpenReclaim(a));
    var t1 := At(t, a, Stamping(pc.at, pc.raw)).(reclaim := Some(File(a, Blank)));
    Then(cfg, s, t1, Stamp(a));
    var t2 := At(t1, a, Rereading(pc.at, pc.raw)).(reclaim := Some(File(a, Record(a.pid, pc.at))));
    assert t2 == Apply(cfg, t1, Stamp(a));
    Then(cfg, s, t2, Reread(a));
    var t3 := At(t2, a, Removing(pc.at, pc.raw));
    assert t3.pcs == At(t, a, Removing(pc.at, pc.raw)).pcs;
  }

  /** With the lock file absent an idle caller walks in. */
  lemma WalksIn(cfg: Config, s: State, t: State, a: Agent, at: int)
    requires Reaches(cfg, s, t) && Alive(t, a) && PcOf(t, a) in {Idle, Creating(at)} && t.primary.None?
    ensures Reaches(cfg, s, At(t, a, Critical(at)).(primary := Some(File(a, Record(a.pid, at)))))
  {
    var t1 := At(t, a, Creating(at));
    if PcOf(t, a).Idle? { Then(cfg, s, t, Begin(a, at)); } else { assert t1.pcs == t.pcs; }
    Then(cfg, s, t1, Create(a));
    var t2 := At(t1, a, Writing(at)).(primary := Some(File(a, Blank)));
    Then(cfg, s, t2, Write(a));
    var t3 := At(t2, a, Critical(at)).(primary := Some(File(a, Record(a.pid, at))));
    assert t3.pcs == At(t, a, Critical(at)).pcs;
  }

  /**
   Crash recovery: if the holder's process died and no reclaim file exists, a live idle
   caller running alone removes the stale lock and gets in, in every configuration.
   */
  lemma DeadHolderIsRecovered(cfg: Config, s: State, a: Agent, at: int)
    requires Alive(s, a) && PcOf(s, a).Idle? && s.reclaim.None? && s.scratch == map[]
    requires s.primary.Some? && s.primary.value.raw.Record? && s.primary.value.raw.pid in s.dead
    ensures Reaches(cfg, s, At(s, a, Critical(at)).(primary := Some(File(a, Record(a.pid, at)))))
  {
    var raw := s.primary.value.raw;
    Stays(cfg, s);
    JudgesDead(cfg, s, s, a, at);
    var t1 := At(s, a, OpeningReclaim(at, raw));
    ReadyToRemove(cfg, s, t1, a);
    var t2 := At(t1, a, Removing(at, raw)).(reclaim := Some(File(a, Record(a.pid, at))));
    Then(cfg, s, t2, RemoveLock(a));
    var t3 := At(t2, a, ClosingReclaim(at)).(primary := None);
    Then(cfg, s, t3, CloseReclaim(a));
    var t4 := At(t3, a, Creating(at)).(reclaim := None);
    WalksIn(cfg, s, t4, a, at);
    assert At(t4, a, Critical(at)).pcs == At(s, a, Critical(at)).pcs;
  }

  // ---- why both branches must stay off ----

  /** Two live processes inside: a slow creator whose blank file was judged old enough and reclaimed. */
  lemma AgedReclaimBreaksExclusion(cfg: Config)
    requires cfg.agedReclaim
    ensures !AlwaysExclusive(cfg)
  {
    hide Reaches;
    var slow, fast := Agent(1, 0), Agent(2, 0);
    var s := State({}, map[], None, None, map[]);
    Stays(cfg, s);
    Then(cfg, s, s, Begin(slow, 0));
    var t1 := At(s, slow, Creating(0));
    Then(cfg, s, t1, Create(slow));
    var t2 := At(t1, slow, Writing(0)).(primary := Some(File(slow, Blank)));
    BlankIsReclaimed(cfg, s, t2, slow, fast);
  }

  lemma BlankIsReclaimed(cfg: Config, s: State, t: State, slow: Agent, fast: Agent)
    requires cfg.agedReclaim && Init(s) && Reaches(cfg, s, t) && slow != fast && Alive(t, slow) && Alive(t, fast)
    requires PcOf(t, slow) == Writing(0) && PcOf(t, fast).Idle? && t.primary == Some(File(slow, Blank)) && t.reclaim.None? && t.scratch == map[]
    ensures !AlwaysExclusive(cfg)
  {
    hide Reaches;
    Then(cfg, s, t, Begin(fast, 0));
    var t1 := At(t, fast, Creating(0));
    Then(cfg, s, t1, Create(fast));
    var t2 := At(t1, fast, Reading(0));
    Then(cfg, s, t2, ReadLock(fast));
    var t3 := At(t2, fast, Judging(0, Blank));
    Then(cfg, s, t3, Judge(fast, true));
    var t4 := At(t3, fast, OpeningReclaim(0, Blank));
    ReadyToRemove(cfg, s, t4, fast);
    var t5 := At(t4, fast, Removing(0, Blank)).(reclaim := Some(File(fast, Record(fast.pid, 0))));
    Then(cfg, s, t5, RemoveLock(fast));
    var t6 := At(t5, fast, ClosingReclaim(0)).(primary := None);
    Then(cfg, s, t6, CloseReclaim(fast));
    var t7 := At(t6, fast, Creating(0)).(reclaim := None);
    BothWalkIn(cfg, s, t7, slow, fast);
  }

  lemma BothWalkIn(cfg: Config, s: State, t: State, slow: Agent, fast: Agent)
    requires Init(s) && Reaches(cfg, s, t) && slow != fast && Alive(t, slow) && Alive(t, fast)
    requires PcOf(t, slow) == Writing(0) && PcOf(t, fast) == Creating(0) && t.primary.None?
    ensures !AlwaysExclusive(cfg)
  {
    hide Reaches;
    WalksIn(cfg, s, t, fast, 0);
    var t1 := At(t, fast, Critical(0)).(primary := Some(File(fast, Record(fast.pid, 0))));
    Then(cfg, s, t1, Write(slow));
    var t2 := At(t1, slow, Critical(0));
    assert !Exclusive(t2) by {
      assert PcOf(t2, slow).Critical? && PcOf(t2, fast).Critical? && Alive(t2, slow) && Alive(t2, fast);
    }
  }

  /** A caller that finds both the lock and the reclaim file of dead processes stands ready to rename. */
  lemma ReadyToRename(cfg: Config, s: State, t: State, a: Agent, at: int)
    requires Reaches(cfg, s, t) && Alive(t, a) && PcOf(t, a).Idle?
    requires t.primary.Some? && t.primary.value.raw.Record? && t.primary.value.raw.pid in t.dead
    requires t.reclaim.Some? && t.reclaim.value.raw.Record? && t.reclaim.value.raw.pid in t.dead
    ensures Reaches(cfg, s, At(t, a, Renaming(at, t.reclaim.value.raw)))
  {
    JudgesDead(cfg, s, t, a, at);
    var t1 := At(t, a, OpeningReclaim(at, t.primary.value.raw));
    Then(cfg, s, t1, OpenReclaim(a));
    var t2 := At(t1, a, ReadingReclaim(at));
    Then(cfg, s, t2, ReadReclaim(a));
    var t3 := At(t2, a, JudgingReclaim(at, t.reclaim.value.raw));
    Then(cfg, s, t3, JudgeReclaim(a, false));
    assert At(t3, a, Renaming(at, t.reclaim.value.raw)).pcs == At(t, a, Renaming(at, t.reclaim.value.raw)).pcs;
  }

  /**
   Two live processes inside: a cleaner acting late renames a fresh reclaim file away, so two
   reclaimers stand ready at once and the second removes a live holder's lock.
   */
  lemma TakeoverBreaksExclusion(cfg: Config)
    requires cfg.takeover
    ensures !AlwaysExclusive(cfg)
  {
    hide Reaches, AlwaysExclusive;
    var late, first := Agent(3, 0), Agent(4, 0);
    var lock, abandoned := Record(1, 0), Record(2, 0);
    var s := State({1, 2}, map[], Some(File(Agent(1, 0), lock)), Some(File(Agent(2, 0), abandoned)), map[]);
    Stays(cfg, s);
    ReadyToRename(cfg, s, s, late, 0);
    var t1 := At(s, late, Renaming(0, abandoned));
    ReadyToRename(cfg, s, t1, first, 0);
    var t2 := At(t1, first, Renaming(0, abandoned));
    Then(cfg, s, t2, Rename(first));
    var t3 := At(t2, first, Comparing(0, abandoned)).(reclaim := None, scratch := map[first := s.reclaim.value]);
    Then(cfg, s, t3, Compare(first));
    var t4 := At(t3, first, Creating(0)).(scratch := map[]);
    assert t4 == Apply(cfg, t3, Compare(first));
    CleanerActsLate(cfg, s, t4, late, first, lock);
  }

  lemma CleanerActsLate(cfg: Config, s: State, t: State, late: Agent, first: Agent, lock: Raw)
    requires cfg.takeover && Init(s) && Reaches(cfg, s, t) && t.dead == {1, 2}
    requires late == Agent(3, 0) && first == Agent(4, 0) && t.pcs.Keys == {late, first}
    requires PcOf(t, late).Renaming? && PcOf(t, late).at == 0 && PcOf(t, first) == Creating(0) && t.reclaim.None? && t.scratch == map[]
    requires t.primary.Some? && t.primary.value.raw == lock && lock.Record? && lock.pid in t.dead
    ensures !AlwaysExclusive(cfg)
  {
    hide Reaches, AlwaysExclusive;
    JudgesDead(cfg, s, t, first, 0);
    var t1 := At(t, first, OpeningReclaim(0, lock));
    ReadyToRemove(cfg, s, t1, first);
    var t2 := At(t1, first, Removing(0, lock)).(reclaim := Some(File(first, Record(first.pid, 0))));
    Then(cfg, s, t2, Rename(late));
    var t3 := Apply(cfg, t2, Rename(late));
    SecondReclaimerIntrudes(cfg, s, t3, first, Agent(5, 0), Agent(6, 0), Agent(7, 0), lock);
  }

  lemma SecondReclaimerIntrudes(cfg: Config, s: State, t: State, first: Agent, second: Agent, victim: Agent, intruder: Agent, lock: Raw)
    requires Init(s) && Reaches(cfg, s, t)
    requires first != second && first != victim && first != intruder && second != victim && second != intruder && victim != intruder
    requires Alive(t, first) && Alive(t, second) && Alive(t, victim) && Alive(t, intruder)
    requires PcOf(t, first) == Removing(0, lock) && PcOf(t, second).Idle? && PcOf(t, victim).Idle? && PcOf(t, intruder).Idle?
    requires t.primary.Some? && t.primary.value.raw == lock && lock.Record? && lock.pid in t.dead && t.reclaim.None?
    ensures !AlwaysExclusive(cfg)
  {
    hide Reaches;
    JudgesDead(cfg, s, t, second, 0);
    var t1 := At(t, second, OpeningReclaim(0, lock));
    Then(cfg, s, t1, OpenReclaim(second));
    var t2 := At(t1, second, Stamping(0, lock)).(reclaim := Some(File(second, Blank)));
    Then(cfg, s, t2, Stamp(second));
    var t3 := Apply(cfg, t2, Stamp(second));
    Then(cfg, s, t3, Reread(second));
    var t4 := At(t3, second, Removing(0, lock));
    Then(cfg, s, t4, RemoveLock(first));
    var t5 := At(t4, first, ClosingReclaim(0)).(primary := None);
    WalksIn(cfg, s, t5, victim, 0);
    var t6 := At(t5, victim, Critical(0)).(primary := Some(File(victim, Record(victim.pid, 0))));
    Then(cfg, s, t6, RemoveLock(second));
    var t7 := At(t6, second, ClosingReclaim(0)).(primary := None);
    WalksIn(cfg, s, t7, intruder, 0);
    var t8 := At(t7, intruder, Critical(0)).(primary := Some(File(intruder, Record(intruder.pid, 0))));
    assert !Exclusive(t8) by {
      assert PcOf(t8, victim).Critical? && PcOf(t8, intruder).Critical? && Alive(t8, victim) && Alive(t8, intruder);
    }
  }

  /** Mutual exclusion holds over every run exactly when runs take neither branch. */
  lemma ExclusionExactly(cfg: Config)
    ensures AlwaysExclusive(cfg) <==> Plain(cfg)
  {
    if Plain(cfg) { PlainRunsExclude(cfg); }
    if cfg.agedReclaim { AgedReclaimBreaksExclusion(cfg); }
    if cfg.takeover { TakeoverBreaksExclusion(cfg); }
  }

  // ---- the step that breaks it ----

  /** A reclaimer removes a lock file whose creator lives. */
  predicate Robs(s: State, step: Step) {
    step.RemoveLock? && s.primary.Some? && Alive(s, s.primary.value.owner)
  }

  ghost predicate GentleNext(cfg: Config, s: State, t: State) {
    exists step :: Enabled(cfg, s, step) && !Robs(s, step) && t == Apply(cfg, s, step)
  }

  ghost predicate IsGentleRun(cfg: Config, run: seq<State>) {
    run != [] && forall i :: 0 <= i < |run| - 1 ==> GentleNext(cfg, run[i], run[i + 1])
  }

  /** A file at the lock's path whose creator lives is one the creator is writing or holding. */
  predicate OwnerHolds(s: State) {
    s.primary.Some? && Alive(s, s.primary.value.owner) ==>
      PcOf(s, s.primary.value.owner).Writing? || PcOf(s, s.primary.value.owner).Critical?
  }

  lemma GentleKeepsHolder(cfg: Config, s: State, step: Step, a: Agent)
    requires Enabled(cfg, s, step) && !Robs(s, step) && HolderOwns(s, a) && (!step.Crash? ==> HolderOwns(s, step.a))
    ensures HolderOwns(Apply(cfg, s, step), a)
  {
    hide Stale, WrittenScratch;
  }

  lemma StepKeepsOwnerHolds(cfg: Config, s: State, step: Step)
    requires Enabled(cfg, s, step) && OwnerHolds(s) && (!step.Crash? ==> HolderOwns(s, step.a))
    ensures OwnerHolds(Apply(cfg, s, step))
  {
    hide Stale, WrittenScratch;
  }

  lemma {:induction false} GentleRunKeeps(cfg: Config, run: seq<State>, i: nat)
    requires IsGentleRun(cfg, run) && Init(run[0]) && i < |run|
    ensures HoldersOwn(run[i]) && OwnerHolds(run[i])
  {
    hide HolderOwns, OwnerHolds, Robs, Apply, Enabled;
    if i == 0 {
      InitHolds(run[0]);
    } else {
      GentleRunKeeps(cfg, run, i - 1);
      var s := run[i - 1];
      assert GentleNext(cfg, s, run[i - 1 + 1]);
      var step :| Enabled(cfg, s, step) && !Robs(s, step) && run[i] == Apply(cfg, s, step);
      forall a ensures HolderOwns(run[i], a) { GentleKeepsHolder(cfg, s, step, a); }
      StepKeepsOwnerHolds(cfg, s, step);
    }
  }

  lemma InitHolds(s: State)
    requires Init(s)
    ensures HoldersOwn(s) && OwnerHolds(s)
  {
  }

  /** In every run, of either branch, in which no reclaimer removes the lock file of a live creator, at most one is inside. */
  lemma GentleRunsExclude(cfg: Config, run: seq<State>, i: nat)
    requires IsGentleRun(cfg, run) && Init(run[0]) && i < |run|
    ensures Exclusive(run[i])
  {
    GentleRunKeeps(cfg, run, i);
    OwnersExclude(run[i]);
  }

  lemma GentleIsRun(cfg: Config, run: seq<State>)
    requires IsGentleRun(cfg, run)
    ensures Reaches(cfg, run[0], run[|run| - 1])
  {
    hide Apply, Enabled, Robs;
    forall i | 0 <= i < |run| - 1 ensures Next(cfg, run[i], run[i + 1]) { assert GentleNext(cfg, run[i], run[i + 1]); }
    assert IsRun(cfg, run);
  }

  /** A run without such a step, and such a step possible at its end. */
  ghost predicate ComesToRob(cfg: Config, run: seq<State>, step: Step) {
    IsGentleRun(cfg, run) && Init(run[0]) && Enabled(cfg, run[|run| - 1], step) && Robs(run[|run| - 1], step)
  }

  /** Once that has happened in a run, the robber itself can get in beside the robbed. */
  lemma RobberyBreaksExclusion(cfg: Config, run: seq<State>, step: Step)
    requires ComesToRob(cfg, run, step)
    ensures !AlwaysExclusive(cfg)
  {
    var s0, s := run[0], run[|run| - 1];
    GentleRunKeeps(cfg, run, |run| - 1);
    GentleIsRun(cfg, run);
    var a, b, at := s.primary.value.owner, step.a, PcOf(s, step.a).at;
    assert HolderOwns(s, a);
    hide Reaches;
    Then(cfg, s0, s, step);
    var t1 := At(s, b, ClosingReclaim(at)).(primary := None);
    Then(cfg, s0, t1, CloseReclaim(b));
    var t2 := At(t1, b, Creating(at)).(reclaim := None);
    WalksIn(cfg, s0, t2, b, at);
    var t3 := At(t2, b, Critical(at)).(primary := Some(File(b, Record(b.pid, at))));
    BothInside(cfg, s0, t3, a, b);
  }

  lemma BothInside(cfg: Config, s: State, t: State, a: Agent, b: Agent)
    requires Init(s) && Reaches(cfg, s, t) && a != b && Alive(t, a) && Alive(t, b)
    requires PcOf(t, b).Critical? && (PcOf(t, a).Critical? || PcOf(t, a).Writing?)
    ensures !AlwaysExclusive(cfg)
  {
    hide Reaches;
    if PcOf(t, a).Critical? {
      assert !Exclusive(t);
    } else {
      Then(cfg, s, t, Write(a));
      var t1 := Apply(cfg, t, Write(a));
      assert PcOf(t1, a).Critical? && PcOf(t1, b).Critical?;
      assert !Exclusive(t1);
    }
  }

  lemma {:induction false} RunIsGentle(cfg: Config, run: seq<State>, i: nat)
    requires IsRun(cfg, run) && Init(run[0]) && i < |run|
    requires forall gentle, step :: !ComesToRob(cfg, gentle, step)
    ensures IsGentleRun(cfg, run[..i + 1])
  {
    hide Apply, Enabled, Robs, Init;
    if i > 0 {
      RunIsGentle(cfg, run, i - 1);
      var gentle, longer := run[..i], run[..i + 1];
      assert gentle[0] == run[0] && gentle[|gentle| - 1] == run[i - 1];
      assert Next(cfg, run[i - 1], run[i - 1 + 1]);
      var step :| Enabled(cfg, run[i - 1], step) && run[i] == Apply(cfg, run[i - 1], step);
      assert !ComesToRob(cfg, gentle, step);
      assert GentleNext(cfg, run[i - 1], run[i]);
      forall j | 0 <= j < |longer| - 1 ensures GentleNext(cfg, longer[j], longer[j + 1]) {
        if j < i - 1 { assert GentleNext(cfg, gentle[j], gentle[j + 1]); }
      }
    }
  }

  /**
   Which step decides: all runs exclude exactly when no run ever comes to where a reclaimer
   can remove the lock file of a live creator.
   */
  lemma RobberyExactly(cfg: Config)
    ensures AlwaysExclusive(cfg) <==> forall run, step :: !ComesToRob(cfg, run, step)
  {
    hide Apply, Enabled, Robs, Init, Exclusive;
    if run, step :| ComesToRob(cfg, run, step) {
      RobberyBreaksExclusion(cfg, run, step);
    } else {
      forall s, t | Init(s) && Reaches(cfg, s, t) ensures Exclusive(t) {
        var run :| IsRun(cfg, run) && run[0] == s && run[|run| - 1] == t;
        RunIsGentle(cfg, run, |run| - 1);
        assert run[..|run|] == run;
        GentleRunsExclude(cfg, run, |run| - 1);
      }
    }
  }
}
