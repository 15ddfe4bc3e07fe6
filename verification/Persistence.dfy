/** The deferred persistence protocol of the configuration store as an interleaved step machine.

    Any number of calls run at once: settings edits (`Setter`), `Save`, `Flush` and the two
    deferred updates (`Defer`).  Call 0 is the `Flush` of the background flusher.  Each action
    below is one atomic instruction of one call, so slow disk writes are simply runs in which
    other calls take many steps between `Writing` and `Written`. */
module Persistence {

  /** One change of the configuration held in memory.  A configuration is the sequence of changes
      that made it, so "snapshot a is no newer than snapshot b" is a prefix relation. */
  datatype Mutation = Edit(what: nat) | Deferred(what: nat)
  datatype Content = Content(log: seq<Mutation>) {
    predicate UpTo(newer: Content) { log <= newer.log }
    function Then(m: Mutation): Content { Content(log + [m]) }
  }

  /** What a path on disk holds.  `Partial` is a file whose write has begun but not ended. */
  datatype File = Absent | Partial | Complete(content: Content)

  datatype Kind = Setter | Save | Flush | Defer

  /** Where a call is.  `Ready` is about to marshal, `Numbered` has its sequence number,
      `InFile` holds `fileMu`, `Cas(cur)` has loaded `flushedGen` as `cur`. */
  datatype Stage =
    | Idle | Called | Holding | Changed | Bumped
    | Ready | Marshalled | Numbered
    | WantFile | InFile | Writing | Written | Renamed
    | Advancing | Cas(cur: nat) | Done(ok: bool)

  /** A call: its snapshot, the snapshot's sequence number, the generation it covers, and `need`,
      the value of `mutGen` when the call was made (a history variable). */
  datatype Proc = Proc(kind: Kind, stage: Stage, what: Mutation, content: Content, num: nat, gen: nat, need: nat)

  datatype Flusher = Off | Waiting | Sleeping | Flushing | Retrying

  /** `history[i]` is the snapshot numbered `i + 1`; `bootFile` is what the path held when this
      process started.  Both are history variables. */
  datatype State = State(
    mem: Content, path: File, tmp: File,
    writer: int, readers: set<int>, fileMu: int,
    lastWritten: nat, seqNo: nat, mutGen: nat, flushedGen: nat,
    procs: seq<Proc>, kick: bool, flusher: Flusher,
    bootFile: File, history: seq<Content>)

  const NOBODY: int := -1

  datatype Action =
    | Invoke(t: nat, kind: Kind, what: Mutation)
    | Run(t: nat)
    | Fail(t: nat)
    | Wake | Begin | Retry
    | Crash

  /** What `Load` reads back. */
  function Loaded(f: File): Content {
    if f.Complete? then f.content else Content([])
  }

  /** The positions of the deferred updates among the changes that made a configuration. */
  function DeferredIn(log: seq<Mutation>): set<nat> {
    set i: nat | i < |log| && log[i].Deferred?
  }

  /** How many deferred updates a configuration contains. */
  function DeferredCount(c: Content): nat { |DeferredIn(c.log)| }

  const IDLE := Proc(Save, Idle, Edit(0), Content([]), 0, 0, 0)

  function Boot(disk: File, tmp: File, calls: nat): State {
    State(Loaded(disk), disk, tmp, NOBODY, {}, NOBODY, 0, 0, 0, 0,
          seq(calls + 1, i => IDLE), false, Off, disk, [])
  }

  predicate Initial(s: State) {
    && 0 < |s.procs|
    && !s.path.Partial?
    && s == Boot(s.path, s.tmp, |s.procs| - 1)
  }

  // ----- the actions -----

  function At(s: State, t: nat, p: Proc): State
    requires t < |s.procs|
  {
    s.(procs := s.procs[t := p])
  }

  predicate Fits(kind: Kind, what: Mutation) {
    (kind.Setter? ==> what.Edit?) && (kind.Defer? ==> what.Deferred?)
  }

  predicate CanRun(s: State, t: nat)
    requires t < |s.procs|
  {
    var p := s.procs[t];
    if p.stage.Idle? then false
    else if p.stage.Called? then
      s.writer == NOBODY && (p.kind.Setter? || p.kind.Defer? ==> s.readers == {})
    else if p.stage.WantFile? then s.fileMu == NOBODY
    else true
  }

  predicate CanFail(s: State, t: nat)
    requires t < |s.procs|
  {
    var p := s.procs[t];
    p.stage.Ready? || (p.stage.InFile? && p.num >= s.lastWritten) || p.stage.Writing? || p.stage.Written?
  }

  predicate Enabled(s: State, a: Action) {
    match a
    case Invoke(t, kind, what) => 0 < t < |s.procs| && s.procs[t].stage.Idle? && Fits(kind, what)
    case Run(t) => t < |s.procs| && CanRun(s, t)
    case Fail(t) => t < |s.procs| && CanFail(s, t)
    case Wake => s.flusher.Waiting? && s.kick
    case Begin => s.flusher.Sleeping? && 0 < |s.procs|
    case Retry => s.flusher.Retrying?
    case Crash => 0 < |s.procs|
  }

  predicate Leaving(g: Stage) { g.Changed? || g.Bumped? || g.Done? }
  predicate Numbering(g: Stage) { g.Ready? || g.Marshalled? || g.Numbered? }
  predicate Filing(g: Stage) { g.WantFile? || g.InFile? || g.Writing? || g.Written? || g.Renamed? }

  /** Taking `mu`: shared for `Save` and `Flush`, exclusive for the others. */
  function DoLock(s: State, t: nat): State
    requires t < |s.procs| && s.procs[t].stage.Called?
  {
    var p := s.procs[t];
    if p.kind.Save? then At(s, t, p.(stage := Ready)).(readers := s.readers + {t})
    else if p.kind.Flush? then At(s, t, p.(stage := Holding)).(readers := s.readers + {t})
    else At(s, t, p.(stage := Holding)).(writer := t)
  }

  /** The first instruction under `mu`: change memory, or (Flush) compare generations. */
  function DoStart(s: State, t: nat): State
    requires t < |s.procs| && s.procs[t].stage.Holding?
  {
    var p := s.procs[t];
    if p.kind.Flush? then
      if s.mutGen == s.flushedGen
      then At(s, t, p.(stage := Done(true), gen := s.mutGen)).(readers := s.readers - {t})
      else At(s, t, p.(stage := Ready, gen := s.mutGen))
    else At(s, t, p.(stage := if p.kind.Defer? then Changed else Ready)).(mem := s.mem.Then(p.what))
  }

  /** Marking the configuration dirty and waking the flusher, and returning from a call. */
  function DoLeave(s: State, t: nat): State
    requires t < |s.procs| && Leaving(s.procs[t].stage)
  {
    var p := s.procs[t];
    match p.stage
    case Changed => At(s, t, p.(stage := Bumped)).(mutGen := s.mutGen + 1)
    case Bumped => At(s, t, p.(stage := Done(true))).(
                   kick := true, flusher := if s.flusher.Off? then Waiting else s.flusher)
    case Done(ok) =>
      At(s, t, p.(stage := Idle)).(
        readers := s.readers - {t},
        writer := if s.writer == t then NOBODY else s.writer,
        flusher := if t != 0 then s.flusher else if ok then Waiting else Retrying)
  }

  /** Marshalling under `mu` and taking the snapshot's sequence number. */
  function DoNumber(s: State, t: nat): State
    requires t < |s.procs| && Numbering(s.procs[t].stage)
  {
    var p := s.procs[t];
    match p.stage
    case Ready => At(s, t, p.(stage := Marshalled, content := s.mem))
    case Marshalled => At(s, t, p.(stage := Numbered, num := s.seqNo + 1)).(
                       seqNo := s.seqNo + 1, history := s.history + [p.content])
    case Numbered =>
      if p.kind.Flush? then At(s, t, p.(stage := WantFile)).(readers := s.readers - {t})
      else At(s, t, p.(stage := WantFile, gen := s.mutGen))
  }

  /** `writeSnapshot`: temporary file and rename under `fileMu`, skipped when a newer one is on disk. */
  function DoFile(s: State, t: nat): State
    requires t < |s.procs| && Filing(s.procs[t].stage)
  {
    var p := s.procs[t];
    match p.stage
    case WantFile => At(s, t, p.(stage := InFile)).(fileMu := t)
    case InFile =>
      if p.num < s.lastWritten then At(s, t, p.(stage := Advancing)).(fileMu := NOBODY)
      else At(s, t, p.(stage := Writing)).(tmp := Partial)
    case Writing => At(s, t, p.(stage := Written)).(tmp := Complete(p.content))
    case Written => At(s, t, p.(stage := Renamed)).(path := s.tmp, tmp := Absent)
    case Renamed => At(s, t, p.(stage := Advancing)).(lastWritten := p.num, fileMu := NOBODY)
  }

  /** The compare-and-swap of `advanceFlushed`: nothing to do, done, or lost the race. */
  function DoSwap(s: State, t: nat): State
    requires t < |s.procs| && s.procs[t].stage.Cas?
  {
    var p := s.procs[t];
    var cur := p.stage.cur;
    if p.gen <= cur then At(s, t, p.(stage := Done(true)))
    else if s.flushedGen == cur then At(s, t, p.(stage := Done(true))).(flushedGen := p.gen)
    else At(s, t, p.(stage := Advancing))
  }

  function DoRun(s: State, t: nat): State
    requires t < |s.procs| && CanRun(s, t)
  {
    var g := s.procs[t].stage;
    if g.Called? then DoLock(s, t)
    else if g.Holding? then DoStart(s, t)
    else if Leaving(g) then DoLeave(s, t)
    else if Numbering(g) then DoNumber(s, t)
    else if Filing(g) then DoFile(s, t)
    else if g.Advancing? then At(s, t, s.procs[t].(stage := Cas(s.flushedGen)))
    else DoSwap(s, t)
  }

  /** The error exits.  A failing marshal in `Flush` has already consumed a sequence number. */
  function DoFail(s: State, t: nat): State
    requires t < |s.procs| && CanFail(s, t)
  {
    var p := s.procs[t];
    var q := p.(stage := Done(false));
    if p.stage.Ready? then
      if p.kind.Flush?
      then At(s, t, q).(readers := s.readers - {t}, seqNo := s.seqNo + 1, history := s.history + [s.mem])
      else At(s, t, q)
    else At(s, t, q).(fileMu := NOBODY)
  }

  function Do(s: State, a: Action): State
    requires Enabled(s, a)
  {
    match a
    case Invoke(t, kind, what) => At(s, t, Proc(kind, Called, what, Content([]), 0, 0, s.mutGen))
    case Run(t) => DoRun(s, t)
    case Fail(t) => DoFail(s, t)
    case Wake => s.(kick := false, flusher := Sleeping)
    case Begin => At(s, 0, Proc(Flush, Called, Edit(0), Content([]), 0, 0, s.mutGen)).(flusher := Flushing)
    case Retry => s.(kick := true, flusher := Waiting)
    case Crash => Boot(s.path, s.tmp, |s.procs| - 1)
  }

  ghost predicate Step(s: State, s': State) {
    exists a :: Enabled(s, a) && s' == Do(s, a)
  }

  ghost predicate StepAt(r: seq<State>, i: nat)
    requires i + 1 < |r|
  {
    Step(r[i], r[i + 1])
  }

  /** A run: any interleaving, any failures, any number of crashes and restarts. */
  ghost predicate IsRun(r: seq<State>) {
    && r != []
    && Initial(r[0])
    && forall i: nat :: i + 1 < |r| ==> StepAt(r, i)
  }

  // ----- the invariant -----

  predicate HoldsWrite(p: Proc) {
    (p.kind.Setter? || p.kind.Defer?) && !p.stage.Idle? && !p.stage.Called?
  }

  predicate HoldsRead(p: Proc) {
    || (p.kind.Save? && !p.stage.Idle? && !p.stage.Called?)
    || (p.kind.Flush? && (p.stage.Holding? || Numbering(p.stage)))
  }

  predicate HoldsFile(p: Proc) {
    p.stage.InFile? || p.stage.Writing? || p.stage.Written? || p.stage.Renamed?
  }

  /** Who holds the two locks is determined by the stages. */
  predicate LockOk(p: Proc, t: int, writer: int, readers: set<int>, fileMu: int) {
    && (writer == t <==> HoldsWrite(p))
    && (t in readers <==> HoldsRead(p))
    && (fileMu == t <==> HoldsFile(p))
  }

  /** Each kind of call visits only its own stages, with its own kind of change. */
  predicate ShapeOk(p: Proc) {
    && Fits(p.kind, p.what)
    && (p.kind.Defer? ==> p.stage.Idle? || p.stage.Called? || p.stage.Holding? || (Leaving(p.stage) && p.stage != Done(false)))
    && (p.stage.Changed? || p.stage.Bumped? ==> p.kind.Defer?)
    && (p.stage.Holding? ==> !p.kind.Save?)
  }

  /** The snapshot in hand has been numbered and is still needed. */
  predicate HasNumber(p: Proc) {
    p.stage.Numbered? || Filing(p.stage) || p.stage.Advancing? || p.stage.Cas?
  }

  /** A setter or `Save` that is about to return nil. */
  predicate Saved(p: Proc) {
    (p.kind.Setter? || p.kind.Save?) && p.stage == Done(true)
  }

  /** A call's snapshot is the one its number names, and equals memory while the call holds `mu`. */
  predicate SnapOk(p: Proc, mem: Content, history: seq<Content>) {
    && (p.stage.Marshalled? ==> p.content == mem)
    && (HasNumber(p) || Saved(p) ==>
          && 1 <= p.num <= |history| && p.content == history[p.num - 1]
          && (HoldsWrite(p) || HoldsRead(p) ==> p.content == mem))
  }

  /** `gen` has been loaded. */
  predicate Counted(p: Proc) {
    if p.kind.Flush? then Numbering(p.stage) || Filing(p.stage) || p.stage.Advancing? || p.stage.Cas? || p.stage == Done(true)
    else !p.kind.Defer? && (Filing(p.stage) || p.stage.Advancing? || p.stage.Cas? || p.stage == Done(true))
  }

  /** The snapshot contains every deferred change up to generation `gen`. */
  predicate GenOk(p: Proc, mutGen: nat, flushedGen: nat, boot: nat) {
    && p.need <= mutGen
    && (Counted(p) ==> p.gen <= mutGen && (p.kind.Flush? ==> p.need <= p.gen))
    && (Counted(p) && (p.stage.Ready? || p.stage.Marshalled?) ==> p.gen == mutGen)
    && (Counted(p) && HasNumber(p) ==> boot + p.gen <= DeferredCount(p.content))
    && (p.stage.Cas? ==> p.stage.cur <= flushedGen)
    && (Counted(p) && p.stage == Done(true) ==> p.gen <= flushedGen)
  }

  /** The temporary-file protocol. */
  predicate FileOk(p: Proc, path: File, tmp: File, lastWritten: nat) {
    && (p.stage.Writing? || p.stage.Written? || p.stage.Renamed? ==> lastWritten <= p.num)
    && (p.stage.Written? ==> tmp == Complete(p.content))
    && (p.stage.Renamed? ==> path == Complete(p.content))
    && (p.stage.Advancing? || p.stage.Cas? || Saved(p) ==> p.num <= lastWritten)
  }

  function BootCount(s: State): nat { DeferredCount(Loaded(s.bootFile)) }

  predicate ProcOk(s: State, t: nat)
    requires t < |s.procs|
  {
    var p := s.procs[t];
    && ShapeOk(p)
    && LockOk(p, t, s.writer, s.readers, s.fileMu)
    && SnapOk(p, s.mem, s.history)
    && GenOk(p, s.mutGen, s.flushedGen, BootCount(s))
    && FileOk(p, s.path, s.tmp, s.lastWritten)
  }

  /** `mu` is a readers/writer lock. */
  predicate LocksOk(s: State) {
    && (s.writer == NOBODY || 0 <= s.writer < |s.procs|)
    && (s.fileMu == NOBODY || 0 <= s.fileMu < |s.procs|)
    && (forall t :: t in s.readers ==> 0 <= t < |s.procs|)
    && (s.writer != NOBODY ==> s.readers == {})
  }

  /** Sequence order is content order. */
  predicate Ordered(boot: Content, history: seq<Content>, mem: Content) {
    && boot.UpTo(mem)
    && (forall i :: 0 <= i < |history| ==> boot.UpTo(history[i]) && history[i].UpTo(mem))
    && (forall i, j :: 0 <= i <= j < |history| ==> history[i].UpTo(history[j]))
  }

  predicate Renaming(s: State) {
    0 <= s.fileMu < |s.procs| && s.procs[s.fileMu].stage.Renamed?
  }

  /** The disk holds exactly the snapshot numbered `lastWritten`, except between the rename and
      the update of `lastWritten`; and it contains every deferred change up to `flushedGen`. */
  predicate DiskOk(s: State) {
    && !s.bootFile.Partial?
    && s.lastWritten <= |s.history|
    && (Renaming(s) || s.path == if s.lastWritten == 0 then s.bootFile else Complete(s.history[s.lastWritten - 1]))
    && s.flushedGen <= s.mutGen
    && BootCount(s) + s.flushedGen <= DeferredCount(Loaded(s.path))
  }

  /** A deferred change is in memory but not yet counted. */
  predicate Pending(s: State) {
    0 <= s.writer < |s.procs| && s.procs[s.writer].stage.Changed?
  }

  predicate MemoryOk(s: State) {
    && |s.history| == s.seqNo
    && DeferredCount(s.mem) == BootCount(s) + s.mutGen + (if Pending(s) then 1 else 0)
  }

  ghost predicate Inv(s: State) {
    && 0 < |s.procs|
    && LocksOk(s)
    && Ordered(Loaded(s.bootFile), s.history, s.mem)
    && DiskOk(s)
    && MemoryOk(s)
    && forall t :: 0 <= t < |s.procs| ==> ProcOk(s, t)
  }

  // ----- counting -----

  lemma SubsetSize(a: set<nat>, b: set<nat>)
    requires a <= b
    ensures |a| <= |b|
  {
    assert b == a + (b - a);
  }

  lemma CountPrefix(a: Content, b: Content)
    requires a.UpTo(b)
    ensures DeferredCount(a) <= DeferredCount(b)
  {
    SubsetSize(DeferredIn(a.log), DeferredIn(b.log));
  }

  lemma CountAppend(a: Content, m: Mutation)
    ensures DeferredCount(a.Then(m)) == DeferredCount(a) + (if m.Deferred? then 1 else 0)
  {
    assert DeferredIn(a.log + [m]) == DeferredIn(a.log) + (if m.Deferred? then {|a.log|} else {});
  }

  /** Between two prefixes of one log, holding as many deferred updates means holding them all. */
  lemma CountDecides(a: Content, b: Content, m: Content)
    requires a.UpTo(m) && b.UpTo(m) && DeferredCount(a) <= DeferredCount(b)
    ensures DeferredIn(a.log) <= DeferredIn(b.log)
  {
    if |b.log| < |a.log| {
      assert DeferredIn(b.log) <= DeferredIn(a.log);
      if i :| i in DeferredIn(a.log) && i !in DeferredIn(b.log) {
        SubsetSize(DeferredIn(b.log), DeferredIn(a.log) - {i});
      }
    }
  }

  // ----- every action keeps the invariant -----

  lemma InitialInv(s: State)
    requires Initial(s)
    ensures Inv(s)
  {
  }

  // Each group of instructions: the process that runs keeps its own clause, every other process
  // keeps its clause, and so do the global clauses.

  lemma LockSelfSnap(s: State, t: nat)
    requires t < |s.procs| && CanRun(s, t) && s.procs[t].stage.Called?
    requires LocksOk(s) && ProcOk(s, t)
    ensures var s' := DoLock(s, t);
      var q := s'.procs[t];
      ShapeOk(q) && LockOk(q, t, s'.writer, s'.readers, s'.fileMu) && SnapOk(q, s'.mem, s'.history)
  {
  }

  lemma LockSelfGen(s: State, t: nat)
    requires t < |s.procs| && CanRun(s, t) && s.procs[t].stage.Called?
    requires LocksOk(s) && ProcOk(s, t)
    ensures var s' := DoLock(s, t);
      var q := s'.procs[t];
      GenOk(q, s'.mutGen, s'.flushedGen, BootCount(s')) && FileOk(q, s'.path, s'.tmp, s'.lastWritten)
  {
  }

  lemma LockSelf(s: State, t: nat)
    requires t < |s.procs| && CanRun(s, t) && s.procs[t].stage.Called?
    requires LocksOk(s) && ProcOk(s, t)
    ensures ProcOk(DoLock(s, t), t)
  {
    LockSelfSnap(s, t);
    LockSelfGen(s, t);
  }

  lemma LockOther(s: State, t: nat, u: nat)
    requires t < |s.procs| && CanRun(s, t) && s.procs[t].stage.Called?
    requires u < |s.procs| && u != t && ProcOk(s, u)
    requires LocksOk(s) && ProcOk(s, t)
    ensures ProcOk(DoLock(s, t), u)
  {
  }

  lemma LockLocks(s: State, t: nat)
    requires t < |s.procs| && CanRun(s, t) && s.procs[t].stage.Called?
    requires LocksOk(s) && ProcOk(s, t)
    ensures LocksOk(DoLock(s, t))
  {
  }

  lemma LockDisk(s: State, t: nat)
    requires t < |s.procs| && CanRun(s, t) && s.procs[t].stage.Called?
    requires LocksOk(s) && ProcOk(s, t) && DiskOk(s)
    ensures DiskOk(DoLock(s, t))
  {
  }

  lemma LockMemory(s: State, t: nat)
    requires t < |s.procs| && CanRun(s, t) && s.procs[t].stage.Called?
    requires LocksOk(s) && ProcOk(s, t) && MemoryOk(s)
    ensures MemoryOk(DoLock(s, t))
  {
  }

  lemma StartSelf(s: State, t: nat)
    requires t < |s.procs| && s.procs[t].stage.Holding?
    requires LocksOk(s) && ProcOk(s, t)
    ensures ProcOk(DoStart(s, t), t)
  {
  }

  lemma StartOtherSnap(s: State, t: nat, u: nat)
    requires t < |s.procs| && s.procs[t].stage.Holding?
    requires u < |s.procs| && u != t && ProcOk(s, u)
    requires LocksOk(s) && ProcOk(s, t)
    ensures var s' := DoStart(s, t);
      var q := s'.procs[u];
      ShapeOk(q) && LockOk(q, u, s'.writer, s'.readers, s'.fileMu) && SnapOk(q, s'.mem, s'.history)
  {
  }

  lemma StartOtherGen(s: State, t: nat, u: nat)
    requires t < |s.procs| && s.procs[t].stage.Holding?
    requires u < |s.procs| && u != t && ProcOk(s, u)
    ensures var s' := DoStart(s, t);
      var q := s'.procs[u];
      GenOk(q, s'.mutGen, s'.flushedGen, BootCount(s')) && FileOk(q, s'.path, s'.tmp, s'.lastWritten)
  {
  }

  lemma StartOther(s: State, t: nat, u: nat)
    requires t < |s.procs| && s.procs[t].stage.Holding?
    requires u < |s.procs| && u != t && ProcOk(s, u)
    requires LocksOk(s) && ProcOk(s, t)
    ensures ProcOk(DoStart(s, t), u)
  {
    StartOtherSnap(s, t, u);
    StartOtherGen(s, t, u);
  }

  lemma StartLocks(s: State, t: nat)
    requires t < |s.procs| && s.procs[t].stage.Holding?
    requires LocksOk(s) && ProcOk(s, t)
    ensures LocksOk(DoStart(s, t))
  {
  }

  lemma StartDisk(s: State, t: nat)
    requires t < |s.procs| && s.procs[t].stage.Holding?
    requires LocksOk(s) && ProcOk(s, t) && DiskOk(s)
    ensures DiskOk(DoStart(s, t))
  {
  }

  lemma StartMemory(s: State, t: nat)
    requires t < |s.procs| && s.procs[t].stage.Holding?
    requires LocksOk(s) && ProcOk(s, t) && MemoryOk(s)
    ensures MemoryOk(DoStart(s, t))
  {
    CountAppend(s.mem, s.procs[t].what);
  }

  lemma LeaveSelf(s: State, t: nat)
    requires t < |s.procs| && Leaving(s.procs[t].stage)
    requires LocksOk(s) && ProcOk(s, t)
    ensures ProcOk(DoLeave(s, t), t)
  {
  }

  lemma LeaveOther(s: State, t: nat, u: nat)
    requires t < |s.procs| && Leaving(s.procs[t].stage)
    requires u < |s.procs| && u != t && ProcOk(s, u)
    requires LocksOk(s) && ProcOk(s, t)
    ensures ProcOk(DoLeave(s, t), u)
  {
  }

  lemma LeaveLocks(s: State, t: nat)
    requires t < |s.procs| && Leaving(s.procs[t].stage)
    requires LocksOk(s) && ProcOk(s, t)
    ensures LocksOk(DoLeave(s, t))
  {
  }

  lemma LeaveDisk(s: State, t: nat)
    requires t < |s.procs| && Leaving(s.procs[t].stage)
    requires LocksOk(s) && ProcOk(s, t) && DiskOk(s)
    ensures DiskOk(DoLeave(s, t))
  {
  }

  lemma LeaveMemory(s: State, t: nat)
    requires t < |s.procs| && Leaving(s.procs[t].stage)
    requires LocksOk(s) && ProcOk(s, t) && MemoryOk(s)
    ensures MemoryOk(DoLeave(s, t))
  {
  }

  lemma NumberSnap(s: State, t: nat)
    requires t < |s.procs| && Numbering(s.procs[t].stage)
    requires LocksOk(s) && ProcOk(s, t) && MemoryOk(s)
    ensures var s' := DoNumber(s, t);
      var q := s'.procs[t];
      ShapeOk(q) && LockOk(q, t, s'.writer, s'.readers, s'.fileMu) && SnapOk(q, s'.mem, s'.history)
  {
  }

  lemma NumberGen(s: State, t: nat)
    requires t < |s.procs| && Numbering(s.procs[t].stage)
    requires LocksOk(s) && ProcOk(s, t) && MemoryOk(s)
    ensures var s' := DoNumber(s, t);
      var q := s'.procs[t];
      GenOk(q, s'.mutGen, s'.flushedGen, BootCount(s')) && FileOk(q, s'.path, s'.tmp, s'.lastWritten)
  {
  }

  lemma NumberSelf(s: State, t: nat)
    requires t < |s.procs| && Numbering(s.procs[t].stage)
    requires LocksOk(s) && ProcOk(s, t) && MemoryOk(s)
    ensures ProcOk(DoNumber(s, t), t)
  {
    NumberSnap(s, t);
    NumberGen(s, t);
  }

  lemma NumberOtherSnap(s: State, t: nat, u: nat)
    requires t < |s.procs| && Numbering(s.procs[t].stage)
    requires u < |s.procs| && u != t && ProcOk(s, u)
    requires LocksOk(s) && ProcOk(s, t)
    ensures var s' := DoNumber(s, t);
      var q := s'.procs[u];
      ShapeOk(q) && LockOk(q, u, s'.writer, s'.readers, s'.fileMu) && SnapOk(q, s'.mem, s'.history)
  {
  }

  lemma NumberOtherGen(s: State, t: nat, u: nat)
    requires t < |s.procs| && Numbering(s.procs[t].stage)
    requires u < |s.procs| && u != t && ProcOk(s, u)
    requires LocksOk(s) && ProcOk(s, t)
    ensures var s' := DoNumber(s, t);
      var q := s'.procs[u];
      GenOk(q, s'.mutGen, s'.flushedGen, BootCount(s')) && FileOk(q, s'.path, s'.tmp, s'.lastWritten)
  {
  }

  lemma NumberOther(s: State, t: nat, u: nat)
    requires t < |s.procs| && Numbering(s.procs[t].stage)
    requires u < |s.procs| && u != t && ProcOk(s, u)
    requires LocksOk(s) && ProcOk(s, t)
    ensures ProcOk(DoNumber(s, t), u)
  {
    NumberOtherSnap(s, t, u);
    NumberOtherGen(s, t, u);
  }

  lemma NumberLocks(s: State, t: nat)
    requires t < |s.procs| && Numbering(s.procs[t].stage)
    requires LocksOk(s) && ProcOk(s, t)
    ensures LocksOk(DoNumber(s, t))
  {
  }

  lemma NumberDisk(s: State, t: nat)
    requires t < |s.procs| && Numbering(s.procs[t].stage)
    requires LocksOk(s) && ProcOk(s, t) && DiskOk(s) && MemoryOk(s)
    ensures DiskOk(DoNumber(s, t))
  {
  }

  lemma NumberMemory(s: State, t: nat)
    requires t < |s.procs| && Numbering(s.procs[t].stage)
    requires LocksOk(s) && ProcOk(s, t) && MemoryOk(s)
    ensures MemoryOk(DoNumber(s, t))
  {
  }

  lemma FileSelfLocks(s: State, t: nat)
    requires t < |s.procs| && CanRun(s, t) && Filing(s.procs[t].stage)
    requires ProcOk(s, t)
    ensures var s' := DoFile(s, t);
      ShapeOk(s'.procs[t]) && LockOk(s'.procs[t], t, s'.writer, s'.readers, s'.fileMu)
  {
  }

  lemma FileSelfSnap(s: State, t: nat)
    requires t < |s.procs| && CanRun(s, t) && Filing(s.procs[t].stage)
    requires ProcOk(s, t)
    ensures var s' := DoFile(s, t); SnapOk(s'.procs[t], s'.mem, s'.history)
  {
    FileFrame(s, t);
  }

  /** What the file instructions leave alone. */
  lemma FileFrame(s: State, t: nat)
    requires t < |s.procs| && CanRun(s, t) && Filing(s.procs[t].stage)
    ensures var s' := DoFile(s, t);
      && |s'.procs| == |s.procs| && (forall u :: 0 <= u < |s.procs| && u != t ==> s'.procs[u] == s.procs[u])
      && s' == s.(procs := s'.procs, path := s'.path, tmp := s'.tmp, lastWritten := s'.lastWritten, fileMu := s'.fileMu)
      && s'.procs[t] == s.procs[t].(stage := s'.procs[t].stage)
      && (Filing(s'.procs[t].stage) || s'.procs[t].stage.Advancing?)
  {
  }

  lemma GenMoves(p: Proc, q: Proc, mutGen: nat, flushedGen: nat, boot: nat)
    requires GenOk(p, mutGen, flushedGen, boot) && Filing(p.stage)
    requires q == p.(stage := q.stage) && (Filing(q.stage) || q.stage.Advancing?)
    ensures GenOk(q, mutGen, flushedGen, boot)
  {
  }

  lemma FileGen(s: State, t: nat)
    requires t < |s.procs| && CanRun(s, t) && Filing(s.procs[t].stage)
    requires ProcOk(s, t)
    ensures var s' := DoFile(s, t); GenOk(s'.procs[t], s'.mutGen, s'.flushedGen, BootCount(s'))
  {
    FileFrame(s, t);
    GenMoves(s.procs[t], DoFile(s, t).procs[t], s.mutGen, s.flushedGen, BootCount(s));
  }

  lemma FileTmp(s: State, t: nat)
    requires t < |s.procs| && CanRun(s, t) && Filing(s.procs[t].stage)
    requires ProcOk(s, t)
    ensures var s' := DoFile(s, t); FileOk(s'.procs[t], s'.path, s'.tmp, s'.lastWritten)
  {
  }

  lemma FileSelf(s: State, t: nat)
    requires t < |s.procs| && CanRun(s, t) && Filing(s.procs[t].stage)
    requires ProcOk(s, t)
    ensures ProcOk(DoFile(s, t), t)
  {
    FileSelfLocks(s, t);
    FileSelfSnap(s, t);
    FileGen(s, t);
    FileTmp(s, t);
  }

  lemma FileOtherSnap(s: State, t: nat, u: nat)
    requires t < |s.procs| && CanRun(s, t) && Filing(s.procs[t].stage)
    requires u < |s.procs| && u != t && ProcOk(s, u)
    requires LocksOk(s) && ProcOk(s, t)
    ensures var s' := DoFile(s, t);
      var q := s'.procs[u];
      ShapeOk(q) && LockOk(q, u, s'.writer, s'.readers, s'.fileMu) && SnapOk(q, s'.mem, s'.history)
  {
  }

  lemma FileOtherGen(s: State, t: nat, u: nat)
    requires t < |s.procs| && CanRun(s, t) && Filing(s.procs[t].stage)
    requires u < |s.procs| && u != t && ProcOk(s, u)
    ensures var s' := DoFile(s, t); GenOk(s'.procs[u], s'.mutGen, s'.flushedGen, BootCount(s'))
  {
    FileFrame(s, t);
  }

  lemma FileOtherTmp(s: State, t: nat, u: nat)
    requires t < |s.procs| && CanRun(s, t) && Filing(s.procs[t].stage)
    requires u < |s.procs| && u != t && ProcOk(s, u)
    requires ProcOk(s, t)
    ensures var s' := DoFile(s, t); FileOk(s'.procs[u], s'.path, s'.tmp, s'.lastWritten)
  {
  }

  lemma FileOther(s: State, t: nat, u: nat)
    requires t < |s.procs| && CanRun(s, t) && Filing(s.procs[t].stage)
    requires u < |s.procs| && u != t && ProcOk(s, u)
    requires LocksOk(s) && ProcOk(s, t)
    ensures ProcOk(DoFile(s, t), u)
  {
    FileOtherSnap(s, t, u);
    FileOtherGen(s, t, u);
    FileOtherTmp(s, t, u);
  }

  lemma FileLocks(s: State, t: nat)
    requires t < |s.procs| && CanRun(s, t) && Filing(s.procs[t].stage)
    requires LocksOk(s) && ProcOk(s, t)
    ensures LocksOk(DoFile(s, t))
  {
  }

  /** What the compare-and-swap leaves alone; it only raises `flushedGen`, to a generation some call counted. */
  lemma SwapFrame(s: State, t: nat)
    requires t < |s.procs| && s.procs[t].stage.Cas? && ProcOk(s, t)
    ensures var s' := DoSwap(s, t);
      && |s'.procs| == |s.procs| && (forall u :: 0 <= u < |s.procs| && u != t ==> s'.procs[u] == s.procs[u])
      && s' == s.(procs := s'.procs, flushedGen := s'.flushedGen)
      && s.flushedGen <= s'.flushedGen && (s'.flushedGen == s.flushedGen || s'.flushedGen == s.procs[t].gen)
      && s'.procs[t] == s.procs[t].(stage := s'.procs[t].stage)
      && (s'.procs[t].stage.Advancing? || (s'.procs[t].stage == Done(true) && s.procs[t].gen <= s'.flushedGen))
  {
  }

  lemma SwapSnap(s: State, t: nat)
    requires t < |s.procs| && s.procs[t].stage.Cas?
    requires ProcOk(s, t)
    ensures var s' := DoSwap(s, t);
      var q := s'.procs[t];
      ShapeOk(q) && LockOk(q, t, s'.writer, s'.readers, s'.fileMu) && SnapOk(q, s'.mem, s'.history)
  {
    SwapFrame(s, t);
  }

  lemma GenSwaps(p: Proc, q: Proc, mutGen: nat, before: nat, after: nat, boot: nat)
    requires GenOk(p, mutGen, before, boot) && p.stage.Cas?
    requires q == p.(stage := q.stage) && (q.stage.Advancing? || (q.stage == Done(true) && p.gen <= after))
    ensures GenOk(q, mutGen, after, boot)
  {
  }

  lemma SwapGen(s: State, t: nat)
    requires t < |s.procs| && s.procs[t].stage.Cas?
    requires ProcOk(s, t)
    ensures var s' := DoSwap(s, t); GenOk(s'.procs[t], s'.mutGen, s'.flushedGen, BootCount(s'))
  {
    SwapFrame(s, t);
    GenSwaps(s.procs[t], DoSwap(s, t).procs[t], s.mutGen, s.flushedGen, DoSwap(s, t).flushedGen, BootCount(s));
  }

  lemma SwapTmp(s: State, t: nat)
    requires t < |s.procs| && s.procs[t].stage.Cas?
    requires ProcOk(s, t)
    ensures var s' := DoSwap(s, t); FileOk(s'.procs[t], s'.path, s'.tmp, s'.lastWritten)
  {
  }

  lemma SwapSelf(s: State, t: nat)
    requires t < |s.procs| && s.procs[t].stage.Cas?
    requires ProcOk(s, t)
    ensures ProcOk(DoSwap(s, t), t)
  {
    SwapSnap(s, t);
    SwapGen(s, t);
    SwapTmp(s, t);
  }

  lemma SwapOther(s: State, t: nat, u: nat)
    requires t < |s.procs| && s.procs[t].stage.Cas?
    requires u < |s.procs| && u != t && ProcOk(s, u)
    requires ProcOk(s, t)
    ensures ProcOk(DoSwap(s, t), u)
  {
    SwapFrame(s, t);
    FlushedGrows(s, u, DoSwap(s, t));
  }

  /** A clause survives when only `flushedGen` grows and other calls move. */
  lemma FlushedGrows(s: State, u: nat, s': State)
    requires u < |s.procs| && u < |s'.procs| && ProcOk(s, u) && s'.procs[u] == s.procs[u]
    requires s' == s.(procs := s'.procs, flushedGen := s'.flushedGen) && s.flushedGen <= s'.flushedGen
    ensures ProcOk(s', u)
  {
  }

  lemma StartOrdered(s: State, t: nat)
    requires t < |s.procs| && s.procs[t].stage.Holding?
    requires Ordered(Loaded(s.bootFile), s.history, s.mem)
    ensures var s' := DoStart(s, t); Ordered(Loaded(s'.bootFile), s'.history, s'.mem)
  {
    assert s.mem.UpTo(s.mem.Then(s.procs[t].what));
  }

  lemma AppendOrdered(boot: Content, history: seq<Content>, mem: Content)
    requires Ordered(boot, history, mem)
    ensures Ordered(boot, history + [mem], mem)
  {
  }

  /** A snapshot whose number is at most `lastWritten` is contained in what the path holds. */
  lemma SnapshotOnDisk(s: State, n: nat)
    requires Inv(s) && 1 <= n <= s.lastWritten
    ensures s.path.Complete? && n <= |s.history| && s.history[n - 1].UpTo(s.path.content)
  {
    if Renaming(s) {
      assert ProcOk(s, s.fileMu);
    }
  }

  /** What the path holds is complete and no newer than memory. */
  lemma PathWhole(s: State)
    requires Inv(s)
    ensures !s.path.Partial? && Loaded(s.path).UpTo(s.mem)
  {
    if Renaming(s) {
      assert ProcOk(s, s.fileMu);
    }
  }

  lemma RenameNewer(s: State, t: nat)
    requires Inv(s) && t < |s.procs| && s.procs[t].stage.Written?
    ensures Loaded(s.path).UpTo(s.procs[t].content)
    ensures DeferredCount(Loaded(s.path)) <= DeferredCount(s.procs[t].content)
  {
    assert ProcOk(s, t);
    assert !Renaming(s);
    CountPrefix(Loaded(s.path), s.procs[t].content);
  }

  lemma FileDisk(s: State, t: nat)
    requires Inv(s) && t < |s.procs| && CanRun(s, t) && Filing(s.procs[t].stage)
    ensures var s' := DoFile(s, t); DiskOk(s') && Loaded(s.path).UpTo(Loaded(s'.path))
  {
    assert ProcOk(s, t);
    assert s.fileMu != NOBODY ==> ProcOk(s, s.fileMu);
    if s.procs[t].stage.Written? {
      RenameNewer(s, t);
    }
  }

  lemma FileMemory(s: State, t: nat)
    requires t < |s.procs| && CanRun(s, t) && Filing(s.procs[t].stage)
    requires LocksOk(s) && ProcOk(s, t) && MemoryOk(s)
    ensures MemoryOk(DoFile(s, t))
  {
    FileFrame(s, t);
    assert Pending(DoFile(s, t)) <==> Pending(s);
  }

  lemma SwapCounts(s: State, t: nat)
    requires t < |s.procs| && s.procs[t].stage.Cas? && ProcOk(s, t) && DiskOk(s)
    requires DeferredCount(s.procs[t].content) <= DeferredCount(Loaded(s.path))
    ensures DiskOk(DoSwap(s, t))
  {
  }

  lemma SwapDisk(s: State, t: nat)
    requires Inv(s) && t < |s.procs| && s.procs[t].stage.Cas?
    ensures DiskOk(DoSwap(s, t))
  {
    assert ProcOk(s, t);
    SnapshotOnDisk(s, s.procs[t].num);
    CountPrefix(s.procs[t].content, Loaded(s.path));
    SwapCounts(s, t);
  }

  lemma SwapMemory(s: State, t: nat)
    requires t < |s.procs| && s.procs[t].stage.Cas?
    requires LocksOk(s) && ProcOk(s, t) && MemoryOk(s)
    ensures MemoryOk(DoSwap(s, t))
  {
    SwapFrame(s, t);
    var s' := DoSwap(s, t);
    assert Pending(s') <==> Pending(s);
  }

  lemma SwapLocks(s: State, t: nat)
    requires t < |s.procs| && s.procs[t].stage.Cas?
    requires LocksOk(s) && ProcOk(s, t)
    ensures LocksOk(DoSwap(s, t))
  {
  }

  lemma LoadSelf(s: State, t: nat)
    requires Inv(s) && t < |s.procs| && s.procs[t].stage.Advancing?
    ensures Inv(DoRun(s, t))
  {
    assert ProcOk(s, t);
    var s' := DoRun(s, t);
    assert ProcOk(s', t);
    forall u: nat | u < |s.procs| && u != t ensures ProcOk(s', u) {
      assert ProcOk(s, u);
    }
    assert Renaming(s) ==> Renaming(s');
  }

  lemma LockInv(s: State, t: nat)
    requires Inv(s) && t < |s.procs| && CanRun(s, t) && s.procs[t].stage.Called?
    ensures Inv(DoLock(s, t))
  {
    assert ProcOk(s, t);
    LockSelf(s, t); LockLocks(s, t); LockDisk(s, t); LockMemory(s, t);
    forall u: nat | u < |s.procs| && u != t ensures ProcOk(DoLock(s, t), u) { LockOther(s, t, u); }
  }

  lemma StartInv(s: State, t: nat)
    requires Inv(s) && t < |s.procs| && s.procs[t].stage.Holding?
    ensures Inv(DoStart(s, t))
  {
    assert ProcOk(s, t);
    StartSelf(s, t); StartLocks(s, t); StartDisk(s, t); StartMemory(s, t); StartOrdered(s, t);
    forall u: nat | u < |s.procs| && u != t ensures ProcOk(DoStart(s, t), u) { StartOther(s, t, u); }
  }

  lemma LeaveInv(s: State, t: nat)
    requires Inv(s) && t < |s.procs| && Leaving(s.procs[t].stage)
    ensures Inv(DoLeave(s, t))
  {
    assert ProcOk(s, t);
    LeaveSelf(s, t); LeaveLocks(s, t); LeaveDisk(s, t); LeaveMemory(s, t);
    forall u: nat | u < |s.procs| && u != t ensures ProcOk(DoLeave(s, t), u) { LeaveOther(s, t, u); }
  }

  lemma NumberInv(s: State, t: nat)
    requires Inv(s) && t < |s.procs| && Numbering(s.procs[t].stage)
    ensures Inv(DoNumber(s, t))
  {
    assert ProcOk(s, t);
    NumberSelf(s, t); NumberLocks(s, t); NumberDisk(s, t); NumberMemory(s, t);
    AppendOrdered(Loaded(s.bootFile), s.history, s.mem);
    forall u: nat | u < |s.procs| && u != t ensures ProcOk(DoNumber(s, t), u) { NumberOther(s, t, u); }
  }

  lemma FileInv(s: State, t: nat)
    requires Inv(s) && t < |s.procs| && CanRun(s, t) && Filing(s.procs[t].stage)
    ensures Inv(DoFile(s, t))
  {
    assert ProcOk(s, t);
    FileSelf(s, t); FileLocks(s, t); FileDisk(s, t); FileMemory(s, t);
    forall u: nat | u < |s.procs| && u != t ensures ProcOk(DoFile(s, t), u) { FileOther(s, t, u); }
  }

  lemma SwapInv(s: State, t: nat)
    requires Inv(s) && t < |s.procs| && s.procs[t].stage.Cas?
    ensures Inv(DoSwap(s, t))
  {
    assert ProcOk(s, t);
    SwapSelf(s, t); SwapDisk(s, t); SwapMemory(s, t); SwapLocks(s, t);
    forall u: nat | u < |s.procs| && u != t ensures ProcOk(DoSwap(s, t), u) { SwapOther(s, t, u); }
  }

  lemma RunInv(s: State, t: nat)
    requires Inv(s) && t < |s.procs| && CanRun(s, t)
    ensures Inv(DoRun(s, t))
  {
    var g := s.procs[t].stage;
    if g.Called? {
      LockInv(s, t);
    } else if g.Holding? {
      StartInv(s, t);
    } else if Leaving(g) {
      LeaveInv(s, t);
    } else if Numbering(g) {
      NumberInv(s, t);
    } else if Filing(g) {
      FileInv(s, t);
    } else if g.Advancing? {
      LoadSelf(s, t);
    } else {
      SwapInv(s, t);
    }
  }

  lemma RunForward(s: State, t: nat)
    requires Inv(s) && t < |s.procs| && CanRun(s, t)
    ensures Loaded(s.path).UpTo(Loaded(DoRun(s, t).path))
  {
    if Filing(s.procs[t].stage) {
      FileDisk(s, t);
    } else {
      SamePath(s, t);
    }
  }

  lemma SamePath(s: State, t: nat)
    requires t < |s.procs| && CanRun(s, t) && !Filing(s.procs[t].stage)
    ensures DoRun(s, t).path == s.path
  {
  }

  lemma FailSelfSnap(s: State, t: nat)
    requires t < |s.procs| && CanFail(s, t)
    requires LocksOk(s) && ProcOk(s, t)
    ensures var s' := DoFail(s, t);
      var q := s'.procs[t];
      ShapeOk(q) && LockOk(q, t, s'.writer, s'.readers, s'.fileMu) && SnapOk(q, s'.mem, s'.history)
  {
  }

  lemma FailSelfGen(s: State, t: nat)
    requires t < |s.procs| && CanFail(s, t)
    requires LocksOk(s) && ProcOk(s, t)
    ensures var s' := DoFail(s, t);
      var q := s'.procs[t];
      GenOk(q, s'.mutGen, s'.flushedGen, BootCount(s')) && FileOk(q, s'.path, s'.tmp, s'.lastWritten)
  {
  }

  lemma FailSelf(s: State, t: nat)
    requires t < |s.procs| && CanFail(s, t)
    requires LocksOk(s) && ProcOk(s, t)
    ensures ProcOk(DoFail(s, t), t)
  {
    FailSelfSnap(s, t);
    FailSelfGen(s, t);
  }

  lemma FailLocks(s: State, t: nat)
    requires t < |s.procs| && CanFail(s, t)
    requires LocksOk(s) && ProcOk(s, t)
    ensures LocksOk(DoFail(s, t))
  {
  }

  lemma FailOtherSnap(s: State, t: nat, u: nat)
    requires t < |s.procs| && CanFail(s, t)
    requires u < |s.procs| && u != t && ProcOk(s, u)
    requires LocksOk(s) && ProcOk(s, t)
    ensures var s' := DoFail(s, t);
      var q := s'.procs[u];
      ShapeOk(q) && LockOk(q, u, s'.writer, s'.readers, s'.fileMu) && SnapOk(q, s'.mem, s'.history)
  {
  }

  lemma FailOtherGen(s: State, t: nat, u: nat)
    requires t < |s.procs| && CanFail(s, t)
    requires u < |s.procs| && u != t && ProcOk(s, u)
    requires LocksOk(s) && ProcOk(s, t)
    ensures var s' := DoFail(s, t);
      var q := s'.procs[u];
      GenOk(q, s'.mutGen, s'.flushedGen, BootCount(s')) && FileOk(q, s'.path, s'.tmp, s'.lastWritten)
  {
  }

  lemma FailOther(s: State, t: nat, u: nat)
    requires t < |s.procs| && CanFail(s, t)
    requires u < |s.procs| && u != t && ProcOk(s, u)
    requires LocksOk(s) && ProcOk(s, t)
    ensures ProcOk(DoFail(s, t), u)
  {
    FailOtherSnap(s, t, u);
    FailOtherGen(s, t, u);
  }

  lemma FailDisk(s: State, t: nat)
    requires t < |s.procs| && CanFail(s, t)
    requires LocksOk(s) && ProcOk(s, t) && DiskOk(s)
    ensures DiskOk(DoFail(s, t))
  {
  }

  lemma FailMemory(s: State, t: nat)
    requires t < |s.procs| && CanFail(s, t)
    requires LocksOk(s) && ProcOk(s, t) && MemoryOk(s)
    ensures MemoryOk(DoFail(s, t))
  {
  }

  lemma FailInv(s: State, t: nat)
    requires Inv(s) && t < |s.procs| && CanFail(s, t)
    ensures Inv(DoFail(s, t)) && DoFail(s, t).path == s.path
  {
    assert ProcOk(s, t);
    FailSelf(s, t); FailLocks(s, t); FailDisk(s, t); FailMemory(s, t);
    AppendOrdered(Loaded(s.bootFile), s.history, s.mem);
    forall u: nat | u < |s.procs| && u != t ensures ProcOk(DoFail(s, t), u) { FailOther(s, t, u); }
  }

  lemma CallInv(s: State, t: nat, kind: Kind, what: Mutation)
    requires Inv(s) && t < |s.procs| && s.procs[t].stage.Idle? && Fits(kind, what)
    ensures Inv(At(s, t, Proc(kind, Called, what, Content([]), 0, 0, s.mutGen)))
  {
    assert ProcOk(s, t);
    var s' := At(s, t, Proc(kind, Called, what, Content([]), 0, 0, s.mutGen));
    assert ProcOk(s', t);
    forall u: nat | u < |s.procs| && u != t ensures ProcOk(s', u) {
      assert ProcOk(s, u);
    }
    assert Renaming(s) ==> Renaming(s');
  }

  lemma CrashInv(s: State)
    requires Inv(s)
    ensures Inv(Do(s, Crash))
  {
    PathWhole(s);
  }

  /** Call slot 0 belongs to the flusher. */
  predicate FlusherOk(s: State) {
    && 0 < |s.procs|
    && (s.flusher.Flushing? <==> !s.procs[0].stage.Idle?)
    && (s.flusher.Flushing? ==> s.procs[0].kind.Flush?)
  }

  /** A call other than the flusher's leaves slot 0 alone; the flusher's own is busy until it returns. */
  lemma FlusherRuns(s: State, t: nat)
    requires FlusherOk(s) && t < |s.procs| && CanRun(s, t)
    ensures FlusherOk(DoRun(s, t))
  {
    var g := s.procs[t].stage;
    if g.Called? { assert DoRun(s, t) == DoLock(s, t);
    } else if g.Holding? { assert DoRun(s, t) == DoStart(s, t);
    } else if Leaving(g) { assert DoRun(s, t) == DoLeave(s, t);
    } else if Numbering(g) { assert DoRun(s, t) == DoNumber(s, t);
    } else if Filing(g) { assert DoRun(s, t) == DoFile(s, t);
    }
  }

  lemma FlusherStep(s: State, a: Action)
    requires FlusherOk(s) && Enabled(s, a)
    ensures FlusherOk(Do(s, a))
  {
    if a.Run? {
      FlusherRuns(s, a.t);
    }
  }

  // ----- the theorems about one step -----

  /** Every action keeps the invariant, and what the path holds never goes back to an older
      snapshot: not in a failing write, and not in a crash. */
  lemma StepInv(s: State, a: Action)
    requires Inv(s) && FlusherOk(s) && Enabled(s, a)
    ensures Inv(Do(s, a)) && FlusherOk(Do(s, a))
    ensures Loaded(s.path).UpTo(Loaded(Do(s, a).path))
  {
    FlusherStep(s, a);
    match a
    case Invoke(t, kind, what) => CallInv(s, t, kind, what);
    case Run(t) => RunInv(s, t); RunForward(s, t);
    case Fail(t) => FailInv(s, t);
    case Wake => QuietInv(s, Do(s, a));
    case Begin => CallInv(s, 0, Flush, Edit(0)); QuietInv(At(s, 0, Proc(Flush, Called, Edit(0), Content([]), 0, 0, s.mutGen)), Do(s, a));
    case Retry => QuietInv(s, Do(s, a));
    case Crash => CrashInv(s);
  }

  lemma QuietInv(s: State, s': State)
    requires Inv(s) && s' == s.(kick := s'.kick, flusher := s'.flusher)
    ensures Inv(s')
  {
    forall t: nat | t < |s'.procs| ensures ProcOk(s', t) {
      assert ProcOk(s, t);
    }
  }
}
