/** The background flusher never loses a wake-up, and the protocol always drains. */
module PersistenceProgress {
  import opened Persistence

  // ----- no lost wake-up -----

  /** A deferred update has bumped `mutGen` but not yet kicked (it still holds `mu` for writing). */
  predicate Kicking(s: State) {
    0 <= s.writer < |s.procs| && s.procs[s.writer].stage.Bumped?
  }

  /** The flusher's own Flush will still write the newest generation, or will be retried. */
  predicate Useful(p: Proc, mutGen: nat) {
    || p.stage.Called? || p.stage.Holding? || p.stage == Done(false)
    || (Counted(p) && p.gen == mutGen)
  }

  /** Somebody is going to flush. */
  predicate Awake(s: State) {
    || s.kick || s.flusher.Sleeping? || s.flusher.Retrying?
    || (s.flusher.Flushing? && 0 < |s.procs| && Useful(s.procs[0], s.mutGen))
  }

  predicate WakeOk(s: State) {
    && FlusherOk(s)
    && (s.flusher.Off? ==> !s.kick && (s.mutGen == 0 || Kicking(s)))
    && (s.flushedGen < s.mutGen && !Kicking(s) ==> Awake(s))
  }

  lemma LeaveWake(s: State, t: nat)
    requires WakeOk(s) && LocksOk(s) && t < |s.procs| && ProcOk(s, t) && ProcOk(s, 0) && Leaving(s.procs[t].stage)
    ensures WakeOk(DoLeave(s, t))
  {
  }

  lemma StartWake(s: State, t: nat)
    requires WakeOk(s) && LocksOk(s) && t < |s.procs| && ProcOk(s, t) && ProcOk(s, 0) && s.procs[t].stage.Holding?
    ensures WakeOk(DoStart(s, t))
  {
  }

  lemma SwapWake(s: State, t: nat)
    requires WakeOk(s) && LocksOk(s) && t < |s.procs| && ProcOk(s, t) && ProcOk(s, 0) && s.procs[t].stage.Cas?
    ensures WakeOk(DoSwap(s, t))
  {
  }

  lemma NumberWake(s: State, t: nat)
    requires WakeOk(s) && LocksOk(s) && t < |s.procs| && ProcOk(s, t) && ProcOk(s, 0) && Numbering(s.procs[t].stage)
    ensures WakeOk(DoNumber(s, t))
  {
  }

  lemma FileWake(s: State, t: nat)
    requires WakeOk(s) && LocksOk(s) && t < |s.procs| && ProcOk(s, t) && ProcOk(s, 0) && CanRun(s, t) && Filing(s.procs[t].stage)
    ensures WakeOk(DoFile(s, t))
  {
    FileFrame(s, t);
  }

  lemma LockWake(s: State, t: nat)
    requires WakeOk(s) && LocksOk(s) && t < |s.procs| && ProcOk(s, t) && ProcOk(s, 0) && CanRun(s, t) && s.procs[t].stage.Called?
    ensures WakeOk(DoLock(s, t))
  {
  }

  lemma FailWake(s: State, t: nat)
    requires WakeOk(s) && LocksOk(s) && t < |s.procs| && ProcOk(s, t) && ProcOk(s, 0) && CanFail(s, t)
    ensures WakeOk(DoFail(s, t))
  {
  }

  lemma WakeStep(s: State, a: Action)
    requires Inv(s) && WakeOk(s) && Enabled(s, a)
    ensures WakeOk(Do(s, a))
  {
    FlusherStep(s, a);
    assert ProcOk(s, 0);
    match a
    case Run(t) =>
      assert ProcOk(s, t);
      var g := s.procs[t].stage;
      if g.Called? { LockWake(s, t);
      } else if g.Holding? { StartWake(s, t);
      } else if Leaving(g) { LeaveWake(s, t);
      } else if Numbering(g) { NumberWake(s, t);
      } else if Filing(g) { FileWake(s, t);
      } else if g.Cas? { SwapWake(s, t);
      }
    case Fail(t) => FailWake(s, t);
    case _ =>
  }

  /** In every reachable state: if `mu` is not held for writing and some deferred update is not yet
      covered by the disk, then the kick token is there, or the flusher is about to flush or
      to retry, or it is writing a snapshot of the newest generation. */
  lemma {:induction false} NoLostWakeup(r: seq<State>, i: nat)
    requires IsRun(r) && i < |r|
    ensures Inv(r[i]) && WakeOk(r[i])
    ensures r[i].writer == NOBODY && r[i].flushedGen < r[i].mutGen ==> Awake(r[i])
  {
    if i == 0 {
      InitialInv(r[0]);
    } else {
      NoLostWakeup(r, i - 1);
      assert StepAt(r, i - 1);
      var a :| Enabled(r[i - 1], a) && r[i] == Do(r[i - 1], a);
      WakeStep(r[i - 1], a);
      StepInv(r[i - 1], a);
    }
  }

  // ----- draining -----

  /** The steps that need no new call, no failure and no crash. */
  predicate Quiet(a: Action) { a.Run? || a.Wake? || a.Begin? || a.Retry? }

  ghost predicate Stuck(s: State) {
    forall a :: Quiet(a) ==> !Enabled(s, a)
  }

  predicate AllIdle(s: State) {
    forall t :: 0 <= t < |s.procs| ==> s.procs[t].stage.Idle?
  }

  /** No deadlock: while a call is in progress, some call can take a step. */
  lemma NoDeadlock(s: State, t: nat) returns (u: nat)
    requires Inv(s) && t < |s.procs| && !s.procs[t].stage.Idle?
    ensures u < |s.procs| && CanRun(s, u)
  {
    assert ProcOk(s, t);
    if s.fileMu != NOBODY {
      u := s.fileMu;
      assert ProcOk(s, u);
    } else if s.writer != NOBODY {
      u := s.writer;
      assert ProcOk(s, u);
    } else if x :| x in s.readers {
      u := x;
      assert ProcOk(s, u);
    } else {
      u := t;
    }
  }

  /** When nothing is left to do, everything deferred is on disk. */
  lemma StuckMeansFlushed(s: State)
    requires Inv(s) && WakeOk(s) && Stuck(s)
    ensures AllIdle(s) && s.flushedGen == s.mutGen
    ensures DeferredIn(Loaded(s.path).log) == DeferredIn(s.mem.log)
  {
    forall t | 0 <= t < |s.procs| ensures s.procs[t].stage.Idle? {
      if !s.procs[t].stage.Idle? {
        var u := NoDeadlock(s, t);
        assert Quiet(Run(u)) && Enabled(s, Run(u));
      }
    }
    assert s.writer != NOBODY ==> ProcOk(s, s.writer);
    assert Quiet(Wake) && Quiet(Begin) && Quiet(Retry);
    assert !Enabled(s, Wake) && !Enabled(s, Begin) && !Enabled(s, Retry);
    PathWhole(s);
    CountPrefix(Loaded(s.path), s.mem);
    CountDecides(s.mem, Loaded(s.path), s.mem);
  }

  /** How many instructions a call can still take; a compare-and-swap that is bound to fail
      takes two more. A deferred update also pays for the flush its kick will cause. */
  function Rank(p: Proc, flushedGen: nat): nat {
    match p.stage
    case Idle => 0
    case Called => if p.kind.Defer? then 21 else 14
    case Holding => if p.kind.Defer? then 20 else 13
    case Changed => 19
    case Bumped => 18
    case Ready => 12
    case Marshalled => 11
    case Numbered => 10
    case WantFile => 9
    case InFile => 8
    case Writing => 7
    case Written => 6
    case Renamed => 5
    case Advancing => 3
    case Cas(cur) => if p.gen <= cur || cur == flushedGen then 2 else 4
    case Done(ok) => if ok then 1 else 18
  }

  predicate Uncounted(p: Proc) {
    p.kind.Defer? && (p.stage.Called? || p.stage.Holding? || p.stage.Changed?)
  }

  function Debt(p: Proc): nat { if Uncounted(p) then 1 else 0 }

  function SumRank(procs: seq<Proc>, flushedGen: nat): nat {
    if procs == [] then 0 else Rank(procs[0], flushedGen) + SumRank(procs[1..], flushedGen)
  }

  function SumDebt(procs: seq<Proc>): nat {
    if procs == [] then 0 else Debt(procs[0]) + SumDebt(procs[1..])
  }

  lemma {:induction false} SumUpdate(procs: seq<Proc>, t: nat, q: Proc, flushedGen: nat)
    requires t < |procs|
    ensures SumRank(procs[t := q], flushedGen) + Rank(procs[t], flushedGen) == SumRank(procs, flushedGen) + Rank(q, flushedGen)
    ensures SumDebt(procs[t := q]) + Debt(procs[t]) == SumDebt(procs) + Debt(q)
  {
    if t == 0 {
      assert procs[0 := q][1..] == procs[1..];
    } else {
      assert procs[t := q][1..] == procs[1..][t - 1 := q];
      SumUpdate(procs[1..], t - 1, q, flushedGen);
    }
  }

  function Alarm(s: State): nat {
    (if s.kick then 16 else 0) + (if s.flusher.Sleeping? then 15 else if s.flusher.Retrying? then 17 else 0)
  }

  /** Generations that are not on disk yet, or will still be created by calls in progress. */
  function Backlog(s: State): int {
    s.mutGen - s.flushedGen + SumDebt(s.procs)
  }

  /** Instructions that calls in progress and the flusher can still take. */
  function Work(s: State): nat {
    SumRank(s.procs, s.flushedGen) + Alarm(s)
  }

  predicate Less(s': State, s: State) {
    Backlog(s') < Backlog(s) || (Backlog(s') == Backlog(s) && Work(s') < Work(s))
  }

  /** The price of one instruction of call t. */
  predicate Pays(s: State, s': State, t: nat)
    requires t < |s.procs|
  {
    && |s'.procs| == |s.procs|
    && s'.procs == s.procs[t := s'.procs[t]]
    && var p, q := s.procs[t], s'.procs[t];
       if s'.flushedGen == s.flushedGen then
         && s'.mutGen + Debt(q) == s.mutGen + Debt(p)
         && Rank(q, s.flushedGen) + Alarm(s') < Rank(p, s.flushedGen) + Alarm(s)
       else
         s.flushedGen < s'.flushedGen && s'.mutGen == s.mutGen && Debt(q) == Debt(p)
  }

  lemma LeavePays(s: State, t: nat)
    requires t < |s.procs| && ProcOk(s, t) && FlusherOk(s) && Leaving(s.procs[t].stage)
    ensures Pays(s, DoLeave(s, t), t)
  {
  }

  lemma LockPays(s: State, t: nat)
    requires t < |s.procs| && ProcOk(s, t) && s.procs[t].stage.Called?
    ensures Pays(s, DoLock(s, t), t)
  {
  }

  lemma StartPays(s: State, t: nat)
    requires t < |s.procs| && ProcOk(s, t) && s.procs[t].stage.Holding?
    ensures Pays(s, DoStart(s, t), t)
  {
  }

  lemma NumberPays(s: State, t: nat)
    requires t < |s.procs| && ProcOk(s, t) && Numbering(s.procs[t].stage)
    ensures Pays(s, DoNumber(s, t), t)
  {
  }

  lemma FilePays(s: State, t: nat)
    requires t < |s.procs| && ProcOk(s, t) && Filing(s.procs[t].stage)
    ensures Pays(s, DoFile(s, t), t)
  {
  }

  lemma SwapPays(s: State, t: nat)
    requires t < |s.procs| && ProcOk(s, t) && s.procs[t].stage.Cas?
    ensures Pays(s, DoSwap(s, t), t)
  {
  }

  lemma RunPays(s: State, t: nat)
    requires t < |s.procs| && ProcOk(s, t) && FlusherOk(s) && CanRun(s, t)
    ensures Pays(s, DoRun(s, t), t)
  {
    var g := s.procs[t].stage;
    if g.Called? { LockPays(s, t);
    } else if g.Holding? { StartPays(s, t);
    } else if Leaving(g) { LeavePays(s, t);
    } else if Numbering(g) { NumberPays(s, t);
    } else if Filing(g) { FilePays(s, t);
    } else if g.Cas? { SwapPays(s, t);
    }
  }

  lemma PayingIsLess(s: State, s': State, t: nat)
    requires t < |s.procs| && Pays(s, s', t)
    ensures Less(s', s)
  {
    SumUpdate(s.procs, t, s'.procs[t], s.flushedGen);
  }

  /** Every quiet step makes progress, even when a compare-and-swap loses its race. */
  lemma QuietStepsDecrease(s: State, a: Action)
    requires Inv(s) && FlusherOk(s) && Quiet(a) && Enabled(s, a)
    ensures 0 <= Backlog(Do(s, a)) && Less(Do(s, a), s)
  {
    StepInv(s, a);
    if a.Run? {
      assert ProcOk(s, a.t);
      RunPays(s, a.t);
      PayingIsLess(s, Do(s, a), a.t);
    } else if a.Begin? {
      PayingIsLess(s, Do(s, a), 0);
    }
  }

  ghost predicate QuietStep(s: State, s': State) {
    exists a :: Quiet(a) && Enabled(s, a) && s' == Do(s, a)
  }

  /** An endless schedule: a quiet step at every instant, until nothing can be done. */
  ghost predicate Schedule(f: nat -> State, i: nat) {
    QuietStep(f(i), f(i + 1)) || (Stuck(f(i)) && f(i + 1) == f(i))
  }

  /** From any reachable state, if no new call arrives and writes succeed, every schedule
      reaches a state where all calls have returned and every deferred update is on disk. */
  lemma EverythingGetsFlushed(f: nat -> State, i: nat) returns (n: nat)
    requires Inv(f(i)) && WakeOk(f(i))
    requires forall k :: Schedule(f, k)
    ensures i <= n && AllIdle(f(n)) && f(n).flushedGen == f(n).mutGen
    ensures DeferredIn(Loaded(f(n).path).log) == DeferredIn(f(n).mem.log)
    decreases Backlog(f(i)), Work(f(i))
  {
    var s, s' := f(i), f(i + 1);
    assert Schedule(f, i);
    if Stuck(s) {
      StuckMeansFlushed(s);
      n := i;
    } else {
      var a :| Quiet(a) && Enabled(s, a) && s' == Do(s, a);
      QuietStepsDecrease(s, a);
      StepInv(s, a);
      WakeStep(s, a);
      n := EverythingGetsFlushed(f, i + 1);
    }
  }
}
