/** What the persistence protocol guarantees over whole runs. */
module PersistenceRuns {
  import opened Persistence

  lemma StepKeeps(s: State, s': State)
    requires Inv(s) && FlusherOk(s) && Step(s, s')
    ensures Inv(s') && FlusherOk(s') && Loaded(s.path).UpTo(Loaded(s'.path))
  {
    var a :| Enabled(s, a) && s' == Do(s, a);
    StepInv(s, a);
  }

  /** The invariant holds in every state of every run. */
  lemma {:induction false} RunsKeepInv(r: seq<State>, i: nat)
    requires IsRun(r) && i < |r|
    ensures Inv(r[i]) && FlusherOk(r[i])
  {
    if i == 0 {
      InitialInv(r[0]);
    } else {
      RunsKeepInv(r, i - 1);
      assert StepAt(r, i - 1);
      StepKeeps(r[i - 1], r[i]);
    }
  }

  lemma DiskForward(r: seq<State>, j: nat)
    requires IsRun(r) && j + 1 < |r|
    ensures Loaded(r[j].path).UpTo(Loaded(r[j + 1].path))
  {
    RunsKeepInv(r, j);
    assert StepAt(r, j);
    StepKeeps(r[j], r[j + 1]);
  }

  /** Content versions on disk never go backwards, whatever is interleaved, fails or crashes. */
  lemma {:induction false} DiskNeverGoesBack(r: seq<State>, i: nat, j: nat)
    requires IsRun(r) && i <= j < |r|
    ensures Loaded(r[i].path).UpTo(Loaded(r[j].path))
    decreases j
  {
    if i < j {
      DiskNeverGoesBack(r, i, j - 1);
      DiskForward(r, j - 1);
    }
  }

  /** In every reachable state a crash finds one complete snapshot (or the file the process
      started from), never a half-written one; it is a state memory was in; and it contains
      every deferred update up to `flushedGen`, which never exceeds `mutGen`. */
  lemma CrashSafe(r: seq<State>, i: nat)
    requires IsRun(r) && i < |r|
    ensures var s := r[i];
      && !s.path.Partial?
      && (s.path == s.bootFile || exists n :: 0 <= n < |s.history| && s.path == Complete(s.history[n]))
      && Loaded(s.path).UpTo(s.mem)
      && s.flushedGen <= s.mutGen
      && BootCount(s) + s.flushedGen <= DeferredCount(Loaded(s.path))
  {
    RunsKeepInv(r, i);
    var s := r[i];
    PathWhole(s);
    if Renaming(s) {
      assert ProcOk(s, s.fileMu);
      assert s.path == Complete(s.history[s.procs[s.fileMu].num - 1]);
    } else if s.lastWritten > 0 {
      assert s.path == Complete(s.history[s.lastWritten - 1]);
    }
  }

  /** Restarting after a crash recovers every deferred update that had been reported flushed. */
  lemma CrashRecovers(r: seq<State>, i: nat)
    requires IsRun(r) && i < |r|
    ensures Enabled(r[i], Crash)
    ensures var s' := Do(r[i], Crash);
      && s'.mem.UpTo(r[i].mem)
      && BootCount(r[i]) + r[i].flushedGen <= DeferredCount(s'.mem)
      && Initial(s')
  {
    RunsKeepInv(r, i);
    PathWhole(r[i]);
  }

  lemma SavedDisk(s: State, t: nat)
    requires Inv(s) && t < |s.procs| && Saved(s.procs[t])
    ensures s.path == Complete(s.mem)
  {
    assert ProcOk(s, t);
    SnapshotOnDisk(s, s.procs[t].num);
    PathWhole(s);
    assert s.mem.log == s.path.content.log;
  }

  // ----- what a successful save claims -----

  /** A setter or `Save` that has loaded its generation has loaded the current one. */
  predicate GenNow(s: State, t: nat)
    requires t < |s.procs|
  {
    var p := s.procs[t];
    (p.kind.Setter? || p.kind.Save?) && Counted(p) ==> p.gen == s.mutGen
  }

  ghost predicate GensNow(s: State) { forall t: nat :: t < |s.procs| ==> GenNow(s, t) }

  lemma RunGenNow(s: State, t: nat)
    requires t < |s.procs| && CanRun(s, t) && ShapeOk(s.procs[t]) && GenNow(s, t)
    ensures |DoRun(s, t).procs| == |s.procs| && GenNow(DoRun(s, t), t)
  {
    var g := s.procs[t].stage;
    if g.Called? { assert DoRun(s, t) == DoLock(s, t);
    } else if g.Holding? { assert DoRun(s, t) == DoStart(s, t);
    } else if Leaving(g) { assert DoRun(s, t) == DoLeave(s, t);
    } else if Numbering(g) { assert DoRun(s, t) == DoNumber(s, t);
    } else if Filing(g) { assert DoRun(s, t) == DoFile(s, t);
    } else if g.Cas? { assert DoRun(s, t) == DoSwap(s, t);
    }
  }

  /** The lock a setter or `Save` holds keeps deferred updates out. */
  lemma OtherGenNow(s: State, u: nat, t: nat)
    requires LocksOk(s) && u < |s.procs| && t < |s.procs| && u != t && CanRun(s, u)
    requires ProcOk(s, t) && ProcOk(s, u) && GenNow(s, t)
    ensures |DoRun(s, u).procs| == |s.procs| && GenNow(DoRun(s, u), t)
  {
    OtherRuns(s, u, t);
    if s.procs[u].stage.Changed? {
      assert s.writer == u;
    } else {
      SameMutGen(s, u);
    }
  }

  lemma SameMutGen(s: State, u: nat)
    requires u < |s.procs| && CanRun(s, u) && !s.procs[u].stage.Changed?
    ensures DoRun(s, u).mutGen == s.mutGen
  {
  }

  lemma ActionGenNow(s: State, a: Action, t: nat)
    requires Inv(s) && GensNow(s) && Enabled(s, a) && t < |Do(s, a).procs|
    ensures GenNow(Do(s, a), t)
  {
    match a
    case Run(u) =>
      assert ProcOk(s, u);
      if t == u {
        RunGenNow(s, t);
      } else {
        SameCalls(s, u);
        assert ProcOk(s, t);
        OtherGenNow(s, u, t);
      }
    case Crash =>
    case _ => assert t < |s.procs| && GenNow(s, t);
  }

  lemma SameCalls(s: State, u: nat)
    requires u < |s.procs| && CanRun(s, u)
    ensures |DoRun(s, u).procs| == |s.procs|
  {
  }

  lemma StepGensNow(s: State, s': State)
    requires Inv(s) && GensNow(s) && Step(s, s')
    ensures GensNow(s')
  {
    var a :| Enabled(s, a) && s' == Do(s, a);
    forall t: nat | t < |s'.procs| ensures GenNow(s', t) {
      ActionGenNow(s, a, t);
    }
  }

  lemma {:induction false} RunsKeepGens(r: seq<State>, i: nat)
    requires IsRun(r) && i < |r|
    ensures GensNow(r[i])
  {
    if 0 < i {
      RunsKeepGens(r, i - 1);
      RunsKeepInv(r, i - 1);
      assert StepAt(r, i - 1);
      StepGensNow(r[i - 1], r[i]);
    }
  }

  /** A setter or `Save` that is about to return nil: the disk equals memory, and nothing is left to flush,
      so that the next `Flush` writes nothing. */
  lemma SavedMeansOnDisk(r: seq<State>, i: nat, t: nat)
    requires IsRun(r) && i < |r| && t < |r[i].procs| && Saved(r[i].procs[t])
    ensures r[i].path == Complete(r[i].mem) && r[i].flushedGen == r[i].mutGen
  {
    RunsKeepInv(r, i);
    SavedDisk(r[i], t);
    RunsKeepGens(r, i);
    assert ProcOk(r[i], t) && GenNow(r[i], t);
  }

  // ----- a call's own change -----

  /** A setter or deferred update that has made its change: it is the newest in memory as long as the call
      holds `mu`. */
  predicate OwnChange(s: State, t: nat, m: Content)
    requires t < |s.procs|
  {
    var p := s.procs[t];
    && (p.kind.Setter? || p.kind.Defer?)
    && if p.stage.Called? || p.stage.Holding? then m.UpTo(s.mem)
       else s.mem.log != [] && s.mem.log[|s.mem.log| - 1] == p.what && m.UpTo(Content(s.mem.log[..|s.mem.log| - 1]))
  }

  predicate StillOwn(s: State, t: nat, m: Content) { t < |s.procs| && OwnChange(s, t, m) }

  lemma RunOwn(s: State, t: nat, m: Content)
    requires t < |s.procs| && CanRun(s, t) && ShapeOk(s.procs[t]) && OwnChange(s, t, m)
    ensures Returned(DoRun(s, t), t) || StillOwn(DoRun(s, t), t, m)
  {
    var g := s.procs[t].stage;
    if g.Called? { assert DoRun(s, t) == DoLock(s, t);
    } else if g.Holding? {
      assert DoRun(s, t) == DoStart(s, t);
      assert s.mem.Then(s.procs[t].what).log[..|s.mem.log|] == s.mem.log;
    } else if Leaving(g) { assert DoRun(s, t) == DoLeave(s, t);
    } else if Numbering(g) { assert DoRun(s, t) == DoNumber(s, t);
    } else if Filing(g) { assert DoRun(s, t) == DoFile(s, t);
    } else if g.Cas? { assert DoRun(s, t) == DoSwap(s, t);
    }
  }

  /** While a writer holds `mu`, nobody else changes memory. */
  lemma OtherKeepsMemory(s: State, u: nat, t: nat)
    requires u < |s.procs| && t < |s.procs| && u != t && CanRun(s, u) && ProcOk(s, u) && ProcOk(s, t)
    requires HoldsWrite(s.procs[t])
    ensures DoRun(s, u).mem == s.mem
  {
    var g := s.procs[u].stage;
    if g.Holding? {
      assert DoRun(s, u) == DoStart(s, u);
    }
  }

  lemma StepOwn(s: State, s': State, t: nat, m: Content)
    requires Inv(s) && FlusherOk(s) && Step(s, s') && SameCall(s, s', t) && OwnChange(s, t, m)
    ensures OwnChange(s', t, m)
  {
    var a := SeenFrom(s, s', t);
    assert ProcOk(s, t);
    if a == Run(t) {
      RunOwn(s, t, m);
    } else if a.Run? && HoldsWrite(s.procs[t]) {
      assert ProcOk(s, a.t);
      OtherKeepsMemory(s, a.t, t);
    }
  }

  lemma {:induction false} KeepsOwn(r: seq<State>, i: nat, j: nat, t: nat)
    requires IsRun(r) && InProgress(r, i, j, t) && OwnChange(r[i], t, r[i].mem) && r[i].procs[t].stage.Called?
    ensures OwnChange(r[j], t, r[i].mem)
    decreases j
  {
    if i < j {
      KeepsOwn(r, i, j - 1, t);
      RunsKeepInv(r, j - 1);
      assert StepAt(r, j - 1);
      StepOwn(r[j - 1], r[j], t, r[i].mem);
    }
  }

  /** A setter or deferred update that returns has made its change, as the newest in memory, on top of
      everything that was there when it was called - also when its save failed; and a setter that returns
      nil has it on disk, in this and every later state. */
  lemma ChangeIsMade(r: seq<State>, i: nat, j: nat, k: nat, t: nat)
    requires IsRun(r) && InProgress(r, i, j, t) && j <= k < |r|
    requires (r[i].procs[t].kind.Setter? || r[i].procs[t].kind.Defer?) && r[i].procs[t].stage.Called? && r[j].procs[t].stage.Done?
    ensures var log, n := r[j].mem.log, |r[j].mem.log|;
      && 0 < n && log[n - 1] == r[i].procs[t].what && r[i].mem.log <= log[..n - 1]
      && (Saved(r[j].procs[t]) ==> log <= Loaded(r[k].path).log)
  {
    KeepsOwn(r, i, j, t);
    CallRecord(r, i, j, t);
    if Saved(r[j].procs[t]) {
      SavedMeansOnDisk(r, j, t);
      DiskNeverGoesBack(r, j, k);
    }
  }

  // ----- Flush -----

  /** The same call is in progress in both states. */
  predicate SameCall(s: State, s': State, t: nat) {
    t < |s.procs| && t < |s'.procs| && !s.procs[t].stage.Idle? && !s'.procs[t].stage.Idle?
  }

  lemma RunGoesOn(s: State, u: nat, t: nat)
    requires u < |s.procs| && t < |s.procs| && CanRun(s, u)
    ensures var s' := DoRun(s, u);
      && |s'.procs| == |s.procs| && s'.bootFile == s.bootFile && s.mem.UpTo(s'.mem)
      && s'.procs[t].need == s.procs[t].need && s'.procs[t].kind == s.procs[t].kind && s'.procs[t].what == s.procs[t].what
  {
    var s' := DoRun(s, u);
    var g := s.procs[u].stage;
    if g.Called? { assert s' == DoLock(s, u);
    } else if g.Holding? { assert s' == DoStart(s, u);
    } else if Leaving(g) { assert s' == DoLeave(s, u);
    } else if Numbering(g) { assert s' == DoNumber(s, u);
    } else if Filing(g) { assert s' == DoFile(s, u);
    } else if g.Cas? { assert s' == DoSwap(s, u);
    }
  }

  lemma CallGoesOn(s: State, s': State, t: nat)
    requires FlusherOk(s) && Step(s, s') && SameCall(s, s', t)
    ensures s'.procs[t].need == s.procs[t].need && s'.procs[t].kind == s.procs[t].kind && s'.procs[t].what == s.procs[t].what
    ensures s.mem.UpTo(s'.mem) && s'.bootFile == s.bootFile
  {
    var a :| Enabled(s, a) && s' == Do(s, a);
    if a.Run? {
      RunGoesOn(s, a.t, t);
    }
  }

  lemma {:induction false} CallRecord(r: seq<State>, i: nat, j: nat, t: nat)
    requires IsRun(r) && i <= j < |r|
    requires forall k :: i <= k <= j ==> t < |r[k].procs| && !r[k].procs[t].stage.Idle?
    ensures r[j].procs[t].need == r[i].procs[t].need && r[j].procs[t].kind == r[i].procs[t].kind
    ensures r[j].procs[t].what == r[i].procs[t].what
    ensures r[i].mem.UpTo(r[j].mem) && r[j].bootFile == r[i].bootFile
    decreases j
  {
    if i < j {
      CallRecord(r, i, j - 1, t);
      RunsKeepInv(r, j - 1);
      assert StepAt(r, j - 1);
      CallGoesOn(r[j - 1], r[j], t);
    }
  }

  ghost predicate InProgress(r: seq<State>, i: nat, j: nat, t: nat) {
    i <= j < |r| && forall n :: i <= n <= j ==> t < |r[n].procs| && !r[n].procs[t].stage.Idle?
  }

  /** How a Flush accounts for the deferred updates in `m`, which memory held when it was called:
      once it has the read lock the generation counts them, and from then on its own `gen` does. */
  predicate Accounts(s: State, t: nat, m: Content)
    requires t < |s.procs|
  {
    var p := s.procs[t];
    && p.kind.Flush? && m.UpTo(s.mem)
    && (p.stage.Called? || p.stage == Done(false)
        || DeferredCount(m) <= BootCount(s) + if p.stage.Holding? then s.mutGen else p.gen)
  }

  predicate StillAccounts(s: State, t: nat, m: Content) { t < |s.procs| && Accounts(s, t, m) }

  predicate Returned(s: State, t: nat) { t < |s.procs| && s.procs[t].stage.Idle? }

  /** Taking the read lock: nobody is half way through a deferred update, so `mutGen` counts them all. */
  lemma LockAccounts(s: State, t: nat, m: Content)
    requires Inv(s) && t < |s.procs| && CanRun(s, t) && s.procs[t].stage.Called? && s.procs[t].kind.Flush? && m.UpTo(s.mem)
    ensures Accounts(DoLock(s, t), t, m)
  {
    CountPrefix(m, s.mem);
  }

  lemma RunAccounts(s: State, t: nat, m: Content)
    requires Inv(s) && t < |s.procs| && CanRun(s, t) && Accounts(s, t, m)
    ensures Returned(DoRun(s, t), t) || StillAccounts(DoRun(s, t), t, m)
  {
    assert ProcOk(s, t);
    var g := s.procs[t].stage;
    if g.Called? {
      LockAccounts(s, t, m);
    } else if g.Holding? {
      assert DoRun(s, t) == DoStart(s, t);
    } else {
      CarriesGen(s, t);
    }
  }

  /** Once a Flush has left the comparison, its own steps keep its generation until it returns. */
  lemma CarriesGen(s: State, t: nat)
    requires t < |s.procs| && ProcOk(s, t) && CanRun(s, t) && s.procs[t].kind.Flush?
    requires !s.procs[t].stage.Called? && !s.procs[t].stage.Holding?
    ensures var s' := DoRun(s, t);
      && |s'.procs| == |s.procs| && s'.mem == s.mem && s'.bootFile == s.bootFile
      && (s'.procs[t].stage.Idle? || (s'.procs[t].kind.Flush? && s'.procs[t].gen == s.procs[t].gen
          && !s'.procs[t].stage.Called? && !s'.procs[t].stage.Holding?))
  {
    var g := s.procs[t].stage;
    if Leaving(g) { assert DoRun(s, t) == DoLeave(s, t);
    } else if Numbering(g) { assert DoRun(s, t) == DoNumber(s, t);
    } else if Filing(g) { FileFrame(s, t);
    } else if g.Cas? { SwapFrame(s, t);
    }
  }

  /** What a step of some other call leaves alone. */
  lemma OtherRuns(s: State, u: nat, t: nat)
    requires u < |s.procs| && t < |s.procs| && t != u && CanRun(s, u)
    ensures var s' := DoRun(s, u);
      && |s'.procs| == |s.procs| && s'.procs[t] == s.procs[t] && s'.bootFile == s.bootFile
      && s.mem.UpTo(s'.mem) && s.mutGen <= s'.mutGen
  {
    var g := s.procs[u].stage;
    if g.Called? { assert DoRun(s, u) == DoLock(s, u);
    } else if g.Holding? { assert DoRun(s, u) == DoStart(s, u);
    } else if Leaving(g) { assert DoRun(s, u) == DoLeave(s, u);
    } else if Numbering(g) { assert DoRun(s, u) == DoNumber(s, u);
    } else if Filing(g) { FileFrame(s, u);
    }
  }

  /** One action, seen from a call that is in progress before and after it: the call itself runs or
      fails, or something else happens and memory and `mutGen` only grow. */
  lemma SeenFrom(s: State, s': State, t: nat) returns (a: Action)
    requires FlusherOk(s) && Step(s, s') && SameCall(s, s', t)
    ensures Enabled(s, a) && s' == Do(s, a)
    ensures a == Run(t) || a == Fail(t)
      || (s'.procs[t] == s.procs[t] && s'.bootFile == s.bootFile && s.mem.UpTo(s'.mem) && s.mutGen <= s'.mutGen)
  {
    a :| Enabled(s, a) && s' == Do(s, a);
    if a.Run? && a.t != t {
      OtherRuns(s, a.t, t);
    }
  }

  lemma StepAccounts(s: State, s': State, t: nat, m: Content)
    requires Inv(s) && FlusherOk(s) && Step(s, s') && SameCall(s, s', t) && Accounts(s, t, m)
    ensures Accounts(s', t, m)
  {
    var a := SeenFrom(s, s', t);
    if a == Run(t) {
      RunAccounts(s, t, m);
    }
  }

  lemma {:induction false} FlushAccounts(r: seq<State>, i: nat, j: nat, t: nat)
    requires IsRun(r) && InProgress(r, i, j, t)
    requires r[i].procs[t].kind.Flush? && r[i].procs[t].stage.Called?
    ensures Accounts(r[j], t, r[i].mem)
    decreases j
  {
    if i < j {
      FlushAccounts(r, i, j - 1, t);
      RunsKeepInv(r, j - 1);
      assert StepAt(r, j - 1);
      StepAccounts(r[j - 1], r[j], t, r[i].mem);
    }
  }

  /** A Flush that returns nil has put on disk every lease and device update that was in memory when
      Flush was called, also one whose call had not yet returned or not yet bumped `mutGen`; and they
      stay there in every later state. */
  lemma FlushCovers(r: seq<State>, i: nat, j: nat, k: nat, t: nat)
    requires IsRun(r) && InProgress(r, i, j, t) && j <= k < |r|
    // a Flush that has been called and has no lock yet in state i, and is about to return nil in state j
    requires r[i].procs[t].kind.Flush? && r[i].procs[t].stage.Called? && r[j].procs[t].stage == Done(true)
    ensures DeferredIn(r[i].mem.log) <= DeferredIn(Loaded(r[k].path).log)
  {
    FlushAccounts(r, i, j, t);
    RunsKeepInv(r, j);
    assert ProcOk(r[j], t);
    PathWhole(r[j]);
    CountDecides(r[i].mem, Loaded(r[j].path), r[j].mem);
    DiskNeverGoesBack(r, j, k);
  }

  // ----- when Flush writes everything -----

  /** A Flush that goes on to write has `m` in its snapshot, and finally on disk. */
  predicate Carries(s: State, t: nat, m: Content)
    requires t < |s.procs|
  {
    var p := s.procs[t];
    && p.kind.Flush?
    && (p.stage.Ready? ==> m.UpTo(s.mem))
    && (p.stage.Marshalled? || HasNumber(p) ==> m.UpTo(p.content))
    && (p.stage == Done(true) ==> m.UpTo(Loaded(s.path)))
    && (p.stage.Ready? || p.stage.Marshalled? || HasNumber(p) || p.stage.Done?)
  }

  predicate StillCarries(s: State, t: nat, m: Content) { t < |s.procs| && Carries(s, t, m) }

  lemma SwapCarries(s: State, t: nat, m: Content)
    requires Inv(s) && t < |s.procs| && s.procs[t].stage.Cas? && Carries(s, t, m)
    ensures StillCarries(DoSwap(s, t), t, m)
  {
    assert ProcOk(s, t);
    SnapshotOnDisk(s, s.procs[t].num);
    SwapFrame(s, t);
  }

  lemma RunCarries(s: State, t: nat, m: Content)
    requires t < |s.procs| && ProcOk(s, t) && CanRun(s, t) && Carries(s, t, m) && !s.procs[t].stage.Cas?
    ensures Returned(DoRun(s, t), t) || StillCarries(DoRun(s, t), t, m)
  {
    var g := s.procs[t].stage;
    if Leaving(g) { assert DoRun(s, t) == DoLeave(s, t);
    } else if Numbering(g) { assert DoRun(s, t) == DoNumber(s, t);
    } else if Filing(g) { FileFrame(s, t);
    }
  }

  lemma StepCarries(s: State, s': State, t: nat, m: Content)
    requires Inv(s) && FlusherOk(s) && Step(s, s') && SameCall(s, s', t) && Carries(s, t, m)
    ensures Carries(s', t, m)
  {
    var a := SeenFrom(s, s', t);
    StepKeeps(s, s');
    assert ProcOk(s, t);
    if a == Run(t) {
      if s.procs[t].stage.Cas? {
        SwapCarries(s, t, m);
        assert DoRun(s, t) == DoSwap(s, t);
      } else {
        RunCarries(s, t, m);
      }
    }
  }

  lemma {:induction false} FlushCarries(r: seq<State>, i: nat, j: nat, t: nat, m: Content)
    requires IsRun(r) && InProgress(r, i, j, t) && Carries(r[i], t, m)
    ensures Carries(r[j], t, m)
    decreases j
  {
    if i < j {
      FlushCarries(r, i, j - 1, t, m);
      RunsKeepInv(r, j - 1);
      assert StepAt(r, j - 1);
      StepCarries(r[j - 1], r[j], t, m);
    }
  }

  /** The state in which a Flush compares generations leads to the comparison itself. */
  lemma Compares(s: State, s': State, t: nat)
    requires FlusherOk(s) && Step(s, s') && SameCall(s, s', t)
    requires s.procs[t].stage.Holding? && s.procs[t].kind.Flush? && !s'.procs[t].stage.Holding?
    ensures s' == DoStart(s, t)
  {
    var a := SeenFrom(s, s', t);
  }

  // ----- settings edits whose save failed -----

  /** Step n of the run is the error return of a settings edit: its change is in memory, its save has failed. */
  ghost predicate EditFailsAt(r: seq<State>, n: int, t: int) {
    && 0 <= n && n + 1 < |r| && 0 <= t < |r[n].procs| && t < |r[n + 1].procs|
    && r[n].procs[t].kind.Setter? && !r[n].procs[t].stage.Done? && r[n + 1].procs[t].stage == Done(false)
  }

  /** A settings edit that has changed memory is still trying to save it. */
  predicate Saving(s: State, i: int) {
    && 0 <= s.writer < |s.procs| && s.procs[s.writer].kind.Setter?
    && !s.procs[s.writer].stage.Holding? && !s.procs[s.writer].stage.Done? && i == |s.mem.log| - 1
  }

  /** Change i of memory is an edit that is not on disk. */
  predicate MissingEdit(s: State, i: int) {
    |Loaded(s.path).log| <= i < |s.mem.log| && s.mem.log[i].Edit?
  }

  /** Memory with change i as its last had its save fail before state k. */
  ghost predicate FailedBefore(r: seq<State>, k: int, i: int, mem: Content) {
    exists n, t :: n < k && EditFailsAt(r, n, t) && 0 <= i < |mem.log| && r[n].mem.log == mem.log[..i + 1]
  }

  /** One step, seen from an edit that is missing after it: it was missing before, or has just been made. */
  lemma MissingBefore(s: State, s': State, i: int) returns (a: Action)
    requires Inv(s) && FlusherOk(s) && Step(s, s') && MissingEdit(s', i)
    ensures Enabled(s, a) && s' == Do(s, a) && Inv(s')
    ensures if i < |s.mem.log| then MissingEdit(s, i) && s.mem.UpTo(s'.mem) else Saving(s', i)
  {
    a :| Enabled(s, a) && s' == Do(s, a);
    StepInv(s, a);
    if a.Run? {
      assert ProcOk(s, a.t);
      MissingRun(s, a.t, i);
    } else {
      MemoryKept(s, a, i);
    }
  }

  lemma MissingRun(s: State, t: nat, i: int)
    requires t < |s.procs| && CanRun(s, t) && ProcOk(s, t) && MissingEdit(DoRun(s, t), i)
    requires Loaded(s.path).UpTo(Loaded(DoRun(s, t).path))
    ensures if i < |s.mem.log| then MissingEdit(s, i) && s.mem.UpTo(DoRun(s, t).mem) else Saving(DoRun(s, t), i)
  {
    RunMemory(s, t);
  }

  lemma MemoryKept(s: State, a: Action, i: int)
    requires Enabled(s, a) && !a.Run? && MissingEdit(Do(s, a), i)
    ensures MissingEdit(s, i) && Do(s, a).mem == s.mem
  {
  }

  /** Only the first instruction under `mu` changes memory, by one change of the call that holds it. */
  lemma RunMemory(s: State, t: nat)
    requires t < |s.procs| && CanRun(s, t) && ProcOk(s, t)
    ensures var s' := DoRun(s, t);
      s'.mem == s.mem ||
        (s'.mem == s.mem.Then(s.procs[t].what) && s'.writer == t && |s'.procs| == |s.procs|
         && s'.procs[t].kind == s.procs[t].kind && Fits(s.procs[t].kind, s.procs[t].what) && !s.procs[t].kind.Save? && !s.procs[t].kind.Flush?
         && (s.procs[t].kind.Setter? ==> s'.procs[t].stage.Ready?))
  {
    var g := s.procs[t].stage;
    if g.Called? { assert DoRun(s, t) == DoLock(s, t);
    } else if g.Holding? { assert DoRun(s, t) == DoStart(s, t);
    } else if Leaving(g) { assert DoRun(s, t) == DoLeave(s, t);
    } else if Numbering(g) { assert DoRun(s, t) == DoNumber(s, t);
    } else if Filing(g) { FileFrame(s, t);
    } else if g.Cas? { SwapFrame(s, t);
    }
  }
  /** While an edit is trying to save, a step of any other call leaves it as it is. */
  lemma OtherLeavesSaving(s: State, u: nat, i: int)
    requires Inv(s) && Saving(s, i) && u < |s.procs| && u != s.writer && CanRun(s, u)
    ensures Saving(DoRun(s, u), i)
  {
    var w := s.writer;
    assert ProcOk(s, w) && ProcOk(s, u);
    OtherRuns(s, u, w);
    RunMemory(s, u);
    var g := s.procs[u].stage;
    if Leaving(g) { assert DoRun(s, u) == DoLeave(s, u);
    } else if Filing(g) { FileFrame(s, u);
    } else if g.Cas? { SwapFrame(s, u);
    }
  }

  /** Its own next instruction leaves it trying, or it has saved. */
  lemma SavingRuns(s: State, i: int)
    requires Inv(s) && Saving(s, i) && CanRun(s, s.writer)
    ensures var s' := DoRun(s, s.writer);
      Saving(s', i) || (s.writer < |s'.procs| && s'.procs[s.writer].kind.Setter? && s'.procs[s.writer].stage == Done(true))
  {
    var w := s.writer;
    assert ProcOk(s, w);
    RunMemory(s, w);
    var g := s.procs[w].stage;
    if Numbering(g) { assert DoRun(s, w) == DoNumber(s, w);
    } else if Filing(g) { FileFrame(s, w);
    } else if g.Cas? { SwapFrame(s, w);
    }
  }

  lemma SavingRun(s: State, t: nat, i: int)
    requires Inv(s) && t < |s.procs| && CanRun(s, t) && Inv(DoRun(s, t))
    requires Saving(s, i) && MissingEdit(DoRun(s, t), i)
    ensures Saving(DoRun(s, t), i)
  {
    var s' := DoRun(s, t);
    if t == s.writer {
      SavingRuns(s, i);
      if !Saving(s', i) {
        SavedDisk(s', t);
      }
    } else {
      OtherLeavesSaving(s, t, i);
    }
  }

  lemma SavingFail(s: State, t: nat, i: int)
    requires t < |s.procs| && CanFail(s, t) && Saving(s, i)
    ensures var s' := DoFail(s, t);
      Saving(s', i) || (t == s.writer && s.writer < |s'.procs| && s'.procs[s.writer].stage == Done(false))
  {
  }

  /** The edit goes on trying to save, or it has just failed. */
  lemma SavingStep(s: State, s': State, a: Action, i: int)
    requires Inv(s) && Inv(s') && FlusherOk(s) && Enabled(s, a) && s' == Do(s, a)
    requires Saving(s, i) && MissingEdit(s', i)
    ensures Saving(s', i) || (a == Fail(s.writer) && s.writer < |s'.procs| && s'.procs[s.writer].stage == Done(false))
  {
    match a
    case Run(t) => SavingRun(s, t, i);
    case Fail(t) => SavingFail(s, t, i);
    case _ => SavingElse(s, a, i);
  }

  lemma SavingElse(s: State, a: Action, i: int)
    requires 0 <= s.writer < |s.procs| ==> ProcOk(s, s.writer)
    requires FlusherOk(s) && Enabled(s, a) && !a.Run? && !a.Fail? && Saving(s, i) && MissingEdit(Do(s, a), i)
    ensures Saving(Do(s, a), i)
  {
  }

  /** Every edit that is in memory and not on disk is still being saved, or its save has failed. */
  lemma {:induction false} MissingFailed(r: seq<State>, k: nat, i: int)
    requires IsRun(r) && k < |r| && MissingEdit(r[k], i)
    ensures Saving(r[k], i) || FailedBefore(r, k, i, r[k].mem)
  {
    if 0 < k {
      RunsKeepInv(r, k - 1);
      assert StepAt(r, k - 1);
      var s, s' := r[k - 1], r[k];
      var a := MissingBefore(s, s', i);
      if i < |s.mem.log| {
        MissingFailed(r, k - 1, i);
        assert s.mem.log[..i + 1] == s'.mem.log[..i + 1];
        if Saving(s, i) {
          SavingStep(s, s', a, i);
          if !Saving(s', i) {
            assert EditFailsAt(r, k - 1, s.writer) && s.mem.log == s.mem.log[..i + 1];
          }
        }
      }
    }
  }

  /** Every settings edit whose save failed so far, and which is still in memory, is on disk by a later save. */
  ghost predicate FailedEditsSaved(r: seq<State>, c: nat)
    requires c < |r|
  {
    forall n, t :: n < c && EditFailsAt(r, n, t) && r[n].mem.UpTo(r[c].mem) ==> r[n].mem.UpTo(Loaded(r[c].path))
  }

  /** With nothing deferred unflushed and nobody changing memory, only edits can be missing. */
  lemma OnlyEditsMissing(s: State)
    requires Inv(s) && s.writer == NOBODY && s.flushedGen == s.mutGen
    ensures Loaded(s.path) == s.mem || MissingEdit(s, |Loaded(s.path).log|)
  {
    PathWhole(s);
    var d := Loaded(s.path);
    CountDecides(s.mem, d, s.mem);
    assert |d.log| < |s.mem.log| && s.mem.log[|d.log|].Deferred? ==> |d.log| in DeferredIn(s.mem.log);
    if |d.log| == |s.mem.log| {
      assert d.log == s.mem.log;
    }
  }

  lemma DiskIsMemoryIff(r: seq<State>, c: nat)
    requires IsRun(r) && c < |r| && r[c].writer == NOBODY && r[c].flushedGen == r[c].mutGen
    ensures Loaded(r[c].path) == r[c].mem <==> FailedEditsSaved(r, c)
  {
    RunsKeepInv(r, c);
    var s := r[c];
    OnlyEditsMissing(s);
    var i := |Loaded(s.path).log|;
    if MissingEdit(s, i) {
      MissingFailed(r, c, i);
      var n, t :| n < c && EditFailsAt(r, n, t) && r[n].mem.log == s.mem.log[..i + 1];
      assert r[n].mem.UpTo(s.mem) && !r[n].mem.UpTo(Loaded(s.path));
    }
  }

  /** Exactly when a Flush covers all of memory. Compare generations in state c and return nil in
      state j: everything that was in memory at the comparison is on disk at the return if and only if some
      deferred update was not yet flushed at the comparison, or every settings edit whose own save had
      failed by then had reached the disk by a later save. */
  lemma FlushCoversAllIff(r: seq<State>, c: nat, j: nat, t: nat)
    requires IsRun(r) && c < j && InProgress(r, c, j, t)
    requires r[c].procs[t].kind.Flush? && r[c].procs[t].stage.Holding? && !r[c + 1].procs[t].stage.Holding?
    requires r[j].procs[t].stage == Done(true) && forall n :: c < n < j ==> !r[n].procs[t].stage.Done?
    ensures r[c].mem.UpTo(Loaded(r[j].path)) <==> r[c].flushedGen < r[c].mutGen || FailedEditsSaved(r, c)
  {
    RunsKeepInv(r, c);
    assert StepAt(r, c);
    Compares(r[c], r[c + 1], t);
    PathWhole(r[c]);
    if r[c].flushedGen < r[c].mutGen {
      FlushCarries(r, c + 1, j, t, r[c].mem);
    } else {
      assert j == c + 1;
      assert ProcOk(r[c], t);
      DiskIsMemoryIff(r, c);
    }
  }

  lemma Extend(r: seq<State>, a: Action)
    requires IsRun(r) && Enabled(r[|r| - 1], a)
    ensures IsRun(r + [Do(r[|r| - 1], a)])
  {
    var r' := r + [Do(r[|r| - 1], a)];
    forall i: nat | i + 1 < |r'| ensures StepAt(r', i) {
      if i + 1 < |r| {
        assert StepAt(r, i);
      } else {
        assert Enabled(r'[i], a) && r'[i + 1] == Do(r'[i], a);
      }
    }
  }

  const EDITED := Content([Edit(7)])
  const EDIT := Proc(Setter, Called, Edit(7), Content([]), 0, 0, 0)
  const FLUSH := Proc(Flush, Called, Edit(0), Content([]), 0, 0, 0)

  function Calls(edit: Proc, flush: Proc): seq<Proc> { [IDLE, edit, flush] }

  const FRESH := State(Content([]), Absent, Absent, NOBODY, {}, NOBODY, 0, 0, 0, 0, Calls(IDLE, IDLE), false, Off, Absent, [])

  /** A fresh installation on which a setter has changed memory. */
  const CHANGED := FRESH.(mem := EDITED, writer := 1, procs := Calls(EDIT.(stage := Ready), IDLE))

  /** The same setter with its snapshot numbered, about to write the temporary file. */
  const SNAPPED := EDIT.(content := EDITED, num := 1)
  const FILING := CHANGED.(procs := Calls(SNAPPED.(stage := InFile), IDLE), seqNo := 1, history := [EDITED], fileMu := 1)

  /** The setter has returned its error. */
  const FAILED := FILING.(procs := Calls(SNAPPED.(stage := Idle), IDLE), writer := NOBODY, fileMu := NOBODY)

  lemma Moved(edit: Proc, flush: Proc, p: Proc)
    ensures Calls(edit, flush)[1 := p] == Calls(p, flush) && Calls(edit, flush)[2 := p] == Calls(edit, p)
  {
  }

  /** One more state of the run. */
  lemma Go(before: seq<State>, a: Action, s: State) returns (r: seq<State>)
    requires IsRun(before) && Enabled(before[|before| - 1], a) && Do(before[|before| - 1], a) == s
    ensures IsRun(r) && r[|r| - 1] == s
  {
    Extend(before, a);
    r := before + [s];
  }

  lemma EditChanges() returns (r: seq<State>)
    ensures IsRun(r) && r[|r| - 1] == CHANGED
  {
    assert FRESH.procs == Boot(Absent, Absent, 2).procs;
    r := [FRESH];
    Moved(IDLE, IDLE, EDIT);
    r := Go(r, Invoke(1, Setter, Edit(7)), FRESH.(procs := Calls(EDIT, IDLE)));
    var locked := EDIT.(stage := Holding);
    Moved(EDIT, IDLE, locked);
    r := Go(r, Run(1), FRESH.(procs := Calls(locked, IDLE), writer := 1));
    Moved(locked, IDLE, EDIT.(stage := Ready));
    r := Go(r, Run(1), CHANGED);
  }

  lemma EditNumbers(before: seq<State>) returns (r: seq<State>)
    requires IsRun(before) && before[|before| - 1] == CHANGED
    ensures IsRun(r) && r[|r| - 1] == CHANGED.(procs := Calls(SNAPPED.(stage := Numbered), IDLE), seqNo := 1, history := [EDITED])
  {
    var marshalled := EDIT.(stage := Marshalled, content := EDITED);
    Moved(EDIT.(stage := Ready), IDLE, marshalled);
    r := Go(before, Run(1), CHANGED.(procs := Calls(marshalled, IDLE)));
    Moved(marshalled, IDLE, SNAPPED.(stage := Numbered));
    r := Go(r, Run(1), CHANGED.(procs := Calls(SNAPPED.(stage := Numbered), IDLE), seqNo := 1, history := [EDITED]));
  }

  lemma EditFiles(before: seq<State>) returns (r: seq<State>)
    requires IsRun(before)
    requires before[|before| - 1] == CHANGED.(procs := Calls(SNAPPED.(stage := Numbered), IDLE), seqNo := 1, history := [EDITED])
    ensures IsRun(r) && r[|r| - 1] == FILING
  {
    var waiting := SNAPPED.(stage := WantFile);
    Moved(SNAPPED.(stage := Numbered), IDLE, waiting);
    r := Go(before, Run(1), CHANGED.(procs := Calls(waiting, IDLE), seqNo := 1, history := [EDITED]));
    Moved(waiting, IDLE, SNAPPED.(stage := InFile));
    r := Go(r, Run(1), FILING);
  }

  /** The write of the temporary file fails, for instance because the disk is full. */
  lemma EditFails(before: seq<State>) returns (r: seq<State>)
    requires IsRun(before) && before[|before| - 1] == FILING
    ensures IsRun(r) && r[|r| - 1] == FAILED
  {
    var failed := SNAPPED.(stage := Done(false));
    Moved(SNAPPED.(stage := InFile), IDLE, failed);
    r := Go(before, Fail(1), FILING.(procs := Calls(failed, IDLE), fileMu := NOBODY));
    Moved(failed, IDLE, SNAPPED.(stage := Idle));
    r := Go(r, Run(1), FAILED);
  }

  lemma FlushReturns(before: seq<State>) returns (r: seq<State>)
    requires IsRun(before) && before[|before| - 1] == FAILED
    ensures IsRun(r) && r[|r| - 1] == FAILED.(procs := Calls(SNAPPED.(stage := Idle), FLUSH.(stage := Done(true))))
  {
    var gone, locked, done := SNAPPED.(stage := Idle), FLUSH.(stage := Holding), FLUSH.(stage := Done(true));
    Moved(gone, IDLE, FLUSH);
    r := Go(before, Invoke(2, Flush, Edit(0)), FAILED.(procs := Calls(gone, FLUSH)));
    Moved(gone, FLUSH, locked);
    assert {} + {2} == {2};
    r := Go(r, Run(2), FAILED.(procs := Calls(gone, locked), readers := {2}));
    Moved(gone, locked, done);
    assert {2} - {2} == {};
    r := Go(r, Run(2), FAILED.(procs := Calls(gone, done)));
  }

  /** What Flush does not promise: a settings edit whose own write failed is in memory but is not
      marked dirty, so a later Flush may return nil without writing it. */
  lemma FlushMayMissFailedEdit() returns (r: seq<State>)
    ensures IsRun(r)
    ensures var s := r[|r| - 1];
      && |s.procs| == 3 && s.writer == NOBODY
      && s.procs[2].kind.Flush? && s.procs[2].stage == Done(true)
      && s.mem == EDITED && s.path == Absent
  {
    r := EditChanges();
    r := EditNumbers(r);
    r := EditFiles(r);
    r := EditFails(r);
    r := FlushReturns(r);
  }
}
