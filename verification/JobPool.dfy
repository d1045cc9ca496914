/** Exact accounting of the pool's threads over whole runs (src/jobcache/jobworker.c). */
module JobPool {
  import opened Jobs
  import opened JobService
  import opened JobServiceInv
  import opened JobServiceRuns

  ghost predicate Alive(s: State, t: Tid) {
    t in s.prog && IsWorker(s.prog[t]) && !s.prog[t].Exited?
  }

  ghost predicate SomeAlive(s: State) {
    exists t :: Alive(s, t)
  }

  /** While the pool runs, no worker on its list has ended. */
  ghost predicate ListedAlive(s: State) {
    s.pool.running ==> forall t <- s.pool.workers :: Alive(s, t)
  }

  /** No step of a running pool ends a worker, and none but a stop or a failed start ends the running. */
  lemma {:induction false} WorkerStaysAlive(s: State, l: Label, s': State, t: Tid)
    requires WorkerStep(s, l, s') && s.pool.running && Alive(s, t)
    ensures Alive(s', t)
  {
    if l.Callback? {
      CallbackWakes(s, l.t, l.woken, s');
    }
  }

  lemma {:induction false} ServiceStepKeepsAlive(s: State, l: Label, s': State)
    requires ListedAlive(s) && (CacheStep(s, l, s') || ClientStep(s, l, s') || WorkerStep(s, l, s'))
    ensures ListedAlive(s')
  {
    if ClientStep(s, l, s') {
      ClientLeavesPool(s, l, s');
      ClientMovesAlone(s, l, s');
    } else if WorkerStep(s, l, s') {
      WorkerLeavesPool(s, l, s');
      forall t <- s'.pool.workers | s'.pool.running
        ensures Alive(s', t)
      {
        WorkerStaysAlive(s, l, s', t);
      }
    }
  }

  lemma {:induction false} PoolStepKeepsAlive(s: State, l: Label, s': State)
    requires ListedAlive(s) && ControlConsistent(s) && PoolStep(s, l, s')
    ensures ListedAlive(s')
  {
    if !l.SpawnWorker? && !l.ScalerSpawns? && !l.StopReturns? {
      RecordStepShape(s, l, s');
    }
  }

  /** The threads created by the first `i` steps since the last call of jobworker_pool_start. */
  function CreatedSince(ls: seq<Label>, i: nat): nat
    requires i <= |ls|
  {
    if i == 0 || ls[i - 1].PoolStart? then 0
    else CreatedSince(ls, i - 1) + if Creates(ls[i - 1]) then 1 else 0
  }

  predicate Creates(l: Label) {
    l.SpawnWorker? || l.ScalerSpawns?
  }

  /** How one step changes the length of the thread list. */
  ghost predicate Counted(s: State, l: Label, s': State) {
    && (l.PoolStart? ==> s'.pool.workers == [])
    && (!l.PoolStart? && !s'.pool.control.Off? ==> !s.pool.control.Off?)
    && (!l.PoolStart? && !s'.pool.control.Off? ==> |s'.pool.workers| == |s.pool.workers| + if Creates(l) then 1 else 0)
  }

  lemma {:induction false} PoolStepCounts(s: State, l: Label, s': State)
    requires ControlConsistent(s) && PoolStep(s, l, s')
    ensures Counted(s, l, s')
  {
    if RecordOnly(l) {
      RecordStepShape(s, l, s');
    }
  }

  lemma {:induction false} ServiceStepCounts(s: State, l: Label, s': State)
    requires CacheStep(s, l, s') || ClientStep(s, l, s') || WorkerStep(s, l, s')
    ensures Counted(s, l, s') && !l.PoolStart? && !Creates(l)
  {
    if ClientStep(s, l, s') {
      ClientLeavesPool(s, l, s');
    } else if WorkerStep(s, l, s') {
      WorkerLeavesPool(s, l, s');
    }
  }

  lemma {:induction false} KeepsAliveAt(ss: seq<State>, ls: seq<Label>, i: nat)
    requires Run(ss, ls) && i < |ls|
    ensures ListedAlive(ss[i]) ==> ListedAlive(ss[i + 1])
  {
    RunKeeps(ss, ls, i);
    if ListedAlive(ss[i]) {
      StepKeepsAlive(ss[i], ls[i], ss[i + 1]);
    }
  }

  lemma {:induction false} RunListsAlive(ss: seq<State>, ls: seq<Label>, i: nat)
    requires Run(ss, ls) && i < |ss|
    ensures ListedAlive(ss[i])
    decreases i
  {
    if i > 0 {
      RunListsAlive(ss, ls, i - 1);
      KeepsAliveAt(ss, ls, i - 1);
    }
  }

  lemma {:induction false} StepKeepsAlive(s: State, l: Label, s': State)
    requires ListedAlive(s) && ControlConsistent(s) && Next(s, l, s')
    ensures ListedAlive(s')
  {
    if PoolStep(s, l, s') {
      PoolStepKeepsAlive(s, l, s');
    } else {
      ServiceStepKeepsAlive(s, l, s');
    }
  }

  lemma {:induction false} StepCounts(s: State, l: Label, s': State)
    requires ControlConsistent(s) && Next(s, l, s')
    ensures Counted(s, l, s')
  {
    if PoolStep(s, l, s') {
      PoolStepCounts(s, l, s');
    } else {
      ServiceStepCounts(s, l, s');
    }
  }

  ghost predicate AllCounted(ss: seq<State>, ls: seq<Label>) {
    |ss| == |ls| + 1 && ss[0].pool.control.Off? && forall i :: 0 <= i < |ls| ==> Counted(ss[i], ls[i], ss[i + 1])
  }

  lemma {:induction false} CountsAgree(ss: seq<State>, ls: seq<Label>, i: nat)
    requires AllCounted(ss, ls) && i < |ss|
    ensures !ss[i].pool.control.Off? ==> |ss[i].pool.workers| == CreatedSince(ls, i)
    decreases i
  {
    if i > 0 {
      CountsAgree(ss, ls, i - 1);
      assert Counted(ss[i - 1], ls[i - 1], ss[i]);
    }
  }

  lemma {:induction false} RunCounts(ss: seq<State>, ls: seq<Label>)
    requires Run(ss, ls)
    ensures AllCounted(ss, ls)
  {
    forall i | 0 <= i < |ls|
      ensures Counted(ss[i], ls[i], ss[i + 1])
    {
      RunStepCounts(ss, ls, i);
    }
  }

  lemma {:induction false} RunStepCounts(ss: seq<State>, ls: seq<Label>, i: nat)
    requires Run(ss, ls) && i < |ls|
    ensures Counted(ss[i], ls[i], ss[i + 1])
  {
    RunKeeps(ss, ls, i);
    StepCounts(ss[i], ls[i], ss[i + 1]);
  }

  /**
   * Pool accounting: between a start and the return of the stop that ends it, `num_workers` is the number of
   * threads created since that start, never above the maximum, and while the pool runs they are exactly the
   * live workers.
   */
  lemma {:induction false} WorkerCountExact(ss: seq<State>, ls: seq<Label>, i: nat)
    requires Run(ss, ls) && i < |ss|
    ensures !ss[i].pool.control.Off? ==> |ss[i].pool.workers| == CreatedSince(ls, i)
    ensures |ss[i].pool.workers| <= ss[i].pool.maxWorkers
    ensures ss[i].pool.running ==> forall t :: Alive(ss[i], t) <==> t in ss[i].pool.workers
  {
    RunCounts(ss, ls);
    CountsAgree(ss, ls, i);
    RunListsAlive(ss, ls, i);
    WorkerCountBounded(ss, ls, i);
  }

  /**
   * A start whose scaler cannot be created reports failure and leaves behind, alive and unjoined, exactly the
   * workers it has created: some worker is left iff at least one creation succeeded.
   */
  lemma {:induction false} FailedStartLeaves(ss: seq<State>, ls: seq<Label>, i: nat)
    requires Run(ss, ls) && i < |ls| && ls[i] == StartScaler(false)
    ensures ss[i + 1].pool.control == StartFailed && !ss[i + 1].pool.running
    ensures forall t :: Alive(ss[i + 1], t) <==> t in ss[i].pool.workers
    ensures |ss[i].pool.workers| == CreatedSince(ls, i)
    ensures SomeAlive(ss[i + 1]) <==> CreatedSince(ls, i) > 0
  {
    assert Next(ss[i], ls[i], ss[i + 1]);
    WorkerCountExact(ss, ls, i);
    RunKeeps(ss, ls, i);
    RecordStepShape(ss[i], ls[i], ss[i + 1]);
    assert forall t :: Alive(ss[i + 1], t) == Alive(ss[i], t);
    if CreatedSince(ls, i) > 0 {
      assert Alive(ss[i + 1], ss[i].pool.workers[0]);
    }
  }

  /** Both cases occur: a start can fail after one creation and after none. */
  lemma {:induction false} FailedStartHappens(s0: State, t: Tid)
    returns (ss: seq<State>, ls: seq<Label>, ss': seq<State>, ls': seq<Label>)
    requires Init(s0)
    ensures Run(ss, ls) && ss[0] == s0 && |ls| == 3 && ls[2] == StartScaler(false) && CreatedSince(ls, 2) == 1
    ensures Run(ss', ls') && ss'[0] == s0 && |ls'| == 2 && ls'[1] == StartScaler(false) && CreatedSince(ls', 1) == 0
  {
    var s1 := s0.(pool := s0.pool.(running := true, control := Starting));
    var s2 := Spawned(s1, t);
    var s3 := s2.(pool := s2.pool.(running := false, control := StartFailed));
    var s2' := s1.(pool := s1.pool.(running := false, control := StartFailed));
    ss, ls := [s0, s1, s2, s3], [PoolStart, SpawnWorker(t), StartScaler(false)];
    ss', ls' := [s0, s1, s2'], [PoolStart, StartScaler(false)];
    assert PoolStep(s0, PoolStart, s1);
    assert PoolStep(s1, SpawnWorker(t), s2);
    assert PoolStep(s2, StartScaler(false), s3);
    assert PoolStep(s1, StartScaler(false), s2');
    assert CreatedSince(ls, 1) == 0;
  }
}
