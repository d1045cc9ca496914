/** How the worker pool grows, over every run (src/jobcache/jobworker.c). */
module JobScale {
  import opened Basics
  import opened Jobs
  import opened JobService
  import opened JobServiceInv
  import opened JobServiceRuns
  import opened JobPool
  import opened JobProgress
  import opened JobStop

  /** The steps that move the scaler. */
  predicate MovesScaler(l: Label) {
    l.StartScaler? || l.ScalerMoves? || l.ScalerSpawns? || l.StopReturns?
  }

  /** The settings never change. */
  ghost predicate SameSettings(s: State, s': State) {
    && s'.pool.minWorkers == s.pool.minWorkers
    && s'.pool.maxWorkers == s.pool.maxWorkers
    && s'.pool.threshold == s.pool.threshold
  }

  /** A step outside the pool. */
  ghost predicate Outside(s: State, l: Label, s': State) {
    s'.pool == s.pool && !MovesScaler(l) && !l.SpawnWorker? && !l.PoolStart?
  }

  lemma {:induction false} ClientsOutside(s: State, l: Label, s': State)
    requires ClientStep(s, l, s')
    ensures Outside(s, l, s')
  {
    ClientLeavesPool(s, l, s');
  }

  lemma {:induction false} WorkersOutside(s: State, l: Label, s': State)
    requires WorkerStep(s, l, s')
    ensures Outside(s, l, s')
  {
    WorkerLeavesPool(s, l, s');
  }

  lemma {:induction false} CacheOutside(s: State, l: Label, s': State)
    requires CacheStep(s, l, s')
    ensures Outside(s, l, s')
  {
  }

  lemma {:induction false} PoolOrOutside(s: State, l: Label, s': State)
    requires Next(s, l, s')
    ensures PoolStep(s, l, s') || Outside(s, l, s')
  {
    if ClientStep(s, l, s') {
      ClientsOutside(s, l, s');
    } else if WorkerStep(s, l, s') {
      WorkersOutside(s, l, s');
    } else if CacheStep(s, l, s') {
      CacheOutside(s, l, s');
    }
  }

  lemma {:induction false} PoolKeepsSettings(s: State, l: Label, s': State)
    requires PoolStep(s, l, s')
    ensures SameSettings(s, s')
  {
  }

  lemma {:induction false} StepKeepsSettings(s: State, l: Label, s': State)
    requires Next(s, l, s')
    ensures SameSettings(s, s')
  {
    PoolOrOutside(s, l, s');
    if PoolStep(s, l, s') {
      PoolKeepsSettings(s, l, s');
    }
  }

  lemma {:induction false} PoolLeavesScaler(s: State, l: Label, s': State)
    requires PoolStep(s, l, s') && !MovesScaler(l)
    ensures s'.pool.scaler == s.pool.scaler
  {
  }

  /** A step that leaves the scaler with a depth found it so or measured it. */
  lemma {:induction false} MeasuresNow(s: State, l: Label, s': State)
    requires ControlConsistent(s) && PoolStep(s, l, s') && MovesScaler(l) && s'.pool.scaler.Deciding?
    ensures l.ScalerMoves? && |s.cache.queue| == s'.pool.scaler.depth
  {
  }

  /** A step ends with the scaler at a depth only if it measured that depth or left the scaler alone. */
  ghost predicate Measures(s: State, l: Label, s': State) {
    s'.pool.scaler.Deciding? ==>
      if MovesScaler(l) then l.ScalerMoves? && |s.cache.queue| == s'.pool.scaler.depth
      else s'.pool.scaler == s.pool.scaler
  }

  lemma {:induction false} StepMeasures(s: State, l: Label, s': State)
    requires ControlConsistent(s) && Next(s, l, s')
    ensures Measures(s, l, s')
  {
    PoolOrOutside(s, l, s');
    if PoolStep(s, l, s') && s'.pool.scaler.Deciding? {
      if MovesScaler(l) {
        MeasuresNow(s, l, s');
      } else {
        PoolLeavesScaler(s, l, s');
      }
    }
  }

  lemma {:induction false} MeasuresAt(ss: seq<State>, ls: seq<Label>, i: nat)
    requires Run(ss, ls) && i < |ls|
    ensures Measures(ss[i], ls[i], ss[i + 1])
  {
    RunKeeps(ss, ls, i);
    StepMeasures(ss[i], ls[i], ss[i + 1]);
  }

  ghost predicate AllMeasure(ss: seq<State>, ls: seq<Label>) {
    && |ss| == |ls| + 1 && !ss[0].pool.scaler.Deciding?
    && forall i :: 0 <= i < |ls| ==> Measures(ss[i], ls[i], ss[i + 1])
  }

  lemma {:induction false} RunMeasures(ss: seq<State>, ls: seq<Label>)
    requires Run(ss, ls)
    ensures AllMeasure(ss, ls)
  {
    forall i | 0 <= i < |ls|
      ensures Measures(ss[i], ls[i], ss[i + 1])
    {
      MeasuresAt(ss, ls, i);
    }
  }

  /** At step `j` the scaler measured a queue of `depth` jobs, and it has not moved since. */
  ghost predicate Measured(ss: seq<State>, ls: seq<Label>, j: nat, i: nat, depth: nat) {
    && |ss| == |ls| + 1 && j < i <= |ls|
    && ls[j].ScalerMoves? && |ss[j].cache.queue| == depth
    && forall m :: j < m < i ==> !MovesScaler(ls[m])
  }

  lemma {:induction false} DepthWasMeasured(ss: seq<State>, ls: seq<Label>, i: nat) returns (j: nat)
    requires AllMeasure(ss, ls) && i < |ss| && ss[i].pool.scaler.Deciding?
    ensures Measured(ss, ls, j, i, ss[i].pool.scaler.depth)
    decreases i
  {
    j := i - 1;
    assert Measures(ss[j], ls[j], ss[j + 1]);
    if !MovesScaler(ls[j]) {
      j := DepthWasMeasured(ss, ls, i - 1);
    }
  }

  /**
   * In every run the scaler adds one worker at a time, only below the maximum, and only after its last measurement
   * found at least as many jobs queued as the threshold asks for.
   */
  lemma {:induction false} GrowsOnlyUnderLoad(ss: seq<State>, ls: seq<Label>, i: nat) returns (j: nat, depth: nat)
    requires Run(ss, ls) && i < |ls| && ls[i].ScalerSpawns?
    ensures Measured(ss, ls, j, i, depth) && depth >= ss[i].pool.threshold
    ensures |ss[i].pool.workers| < ss[i].pool.maxWorkers
    ensures ss[i + 1].pool.workers == ss[i].pool.workers + [ls[i].t]
  {
    assert Next(ss[i], ls[i], ss[i + 1]);
    depth := ss[i].pool.scaler.depth;
    RunMeasures(ss, ls);
    j := DepthWasMeasured(ss, ls, i);
  }

  /** The workers the scaler added since the last start. */
  function AddedSince(ls: seq<Label>, i: nat): nat
    requires i <= |ls|
  {
    if i == 0 || ls[i - 1].PoolStart? then 0
    else AddedSince(ls, i - 1) + if ls[i - 1].ScalerSpawns? then 1 else 0
  }

  ghost predicate StartedSmall(s: State, added: nat) {
    !s.pool.control.Off? ==> |s.pool.workers| <= s.pool.minWorkers + added
  }

  lemma {:induction false} StepStartsSmall(s: State, l: Label, s': State, added: nat)
    requires PoolInv(s) && Next(s, l, s') && StartedSmall(s, added)
    ensures StartedSmall(s', if l.PoolStart? then 0 else added + if l.ScalerSpawns? then 1 else 0)
  {
    StepCounts(s, l, s');
    StepKeepsSettings(s, l, s');
    if l.SpawnWorker? {
      SpawnsBelowMinimum(s, l, s');
    }
  }

  lemma {:induction false} SpawnsBelowMinimum(s: State, l: Label, s': State)
    requires Next(s, l, s') && l.SpawnWorker?
    ensures |s.pool.workers| < s.pool.minWorkers
  {
    PoolOrOutside(s, l, s');
  }

  lemma {:induction false} StartsSmallAt(ss: seq<State>, ls: seq<Label>, i: nat, added: nat)
    requires Run(ss, ls) && i < |ls|
    ensures StartedSmall(ss[i], added) ==>
              StartedSmall(ss[i + 1], if ls[i].PoolStart? then 0 else added + if ls[i].ScalerSpawns? then 1 else 0)
  {
    RunKeeps(ss, ls, i);
    if StartedSmall(ss[i], added) {
      StepStartsSmall(ss[i], ls[i], ss[i + 1], added);
    }
  }

  /** A start creates at most the minimum; every worker beyond it was added by the scaler. */
  lemma {:induction false} StartCreatesMinimum(ss: seq<State>, ls: seq<Label>, i: nat)
    requires Run(ss, ls) && i < |ss|
    ensures StartedSmall(ss[i], AddedSince(ls, i))
    decreases i
  {
    if i > 0 {
      StartCreatesMinimum(ss, ls, i - 1);
      StartsSmallAt(ss, ls, i - 1, AddedSince(ls, i - 1));
    }
  }

  // ---------------------------------------------------------------- and it can grow

  /** Some continuation by ordinary steps puts `t` behind the present workers. */
  ghost predicate CanAdd(s: State, t: Tid) {
    exists n: nat, s' :: Leads(s, s', n) && Added(s, t, s')
  }

  ghost predicate Added(s: State, t: Tid, s': State) {
    s'.pool.workers == s.pool.workers + [t] && s'.prog == s.prog[t := AtLoop] && s'.cache == s.cache
  }

  /** Enough jobs are queued, there is room for a worker, and the pool is up. */
  ghost predicate Loaded(s: State, t: Tid) {
    && Reachable(s) && s.pool.control.Up? && FreshThread(s, t)
    && |s.cache.queue| >= s.pool.threshold && |s.pool.workers| < s.pool.maxWorkers
  }

  /** The scaler ends only once the pool no longer runs. */
  ghost predicate EndsStopped(s: State) {
    s.pool.scaler.ScalerEnded? ==> !s.pool.running
  }

  lemma {:induction false} StepEndsStopped(s: State, l: Label, s': State)
    requires ControlConsistent(s) && EndsStopped(s) && Next(s, l, s')
    ensures EndsStopped(s')
  {
    PoolOrOutside(s, l, s');
  }

  lemma {:induction false} EndsStoppedAt(ss: seq<State>, ls: seq<Label>, i: nat)
    requires Run(ss, ls) && i < |ls|
    ensures EndsStopped(ss[i]) ==> EndsStopped(ss[i + 1])
  {
    RunKeeps(ss, ls, i);
    if EndsStopped(ss[i]) {
      StepEndsStopped(ss[i], ls[i], ss[i + 1]);
    }
  }

  lemma {:induction false} RunEndsStopped(ss: seq<State>, ls: seq<Label>, i: nat)
    requires Run(ss, ls) && i < |ss|
    ensures EndsStopped(ss[i])
    decreases i
  {
    if i > 0 {
      RunEndsStopped(ss, ls, i - 1);
      EndsStoppedAt(ss, ls, i - 1);
    }
  }

  lemma {:induction false} ScalerIsThere(s: State)
    requires Reachable(s) && s.pool.control.Up?
    ensures s.pool.running && !s.pool.scaler.NoScaler? && !s.pool.scaler.ScalerEnded?
  {
    Known(s);
    var ss, ls :| Run(ss, ls) && ss[|ss| - 1] == s;
    RunEndsStopped(ss, ls, |ss| - 1);
  }

  function ToDecision(r: Scaler): nat {
    match r
    case Deciding(_) => 4
    case ScalerTest => 3
    case Napping => 2
    case Measuring => 1
    case _ => 0
  }

  lemma {:induction false} Decides(s: State, t: Tid)
    requires Loaded(s, t) && s.pool.scaler == Deciding(|s.cache.queue|)
    ensures CanAdd(s, t)
  {
    var s' := Spawned(s, t).(pool := Spawned(s, t).pool.(scaler := ScalerTest));
    assert PoolStep(s, ScalerSpawns(t), s');
    PoolStepOn(s, ScalerSpawns(t), s');
    assert Leads(s', s', 0);
    assert Leads(s, s', 1);
  }

  lemma {:induction false} AddsBack(s: State, m: State, t: Tid)
    requires CanStep(s, m) && CanAdd(m, t)
    requires m.pool.workers == s.pool.workers && m.prog == s.prog && m.cache == s.cache
    ensures CanAdd(s, t)
  {
    var n: nat, z :| Leads(m, z, n) && Added(m, t, z);
    assert Leads(s, z, n + 1) && Added(s, t, z);
  }

  lemma {:induction false} ScalerSteps(s: State, t: Tid, next: Scaler) returns (s': State)
    requires Loaded(s, t)
    requires PoolStep(s, ScalerMoves, s.(pool := s.pool.(scaler := next)))
    ensures s' == s.(pool := s.pool.(scaler := next)) && Loaded(s', t)
    ensures CanAdd(s', t) ==> CanAdd(s, t)
  {
    s' := s.(pool := s.pool.(scaler := next));
    PoolStepOn(s, ScalerMoves, s');
    if CanAdd(s', t) {
      AddsBack(s, s', t);
    }
  }

  /**
   * In every reachable state of a pool that is up, with at least `threshold` jobs queued and room below the
   * maximum, the pool can grow by a worker, wherever its scaler is.
   */
  lemma {:induction false} CanGrow(s: State, t: Tid)
    requires Loaded(s, t)
    ensures CanAdd(s, t)
    decreases ToDecision(s.pool.scaler)
  {
    ScalerIsThere(s);
    var r := s.pool.scaler;
    if r == Deciding(|s.cache.queue|) {
      Decides(s, t);
    } else {
      var next := match r
        case ScalerTest => Napping
        case Napping => Measuring
        case Measuring => Deciding(|s.cache.queue|)
        case _ => ScalerTest;
      var s' := ScalerSteps(s, t, next);
      if r.Measuring? {
        Decides(s', t);
      } else {
        CanGrow(s', t);
      }
    }
  }
}
