/** Stopping the worker pool: from every reachable state in which a stop waits, it can return
    (src/jobcache/jobworker.c). */
module JobStop {
  import opened Basics
  import opened Jobs
  import opened JobService
  import opened JobServiceInv
  import opened JobServiceRuns
  import opened JobProgress
  import Cache = JobProtocol

  /** Some continuation by ordinary steps ends with the stop returned and every worker joined. */
  ghost predicate CanStop(s: State) {
    exists n: nat, s' :: Leads(s, s', n) && s'.pool.control == Off
  }

  lemma {:induction false} StopsBack(s: State, m: State)
    requires CanStep(s, m) && CanStop(m)
    ensures CanStop(s)
  {
    var n: nat, s' :| Leads(m, s', n) && s'.pool.control == Off;
    assert Leads(s, s', n + 1);
  }

  /** A stop is under way. */
  ghost predicate Stopping(s: State) {
    Reachable(s) && (s.pool.control.JoiningScaler? || s.pool.control.JoiningWorkers?)
  }

  ghost predicate PoolKnown(s: State) {
    PoolInv(s) && !s.pool.running
  }

  lemma {:induction false} StoppingKnown(s: State)
    requires Stopping(s)
    ensures PoolKnown(s)
  {
    Known(s);
  }

  lemma {:induction false} PoolStepOn(s: State, l: Label, s': State)
    requires Reachable(s) && PoolStep(s, l, s') && Ordinary(l)
    ensures CanStep(s, s') && Reachable(s')
  {
    assert Next(s, l, s');
    ReachesNext(s, l, s');
  }

  // ---------------------------------------------------------------- the scaler

  function ToEnd(r: Scaler): nat {
    match r
    case Measuring => 3
    case Deciding(_) => 2
    case ScalerTest => 1
    case Napping => 1
    case _ => 0
  }

  lemma {:induction false} ScalerEnds(s: State) returns (s': State)
    requires Stopping(s) && s.pool.control.JoiningScaler? && !s.pool.scaler.ScalerEnded?
    ensures CanStep(s, s') && Stopping(s') && s'.pool.control == s.pool.control
    ensures ToEnd(s'.pool.scaler) < ToEnd(s.pool.scaler)
  {
    StoppingKnown(s);
    var p := s.pool;
    var next := match p.scaler
      case Measuring => Deciding(|s.cache.queue|)
      case Deciding(_) => ScalerTest
      case _ => ScalerEnded;
    s' := s.(pool := p.(scaler := next));
    assert PoolStep(s, ScalerMoves, s');
    PoolStepOn(s, ScalerMoves, s');
  }

  lemma {:induction false} ScalerJoined(s: State) returns (s': State)
    requires Stopping(s) && s.pool.control.JoiningScaler? && s.pool.scaler.ScalerEnded?
    ensures CanStep(s, s') && Stopping(s') && s'.pool.control == JoiningWorkers(|s.pool.workers|, 0)
  {
    s' := s.(pool := s.pool.(control := JoiningWorkers(|s.pool.workers|, 0)));
    assert PoolStep(s, JoinScaler, s');
    PoolStepOn(s, JoinScaler, s');
  }

  // ---------------------------------------------------------------- a worker

  /** Steps left until worker `u` has ended, once the pool no longer runs. */
  ghost function ToExit(s: State, u: Tid): nat {
    if u !in s.prog then 0
    else match s.prog[u]
      case AtLoop => 1
      case Replying(_, _) => 2
      case Working(_) => 3
      case Fetching =>
        if u !in s.cache.threads then 0
        else (match s.cache.threads[u]
          case PopEmpty => 1
          case PopExpired => 2
          case PopAsleep(_) => 3
          case PopDone(_) => 4
          case _ => 5)
      case _ => 0
  }

  lemma {:induction false} WorkerIs(s: State, u: Tid)
    requires Reachable(s) && u in s.pool.workers
    ensures u in s.prog && IsWorker(s.prog[u])
    ensures s.prog[u].Fetching? ==> u in s.cache.threads && (Seeking(s.cache.threads[u]) || s.cache.threads[u].PopDone?)
    ensures s.prog[u].Fetching? && s.cache.threads[u].PopDone? ==> Held(s, u) == Some(s.cache.threads[u].ticket)
  {
    Known(s);
    if s.prog[u].Fetching? {
      assert CallMatches(s.cache, s.prog[u], s.cache.threads[u]);
    }
  }

  lemma {:induction false} LeavesLoop(s: State, u: Tid) returns (s': State)
    requires Reachable(s) && !s.pool.running && u in s.prog && s.prog[u].AtLoop?
    ensures CanStep(s, s') && Reachable(s') && s'.pool == s.pool && HasExited(s', u)
  {
    s' := s.(prog := s.prog[u := Exited]);
    assert WorkerStep(s, LoopTest(u), s');
    StaysReady(s, LoopTest(u), s');
  }

  lemma {:induction false} FetchEnds(s: State, u: Tid) returns (s': State)
    requires Reachable(s) && !s.pool.running && u in s.prog && s.prog[u].Fetching?
    requires u in s.cache.threads && s.cache.threads[u].PopEmpty?
    ensures CanStep(s, s') && Reachable(s') && s'.pool == s.pool && HasExited(s', u)
  {
    var c' := s.cache.(threads := s.cache.threads - {u});
    s' := s.(cache := c', prog := s.prog[u := Exited]);
    assert Cache.Next(s.cache, Cache.Return(u), c');
    assert WorkerStep(s, FetchFailed(u), s');
    StaysReady(s, FetchFailed(u), s');
  }

  /** At the mutex: the worker takes a job, or goes to sleep. */
  lemma {:induction false} PopsOrSleeps(s: State, u: Tid) returns (s': State)
    requires Reachable(s) && u in s.prog && s.prog[u].Fetching? && Cache.AtPopMutex(s.cache, u)
    ensures CanStep(s, s') && Reachable(s') && s'.pool == s.pool && ToExit(s', u) < ToExit(s, u)
    ensures u in s'.prog && !s'.prog[u].Exited?
  {
    if s.cache.queue != [] {
      s' := Pops(s, u);
    } else {
      PopHasDeadline(s, u);
      var c' := Cache.SetPlace(s.cache, u, Cache.PopAsleep(Cache.Timed));
      assert Cache.Next(s.cache, Cache.RunPop(u, {}), c');
      s' := CacheOnward(s, u, Cache.RunPop(u, {}), c');
    }
  }

  lemma {:induction false} PopHasDeadline(s: State, u: Tid)
    requires Reachable(s) && Cache.AtPopMutex(s.cache, u)
    ensures s.cache.threads[u].mode == Cache.Timed
  {
    var ss, ls :| Run(ss, ls) && ss[|ss| - 1] == s;
    RunKeepsDeadlines(ss, ls, |ss| - 1);
    assert HasDeadline(s.cache.threads[u]);
  }

  /** One step of a worker towards its end. */
  lemma {:induction false} WorkerEnds(s: State, u: Tid) returns (s': State)
    requires Stopping(s) && u in s.pool.workers && !HasExited(s, u)
    ensures CanStep(s, s') && Stopping(s') && s'.pool == s.pool
    ensures HasExited(s', u) || ToExit(s', u) < ToExit(s, u)
  {
    StoppingKnown(s);
    WorkerIs(s, u);
    match s.prog[u] {
      case AtLoop => s' := LeavesLoop(s, u);
      case Working(j) => s' := Dispatches(s, u, j);
      case Replying(j, _) => s' := CallsBack(s, u, j);
      case Fetching =>
        match s.cache.threads[u] {
          case PopAsleep(_) => s' := TimesOut(s, u);
          case PopEmpty => s' := FetchEnds(s, u);
          case PopExpired => s' := GivesUp(s, u);
          case PopDone(j) => s' := TakesTicket(s, u, j);
          case _ => s' := PopsOrSleeps(s, u);
        }
    }
  }

  // ---------------------------------------------------------------- the stop

  lemma {:induction false} WorkerJoined(s: State) returns (s': State)
    requires Stopping(s) && s.pool.control.JoiningWorkers? && s.pool.control.i < s.pool.control.n == |s.pool.workers|
    requires HasExited(s, s.pool.workers[s.pool.control.i])
    ensures CanStep(s, s') && Stopping(s')
    ensures s'.pool.control == JoiningWorkers(s.pool.control.n, s.pool.control.i + 1)
  {
    s' := s.(pool := s.pool.(control := JoiningWorkers(s.pool.control.n, s.pool.control.i + 1)));
    assert PoolStep(s, JoinWorker, s');
    PoolStepOn(s, JoinWorker, s');
  }

  lemma {:induction false} AllJoined(s: State)
    requires Stopping(s) && s.pool.control.JoiningWorkers? && s.pool.control.i == s.pool.control.n
    ensures CanStop(s)
  {
    var s' := s.(pool := s.pool.(workers := [], scaler := NoScaler, control := Off));
    assert PoolStep(s, StopReturns, s');
    PoolStepOn(s, StopReturns, s');
    assert Leads(s', s', 0);
    StopsBack(s, s');
  }

  ghost function Waiting(s: State): nat {
    if s.pool.control.JoiningWorkers? && s.pool.control.i <= s.pool.control.n then s.pool.control.n - s.pool.control.i
    else 0
  }

  ghost function Turn(s: State): nat {
    if s.pool.control.JoiningScaler? then ToEnd(s.pool.scaler)
    else if s.pool.control.JoiningWorkers? && s.pool.control.i < |s.pool.workers| then
      var u := s.pool.workers[s.pool.control.i];
      if HasExited(s, u) then 0 else 1 + ToExit(s, u)
    else 0
  }

  /**
   * From every reachable state in which jobworker_pool_stop waits there is a continuation, without spurious
   * wakeups, in which it returns: no worker and no scaler can keep it waiting for ever.
   */
  lemma {:induction false} StopCanReturn(s: State)
    requires Stopping(s)
    ensures CanStop(s)
    decreases if s.pool.control.JoiningScaler? then 1 else 0, Waiting(s), Turn(s)
  {
    StoppingKnown(s);
    var s';
    if s.pool.control.JoiningScaler? {
      if s.pool.scaler.ScalerEnded? {
        s' := ScalerJoined(s);
      } else {
        s' := ScalerEnds(s);
      }
      StopCanReturn(s');
      StopsBack(s, s');
    } else if s.pool.control.i == s.pool.control.n {
      AllJoined(s);
    } else {
      var u := s.pool.workers[s.pool.control.i];
      if HasExited(s, u) {
        s' := WorkerJoined(s);
      } else {
        s' := WorkerEnds(s, u);
      }
      StopCanReturn(s');
      StopsBack(s, s');
    }
  }
}
