/**
 * Progress of the job service: from every reachable state with a worker, a waiting thread can still be answered,
 * and by ordinary steps: no spurious wakeup is needed, and every signal may have been swallowed.
 */
module JobProgress {
  import opened Basics
  import opened CText
  import opened Jobs
  import opened JobService
  import opened JobServiceInv
  import opened JobServiceRuns
  import opened JobPool
  import Cache = JobProtocol

  // ---------------------------------------------------------------- reaching an answer

  /** Neither a spurious wakeup nor a swallowed signal. */
  predicate Ordinary(l: Label) {
    !(l.InCache? && l.l.Spurious?) && !l.SpuriousReply? && !l.Swallow?
  }

  ghost predicate CanStep(s: State, s': State) {
    exists l :: Ordinary(l) && Next(s, l, s')
  }

  ghost predicate Leads(s: State, s': State, n: nat)
    decreases n
  {
    if n == 0 then s == s' else exists m :: CanStep(s, m) && Leads(m, s', n - 1)
  }

  ghost predicate IsAnswered(s: State, t: Tid, k: nat) {
    t in s.prog && s.prog[t].Answered? && s.prog[t].k == k
  }

  /** Some continuation from `s` ends with `t` holding the answer to ticket `k`. */
  ghost predicate CanAnswer(s: State, t: Tid, k: nat) {
    exists n: nat, s' :: Leads(s, s', n) && IsAnswered(s', t, k)
  }

  lemma {:induction false} StepBack(s: State, m: State, t: Tid, k: nat)
    requires CanStep(s, m) && CanAnswer(m, t, k)
    ensures CanAnswer(s, t, k)
  {
    var n: nat, s' :| Leads(m, s', n) && IsAnswered(s', t, k);
    assert Leads(s, s', n + 1);
  }

  lemma {:induction false} AlreadyThere(s: State, t: Tid, k: nat)
    requires IsAnswered(s, t, k)
    ensures CanAnswer(s, t, k)
  {
    assert Leads(s, s, 0);
  }

  // ---------------------------------------------------------------- steps that keep the pool running

  ghost predicate Reachable(s: State) {
    exists ss, ls :: Run(ss, ls) && ss[|ss| - 1] == s
  }

  lemma {:induction false} ReachesNext(s: State, l: Label, s': State)
    requires Reachable(s) && Next(s, l, s')
    ensures Reachable(s')
  {
    var ss, ls :| Run(ss, ls) && ss[|ss| - 1] == s;
    var ss', ls' := ss + [s'], ls + [l];
    forall i | 0 <= i < |ls'|
      ensures Next(ss'[i], ls'[i], ss'[i + 1])
    {
      if i < |ls| {
        assert Next(ss[i], ls[i], ss[i + 1]);
      }
    }
    assert Run(ss', ls') && ss'[|ss'| - 1] == s';
  }

  lemma {:induction false} Known(s: State)
    requires Reachable(s)
    ensures ServiceInv(s) && PoolInv(s) && ListedAlive(s)
  {
    var ss, ls :| Run(ss, ls) && ss[|ss| - 1] == s;
    RunKeeps(ss, ls, |ss| - 1);
    RunListsAlive(ss, ls, |ss| - 1);
  }

  /** Whoever waits in jobcache_pop has a deadline. */
  ghost predicate Deadlines(c: Cache.State) {
    forall t <- c.threads :: HasDeadline(c.threads[t])
  }

  predicate HasDeadline(p: Cache.Place) {
    p.Popping? || p.PopAsleep? || p.PopWoken? ==> p.mode == Cache.Timed
  }

  lemma {:induction false} CacheKeepsDeadlines(c: Cache.State, l: Cache.Label, c': Cache.State)
    requires Deadlines(c) && Cache.Next(c, l, c') && (l.CallPop? ==> l.mode == Cache.Timed)
    ensures Deadlines(c')
  {
    if l.RunPush? && |c.queue| < c.capacity {
      Cache.PushMoves(c, l.t, l.woken, c');
    } else if l.RunPop? && c.queue != [] {
      Cache.PopMoves(c, l.t, l.woken, c');
    }
  }

  lemma {:induction false} CallsKeepDeadlines(s: State, l: Label, s': State)
    requires Deadlines(s.cache) && (ClientStep(s, l, s') || WorkerStep(s, l, s'))
    ensures Deadlines(s'.cache)
  {
    match l {
      case Submit(t, job) => CacheKeepsDeadlines(s.cache, Cache.CallPush(t, job), s'.cache);
      case Request(t, job) => CacheKeepsDeadlines(s.cache, Cache.CallPush(t, job), s'.cache);
      case PushReturned(t) => CacheKeepsDeadlines(s.cache, Cache.Return(t), s'.cache);
      case Fetched(t) => CacheKeepsDeadlines(s.cache, Cache.Return(t), s'.cache);
      case FetchFailed(t) => CacheKeepsDeadlines(s.cache, Cache.Return(t), s'.cache);
      case LoopTest(t) =>
        if s.pool.running {
          CacheKeepsDeadlines(s.cache, Cache.CallPop(t, Cache.Timed), s'.cache);
        }
      case _ =>
    }
  }

  lemma {:induction false} StepKeepsDeadlines(s: State, l: Label, s': State)
    requires Deadlines(s.cache) && Next(s, l, s')
    ensures Deadlines(s'.cache)
  {
    if PoolStep(s, l, s') {
      assert s'.cache == s.cache;
    } else if CacheStep(s, l, s') {
      if l.InCache? {
        CacheKeepsDeadlines(s.cache, l.l, s'.cache);
      }
    } else {
      CallsKeepDeadlines(s, l, s');
    }
  }

  lemma {:induction false} RunKeepsDeadlines(ss: seq<State>, ls: seq<Label>, i: nat)
    requires Run(ss, ls) && i < |ss|
    ensures Deadlines(ss[i].cache)
    decreases i
  {
    if i > 0 {
      RunKeepsDeadlines(ss, ls, i - 1);
      StepKeepsDeadlines(ss[i - 1], ls[i - 1], ss[i]);
    }
  }

  lemma {:induction false} SleepsWithDeadline(s: State, u: Tid)
    requires Reachable(s) && u in s.cache.threads && s.cache.threads[u].PopAsleep?
    ensures s.cache.threads[u] == Cache.PopAsleep(Cache.Timed)
  {
    var ss, ls :| Run(ss, ls) && ss[|ss| - 1] == s;
    RunKeepsDeadlines(ss, ls, |ss| - 1);
    assert HasDeadline(s.cache.threads[u]);
  }

  /** A reachable state of a running pool with a worker. */
  ghost predicate Ready(s: State) {
    Reachable(s) && s.pool.running && s.pool.workers != []
  }

  ghost predicate ServiceStep(s: State, l: Label, s': State) {
    CacheStep(s, l, s') || ClientStep(s, l, s') || WorkerStep(s, l, s')
  }

  lemma {:induction false} PoolStays(s: State, l: Label, s': State)
    requires ServiceStep(s, l, s')
    ensures s'.pool == s.pool
  {
    if ClientStep(s, l, s') {
      ClientLeavesPool(s, l, s');
    } else if WorkerStep(s, l, s') {
      WorkerLeavesPool(s, l, s');
    }
  }

  /** One step of the service; thread `u` apart, nobody's expectation changes. */
  ghost predicate Onward(s: State, u: Tid, s': State) {
    Reachable(s') && s'.pool == s.pool && CanStep(s, s') && forall t :: t != u ==> Expects(s', t) == Expects(s, t)
  }

  lemma {:induction false} StaysReady(s: State, l: Label, s': State)
    requires Reachable(s) && ServiceStep(s, l, s') && Ordinary(l)
    ensures CanStep(s, s') && Reachable(s') && s'.pool == s.pool
  {
    PoolStays(s, l, s');
    assert Next(s, l, s');
    ReachesNext(s, l, s');
  }

  // ---------------------------------------------------------------- the waiter, once its ticket is done

  lemma {:induction false} Reads(s: State, t: Tid, k: nat)
    requires Ready(s) && k in s.replied && t in s.prog && (s.prog[t].Awaiting? || s.prog[t].ReplyWoken?) &&
             s.prog[t].k == k
    ensures CanAnswer(s, t, k)
  {
    Known(s);
    assert Owner(s.prog[t]) && Expects(s, t) == Some(k) && BoxMatches(s, t);
    var p := s.prog[t];
    var s' := s.(prog := s.prog[t := Answered(p.req, p.k, s.boxes[p.req.ctx.value].buffer)]);
    assert ClientStep(s, WaitReply(t), s');
    assert Next(s, WaitReply(t), s');
    AlreadyThere(s', t, k);
    StepBack(s, s', t, k);
  }

  lemma {:induction false} ReturnsFromPush(s: State, t: Tid, k: nat) returns (s': State)
    requires Ready(s) && Expects(s, t) == Some(k) && s.prog[t].Requesting?
    ensures CanStep(s, s') && Ready(s') && t in s'.prog && s'.prog[t] == Awaiting(s.prog[t].req, k)
    ensures s'.replied == s.replied
  {
    var c' := s.cache.(threads := s.cache.threads - {t});
    s' := s.(cache := c', prog := s.prog[t := Awaiting(s.prog[t].req, k)]);
    assert Cache.Next(s.cache, Cache.Return(t), c');
    assert ClientStep(s, PushReturned(t), s');
    StaysReady(s, PushReturned(t), s');
  }

  lemma {:induction false} SleepersAreUnanswered(s: State, t: Tid, k: nat)
    requires Reachable(s) && Expects(s, t) == Some(k) && k in s.replied
    ensures !s.prog[t].ReplyAsleep?
  {
    Known(s);
    assert Owner(s.prog[t]) && BoxMatches(s, t);
  }

  /** A waiter whose ticket has been answered gets its answer. */
  lemma {:induction false} WaiterReads(s: State, t: Tid, k: nat)
    requires Ready(s) && Expects(s, t) == Some(k) && k in s.replied
    ensures CanAnswer(s, t, k)
  {
    SleepersAreUnanswered(s, t, k);
    if s.prog[t].Requesting? {
      var s' := ReturnsFromPush(s, t, k);
      Reads(s', t, k);
      StepBack(s, s', t, k);
    } else {
      Reads(s, t, k);
    }
  }

  // ---------------------------------------------------------------- a worker with a ticket

  function SomeOutcome(job: Job): (r: Outcome)
    ensures DispatchAllows(job, r)
  {
    match job.kind
    case AgentChat => Outcome("", 0)
    case CronRun => if job.payloadLen > 0 then Outcome("exit=" + Decimal(0), 0) else Outcome("", 0)
    case Webhook => Outcome("ok", 0)
    case Ping => Outcome("pong", 0)
    case OtherKind => Outcome("unknown job type", -1)
  }

  lemma {:induction false} TakesTicket(s: State, u: Tid, j: nat) returns (s': State)
    requires Reachable(s) && u in s.prog && s.prog[u].Fetching? && Held(s, u) == Some(j)
    ensures Onward(s, u, s') && u in s'.prog && s'.prog[u] == Working(j)
    ensures s'.cache.popped == s.cache.popped && s'.replied == s.replied
  {
    var c' := s.cache.(threads := s.cache.threads - {u});
    s' := s.(cache := c', prog := s.prog[u := Working(j)]);
    assert Cache.Next(s.cache, Cache.Return(u), c');
    assert WorkerStep(s, Fetched(u), s');
    StaysReady(s, Fetched(u), s');
  }

  lemma {:induction false} HeldIsPushed(s: State, u: Tid, j: nat)
    requires Reachable(s) && Held(s, u) == Some(j)
    ensures j < |s.cache.popped| && j < |s.cache.pushed| && u in s.prog && IsWorker(s.prog[u])
  {
    Known(s);
  }

  lemma {:induction false} Dispatches(s: State, u: Tid, j: nat) returns (s': State)
    requires Reachable(s) && u in s.prog && s.prog[u] == Working(j)
    ensures Onward(s, u, s') && u in s'.prog && s'.prog[u].Replying? && s'.prog[u].k == j
    ensures s'.cache == s.cache && s'.replied == s.replied
  {
    HeldIsPushed(s, u, j);
    var res := SomeOutcome(s.cache.pushed[j]);
    s' := s.(prog := s.prog[u := Replying(j, res)], results := s.results[j := res], dispatcher := s.dispatcher[j := u]);
    assert WorkerStep(s, Dispatch(u, res), s');
    StaysReady(s, Dispatch(u, res), s');
  }

  lemma {:induction false} CallbackStep(s: State, u: Tid, j: nat) returns (woken: set<Tid>, s': State)
    requires u in s.prog && s.prog[u].Replying? && s.prog[u].k == j && j < |s.cache.pushed|
    ensures StepCallback(s, u, woken, s') && s'.cache == s.cache && s'.replied == s.replied + {j}
  {
    var res := s.prog[u].res;
    match s.cache.pushed[j].ctx {
      case None =>
        woken := {};
        s' := s.(replied := s.replied + {j}, prog := s.prog[u := AtLoop]);
      case Some(c) =>
        woken := ReplySleepers(s, c);
        s' := s.(replied := s.replied + {j},
                 boxes := s.boxes[c := Box(true, ReplyText(res))],
                 fault := s.fault || c !in s.boxes,
                 prog := WakeReplies(s.prog, woken)[u := AtLoop]);
    }
  }

  lemma {:induction false} CallsBack(s: State, u: Tid, j: nat) returns (s': State)
    requires Reachable(s) && u in s.prog && s.prog[u].Replying? && s.prog[u].k == j
    ensures Onward(s, u, s') && u in s'.prog && s'.prog[u] == AtLoop
    ensures s'.cache == s.cache && s'.replied == s.replied + {j}
  {
    HeldIsPushed(s, u, j);
    var woken;
    woken, s' := CallbackStep(s, u, j);
    assert WorkerStep(s, Callback(u, woken), s');
    StaysReady(s, Callback(u, woken), s');
    CallbackWakes(s, u, woken, s');
    WokeFrame(s, u, if s.cache.pushed[j].ctx == None then {} else woken, s');
  }

  /** Steps left until a worker has answered the ticket it holds. */
  ghost function ToReply(s: State, u: Tid): nat {
    if u !in s.prog then 0
    else if s.prog[u].Fetching? then 3 else if s.prog[u].Working? then 2 else 1
  }

  lemma {:induction false} WaiterIsNoWorker(s: State, t: Tid, u: Tid)
    requires Expects(s, t).Some? && u in s.prog && IsWorker(s.prog[u])
    ensures t != u
  {
  }

  /** A waiter whose ticket a worker holds can be answered: the worker goes on. */
  lemma {:induction false} HolderAnswers(s: State, t: Tid, k: nat, u: Tid)
    requires Ready(s) && Expects(s, t) == Some(k) && Held(s, u) == Some(k)
    ensures CanAnswer(s, t, k)
    decreases ToReply(s, u)
  {
    HeldIsPushed(s, u, k);
    WaiterIsNoWorker(s, t, u);
    if s.prog[u].Fetching? {
      var s' := TakesTicket(s, u, k);
      HolderAnswers(s', t, k, u);
      StepBack(s, s', t, k);
    } else if s.prog[u].Working? {
      var s' := Dispatches(s, u, k);
      HolderAnswers(s', t, k, u);
      StepBack(s, s', t, k);
    } else {
      var s' := CallsBack(s, u, k);
      WaiterReads(s', t, k);
      StepBack(s, s', t, k);
    }
  }

  // ---------------------------------------------------------------- a worker without one

  lemma {:induction false} OutsideAtLoop(s: State, u: Tid)
    requires Reachable(s) && u in s.prog && s.prog[u].AtLoop?
    ensures u !in s.cache.threads
  {
    Known(s);
  }

  lemma {:induction false} EntersPop(s: State, u: Tid) returns (s': State)
    requires Ready(s) && u in s.prog && s.prog[u].AtLoop?
    ensures Onward(s, u, s') && s'.cache.popped == s.cache.popped
    ensures u in s'.prog && s'.prog[u].Fetching? && u in s'.cache.threads && s'.cache.threads[u].Popping?
  {
    OutsideAtLoop(s, u);
    var c' := Cache.SetPlace(s.cache, u, Cache.Popping(Cache.Timed));
    s' := s.(cache := c', prog := s.prog[u := Fetching]);
    assert Cache.Next(s.cache, Cache.CallPop(u, Cache.Timed), c');
    assert WorkerStep(s, LoopTest(u), s');
    StaysReady(s, LoopTest(u), s');
  }

  lemma {:induction false} LeavesPop(s: State, u: Tid) returns (s': State)
    requires Ready(s) && u in s.prog && s.prog[u].Fetching? && u in s.cache.threads && s.cache.threads[u].PopEmpty?
    ensures Onward(s, u, s') && s'.cache.popped == s.cache.popped && u in s'.prog && s'.prog[u].AtLoop?
  {
    var c' := s.cache.(threads := s.cache.threads - {u});
    s' := s.(cache := c', prog := s.prog[u := AtLoop]);
    assert Cache.Next(s.cache, Cache.Return(u), c');
    assert WorkerStep(s, FetchFailed(u), s');
    StaysReady(s, FetchFailed(u), s');
  }

  /** A step of worker `u` inside the cache. */
  lemma {:induction false} CacheOnward(s: State, u: Tid, l: Cache.Label, c': Cache.State) returns (s': State)
    requires Reachable(s) && u in s.prog && s.prog[u].Fetching? && Cache.Next(s.cache, l, c') && Internal(l) && l.t == u
    requires !l.Spurious?
    ensures Onward(s, u, s') && s'.cache == c' && s'.prog == s.prog
  {
    Known(s);
    s' := s.(cache := c');
    assert CacheStep(s, InCache(l), s');
    StaysReady(s, InCache(l), s');
    CacheStepShapes(s.cache, l, c');
    CacheMovesExpects(s, u, s');
  }

  /** A sleeping worker's deadline passes. */
  lemma {:induction false} TimesOut(s: State, u: Tid) returns (s': State)
    requires Reachable(s) && u in s.prog && s.prog[u].Fetching? && u in s.cache.threads && s.cache.threads[u].PopAsleep?
    ensures Onward(s, u, s') && s'.cache.popped == s.cache.popped && s'.prog == s.prog
    ensures u in s'.cache.threads && s'.cache.threads[u].PopExpired?
  {
    SleepsWithDeadline(s, u);
    s' := CacheOnward(s, u, Cache.Expire(u), Cache.SetPlace(s.cache, u, Cache.PopExpired));
  }

  lemma {:induction false} GivesUp(s: State, u: Tid) returns (s': State)
    requires Reachable(s) && u in s.prog && s.prog[u].Fetching? && u in s.cache.threads &&
             s.cache.threads[u].PopExpired?
    ensures Onward(s, u, s') && s'.cache.popped == s.cache.popped && s'.prog == s.prog
    ensures u in s'.cache.threads && s'.cache.threads[u].PopEmpty?
  {
    s' := CacheOnward(s, u, Cache.LeaveExpired(u), Cache.SetPlace(s.cache, u, Cache.PopEmpty));
  }

  lemma {:induction false} Pops(s: State, u: Tid) returns (s': State)
    requires Reachable(s) && u in s.prog && s.prog[u].Fetching? && Cache.AtPopMutex(s.cache, u) && s.cache.queue != []
    ensures Onward(s, u, s') && s'.prog == s.prog && |s'.cache.popped| == |s.cache.popped| + 1
    ensures Held(s', u) == Some(|s.cache.popped|)
  {
    var c := s.cache;
    var woken := Cache.PushSleepers(c);
    var c' := c.(queue := c.queue[1..], popped := c.popped + [c.queue[0]],
                 threads := Cache.Wake(c.threads, woken)[u := Cache.PopDone(|c.popped|)]);
    assert Cache.Next(c, Cache.RunPop(u, woken), c');
    s' := CacheOnward(s, u, Cache.RunPop(u, woken), c');
  }

  /** Steps left until worker `u` takes the next job. */
  ghost function ToPop(s: State, u: Tid): nat {
    if u !in s.prog then 0
    else match s.prog[u]
      case AtLoop => 2
      case Working(_) => 4
      case Replying(_, _) => 3
      case Fetching =>
        if u !in s.cache.threads then 0
        else (match s.cache.threads[u]
          case PopAsleep(_) => 5
          case PopEmpty => 3
          case PopExpired => 4
          case PopDone(_) => 5
          case _ => 1)
      case _ => 0
  }

  lemma {:induction false} WorkerIsSomewhere(s: State, u: Tid)
    requires Ready(s) && u in s.pool.workers
    ensures u in s.prog && IsWorker(s.prog[u]) && !s.prog[u].Exited?
    ensures s.prog[u].Fetching? ==> u in s.cache.threads && (Seeking(s.cache.threads[u]) || s.cache.threads[u].PopDone?)
    ensures s.prog[u].Fetching? && s.cache.threads[u].PopDone? ==> Held(s, u) == Some(s.cache.threads[u].ticket)
  {
    Known(s);
    assert Alive(s, u);
    if s.prog[u].Fetching? {
      assert CallMatches(s.cache, s.prog[u], s.cache.threads[u]);
    }
  }

  lemma {:induction false} TicketIsQueued(s: State, t: Tid, k: nat)
    requires Ready(s) && Expects(s, t) == Some(k) && |s.cache.popped| <= k
    ensures s.cache.queue != []
  {
    Known(s);
    assert Owner(s.prog[t]) && BoxMatches(s, t);
  }

  /** One step of worker `u` towards its next job, short of taking it. */
  lemma {:induction false} Approaches(s: State, u: Tid) returns (s': State)
    requires Ready(s) && u in s.pool.workers && ToPop(s, u) > 1
    ensures Onward(s, u, s') && |s'.cache.popped| == |s.cache.popped| && ToPop(s', u) < ToPop(s, u)
  {
    WorkerIsSomewhere(s, u);
    match s.prog[u] {
      case AtLoop => s' := EntersPop(s, u);
      case Working(j) => s' := Dispatches(s, u, j);
      case Replying(j, _) => s' := CallsBack(s, u, j);
      case Fetching =>
        match s.cache.threads[u] {
          case PopAsleep(_) => s' := TimesOut(s, u);
          case PopEmpty => s' := LeavesPop(s, u);
          case PopExpired => s' := GivesUp(s, u);
          case PopDone(j) => s' := TakesTicket(s, u, j);
        }
    }
  }

  /** A waiter whose ticket is still queued can be answered: a worker takes the jobs before it, and then it. */
  lemma {:induction false} QueueIsServed(s: State, t: Tid, k: nat, u: Tid)
    requires Ready(s) && u in s.pool.workers && Expects(s, t) == Some(k) && |s.cache.popped| <= k
    ensures CanAnswer(s, t, k)
    decreases k - |s.cache.popped|, ToPop(s, u)
  {
    WorkerIsSomewhere(s, u);
    WaiterIsNoWorker(s, t, u);
    if ToPop(s, u) > 1 {
      var s' := Approaches(s, u);
      QueueIsServed(s', t, k, u);
      StepBack(s, s', t, k);
    } else {
      TicketIsQueued(s, t, k);
      var s' := Pops(s, u);
      if k == |s.cache.popped| {
        HolderAnswers(s', t, k, u);
      } else {
        QueueIsServed(s', t, k, u);
      }
      StepBack(s, s', t, k);
    }
  }

  lemma {:induction false} TicketIsSomewhere(s: State, t: Tid, k: nat)
    requires Ready(s) && Expects(s, t) == Some(k) && k < |s.cache.popped|
    ensures k in s.replied || exists u :: Held(s, u) == Some(k)
  {
    Known(s);
  }

  /**
   * Progress: in every state of every run in which the pool runs and has a worker, for every thread that waits
   * for a ticket there is a continuation, without spurious wakeups, in which it holds the answer to that ticket.
   * No waiter is ever beyond help, also after signals were swallowed.
   */
  lemma {:induction false} WaiterCanBeAnswered(ss: seq<State>, ls: seq<Label>, i: nat, t: Tid, k: nat)
    requires Run(ss, ls) && i < |ss| && ss[i].pool.running && ss[i].pool.workers != [] && Expects(ss[i], t) == Some(k)
    ensures CanAnswer(ss[i], t, k)
  {
    var s := ss[i];
    assert Run(ss[..i + 1], ls[..i]) && ss[..i + 1][i] == s;
    assert Ready(s);
    if |s.cache.popped| <= k {
      QueueIsServed(s, t, k, s.pool.workers[0]);
    } else {
      TicketIsSomewhere(s, t, k);
      if k in s.replied {
        WaiterReads(s, t, k);
      } else {
        var u :| Held(s, u) == Some(k);
        HolderAnswers(s, t, k, u);
      }
    }
  }
}
