/** Pool accounting and the end-to-end guarantees of the job service over whole runs. */
module JobServiceRuns {
  import opened Basics
  import opened CText
  import opened Jobs
  import opened JobService
  import opened JobServiceInv
  import Cache = JobProtocol

  // ---------------------------------------------------------------- the pool

  ghost predicate IsWorker(p: Prog) {
    p.AtLoop? || p.Fetching? || p.Working? || p.Replying? || p.Exited?
  }

  ghost predicate HasExited(s: State, t: Tid) {
    t in s.prog && s.prog[t].Exited?
  }

  /** `num_workers` stays in bounds and the thread list names every worker that may still run. */
  ghost predicate WorkersListed(s: State) {
    && 0 < s.pool.minWorkers <= s.pool.maxWorkers
    && |s.pool.workers| <= s.pool.maxWorkers
    && (forall i, j :: 0 <= i < j < |s.pool.workers| ==> s.pool.workers[i] != s.pool.workers[j])
    && (forall t <- s.pool.workers :: t in s.pool.created)
    && (forall t <- s.pool.created :: t in s.pool.workers || HasExited(s, t))
  }

  ghost predicate WorkersKnown(s: State) {
    && (forall t <- s.pool.created :: t in s.prog && IsWorker(s.prog[t]))
    && (forall t <- s.prog :: IsWorker(s.prog[t]) ==> t in s.pool.created)
  }

  ghost predicate ControlConsistent(s: State) {
    var p := s.pool;
    && (p.running <==> p.control.Starting? || p.control.Up?)
    && (p.scaler.NoScaler? <==> p.control.Off? || p.control.Starting? || p.control.StartFailed?)
    && (p.control.Off? ==> p.workers == [])
    && (p.control.JoiningWorkers? ==>
          && p.scaler.ScalerEnded? && p.control.i <= p.control.n == |p.workers|
          && forall j :: 0 <= j < p.control.i ==> HasExited(s, p.workers[j]))
  }

  ghost predicate PoolInv(s: State) {
    WorkersListed(s) && WorkersKnown(s) && ControlConsistent(s)
  }

  /** No service step changes the pool record, revives a worker or turns a client into one. */
  ghost predicate PoolUntouched(s: State, s': State) {
    && s'.pool == s.pool
    && (forall t <- s.prog :: IsWorker(s.prog[t]) ==> t in s'.prog && IsWorker(s'.prog[t]))
    && (forall t <- s'.prog :: IsWorker(s'.prog[t]) ==> t in s.prog && IsWorker(s.prog[t]))
    && (forall t :: HasExited(s, t) ==> HasExited(s', t))
  }

  ghost predicate WorkerAt(s: State, t: Tid) {
    t in s.prog && IsWorker(s.prog[t])
  }

  lemma {:induction false} MoveLeavesPool(s: State, t: Tid, s': State)
    requires OneMoves(s, t, s') && s'.pool == s.pool
    requires WorkerAt(s, t) == WorkerAt(s', t) && !HasExited(s, t)
    ensures PoolUntouched(s, s')
  {
  }

  lemma {:induction false} ClientIsNoWorker(s: State, l: Label, s': State)
    requires ClientStep(s, l, s')
    ensures !WorkerAt(s, l.t) && !WorkerAt(s', l.t) && s'.pool == s.pool
  {
  }

  lemma {:induction false} ClientLeavesPool(s: State, l: Label, s': State)
    requires ClientStep(s, l, s')
    ensures PoolUntouched(s, s')
  {
    ClientMovesAlone(s, l, s');
    ClientIsNoWorker(s, l, s');
    MoveLeavesPool(s, l.t, s');
  }

  lemma {:induction false} WorkerLeavesPool(s: State, l: Label, s': State)
    requires WorkerStep(s, l, s')
    ensures PoolUntouched(s, s')
  {
    if l.Callback? {
      CallbackLeavesPool(s, l.t, l.woken, s');
    } else if !l.Dispatch? {
      WorkerMovesAlone(s, l, s');
      MoveLeavesPool(s, l.t, s');
    }
  }

  lemma {:induction false} CallbackLeavesPool(s: State, t: Tid, woken: set<Tid>, s': State)
    requires StepCallback(s, t, woken, s')
    ensures PoolUntouched(s, s')
  {
    CallbackWakes(s, t, woken, s');
  }

  lemma {:induction false} UntouchedKeepsPool(s: State, s': State)
    requires PoolInv(s) && PoolUntouched(s, s')
    ensures PoolInv(s')
  {
  }

  lemma {:induction false} SpawnKeepsPool(s: State, t: Tid, s': State)
    requires PoolInv(s) && FreshThread(s, t) && |s.pool.workers| < s.pool.maxWorkers
    requires s' == Spawned(s, t).(pool := Spawned(s, t).pool.(scaler := s'.pool.scaler))
    requires s'.pool.scaler == s.pool.scaler || (s.pool.scaler.Deciding? && s'.pool.scaler == ScalerTest)
    requires !s.pool.control.Off? && !s.pool.control.JoiningWorkers?
    ensures PoolInv(s')
  {
    forall u <- s'.pool.workers
      ensures u in s'.pool.created
    {
    }
    forall u <- s'.pool.created
      ensures u in s'.pool.workers || HasExited(s', u)
    {
      if u != t && u in s.pool.workers {
        var i :| 0 <= i < |s.pool.workers| && s.pool.workers[i] == u;
        assert s'.pool.workers[i] == u;
      }
    }
    assert s'.pool.workers[|s.pool.workers|] == t;
  }

  lemma {:induction false} StopReturnsKeepsPool(s: State, s': State)
    requires PoolInv(s) && PoolStep(s, StopReturns, s')
    ensures PoolInv(s')
  {
    forall t <- s.pool.created
      ensures HasExited(s, t)
    {
      if t in s.pool.workers {
        var i :| 0 <= i < |s.pool.workers| && s.pool.workers[i] == t;
      }
    }
  }

  /** The steps that only write the control record. */
  ghost predicate RecordOnly(l: Label) {
    !l.SpawnWorker? && !l.ScalerSpawns? && !l.StopReturns?
  }

  lemma {:induction false} RecordStepShape(s: State, l: Label, s': State)
    requires PoolStep(s, l, s') && RecordOnly(l)
    ensures s' == s.(pool := s.pool.(running := s'.pool.running, scaler := s'.pool.scaler, control := s'.pool.control))
  {
  }

  lemma {:induction false} RecordStepKeepsControl(s: State, l: Label, s': State)
    requires ControlConsistent(s) && PoolStep(s, l, s') && RecordOnly(l) && s'.prog == s.prog
    ensures ControlConsistent(s')
  {
  }

  lemma {:induction false} PoolStepKeepsPool(s: State, l: Label, s': State)
    requires PoolInv(s) && PoolStep(s, l, s')
    ensures PoolInv(s')
  {
    if l.SpawnWorker? || l.ScalerSpawns? {
      SpawnKeepsPool(s, l.t, s');
    } else if l.StopReturns? {
      StopReturnsKeepsPool(s, s');
    } else {
      RecordStepShape(s, l, s');
      RecordStepKeepsControl(s, l, s');
      assert WorkersListed(s') && WorkersKnown(s');
    }
  }

  lemma {:induction false} PoolStepKeeps(s: State, l: Label, s': State)
    requires ServiceInv(s) && PoolStep(s, l, s')
    ensures ServiceInv(s')
  {
    if l.SpawnWorker? || l.ScalerSpawns? {
      SpawnKeeps(s, l.t, s');
    } else {
      if !l.StopReturns? {
        RecordStepShape(s, l, s');
      }
      PoolRecordKeeps(s, s');
    }
  }

  lemma {:induction false} PoolRecordKeeps(s: State, s': State)
    requires ServiceInv(s) && s' == s.(pool := s'.pool)
    ensures ServiceInv(s')
  {
    assert SameHeld(s, s') && SameExpects(s, s');
    TicketsFrame(s, s');
    WaitersFrame(s, s');
    assert forall t :: IsReplying(s', t) == IsReplying(s, t);
    forall u <- s'.prog | Owner(s'.prog[u])
      ensures BoxMatches(s', u)
    {
      assert BoxMatches(s, u);
    }
  }

  // ---------------------------------------------------------------- runs

  lemma {:induction false} StepKeepsPool(s: State, l: Label, s': State)
    requires PoolInv(s) && Next(s, l, s')
    ensures PoolInv(s')
  {
    if PoolStep(s, l, s') {
      PoolStepKeepsPool(s, l, s');
    } else {
      if ClientStep(s, l, s') {
        ClientLeavesPool(s, l, s');
      } else if WorkerStep(s, l, s') {
        WorkerLeavesPool(s, l, s');
      }
      UntouchedKeepsPool(s, s');
    }
  }

  lemma {:induction false} StepKeepsService(s: State, l: Label, s': State)
    requires ServiceInv(s) && Next(s, l, s')
    ensures ServiceInv(s')
  {
    if PoolStep(s, l, s') {
      PoolStepKeeps(s, l, s');
    } else if CacheStep(s, l, s') {
      CacheStepKeeps(s, l, s');
    } else if ClientStep(s, l, s') {
      ClientStepKeeps(s, l, s');
    } else {
      WorkerStepKeeps(s, l, s');
    }
  }

  lemma {:induction false} RunKeeps(ss: seq<State>, ls: seq<Label>, i: nat)
    requires Run(ss, ls) && i < |ss|
    ensures ServiceInv(ss[i]) && PoolInv(ss[i])
    decreases i
  {
    if i == 0 {
      InitInv(ss[0]);
    } else {
      RunKeeps(ss, ls, i - 1);
      StepKeepsService(ss[i - 1], ls[i - 1], ss[i]);
      StepKeepsPool(ss[i - 1], ls[i - 1], ss[i]);
    }
  }

  // ---------------------------------------------------------------- signals

  /** The signals that timeouts swallowed in the first `i` steps. */
  function Swallowed(ls: seq<Label>, i: nat): nat
    requires i <= |ls|
  {
    if i == 0 then 0 else Swallowed(ls, i - 1) + if ls[i - 1].Swallow? then 1 else 0
  }

  /** Outside the cache's own steps, the service enters and leaves it as any caller does. */
  lemma {:induction false} CallsKeepPops(s: State, l: Label, s': State, missed: nat)
    requires Cache.NoLostPop(s.cache, missed) && (ClientStep(s, l, s') || WorkerStep(s, l, s'))
    ensures Cache.NoLostPop(s'.cache, missed)
  {
    match l {
      case Submit(t, job) => Cache.StepKeepsNoLostPop(s.cache, Cache.CallPush(t, job), s'.cache, missed);
      case Request(t, job) => Cache.StepKeepsNoLostPop(s.cache, Cache.CallPush(t, job), s'.cache, missed);
      case PushReturned(t) => Cache.StepKeepsNoLostPop(s.cache, Cache.Return(t), s'.cache, missed);
      case Fetched(t) => Cache.StepKeepsNoLostPop(s.cache, Cache.Return(t), s'.cache, missed);
      case FetchFailed(t) => Cache.StepKeepsNoLostPop(s.cache, Cache.Return(t), s'.cache, missed);
      case LoopTest(t) =>
        if s.pool.running {
          Cache.StepKeepsNoLostPop(s.cache, Cache.CallPop(t, Cache.Timed), s'.cache, missed);
        }
      case _ =>
    }
  }

  lemma {:induction false} StepKeepsPops(s: State, l: Label, s': State, missed: nat)
    requires Next(s, l, s')
    ensures Cache.NoLostPop(s.cache, missed) ==> Cache.NoLostPop(s'.cache, missed + if l.Swallow? then 1 else 0)
  {
    if Cache.NoLostPop(s.cache, missed) {
      NextKeepsPops(s, l, s', missed);
    }
  }

  lemma {:induction false} NextKeepsPops(s: State, l: Label, s': State, missed: nat)
    requires Cache.NoLostPop(s.cache, missed) && Next(s, l, s')
    ensures Cache.NoLostPop(s'.cache, missed + if l.Swallow? then 1 else 0)
  {
    if PoolStep(s, l, s') {
      assert s'.cache == s.cache;
    } else if CacheStep(s, l, s') {
      if l.InCache? {
        Cache.StepKeepsNoLostPop(s.cache, l.l, s'.cache, missed);
      } else {
        Cache.SwallowMissesOne(s.cache, l.t, s'.cache, missed);
      }
    } else {
      CallsKeepPops(s, l, s', missed);
    }
  }

  /** The consumers' side of the cache, but for `missed` signals. */
  ghost predicate Covered(s: State, missed: nat) {
    Cache.NoLostPop(s.cache, missed)
  }

  lemma {:induction false} NoneMissedInitially(s: State)
    requires Init(s)
    ensures Covered(s, 0)
  {
  }

  /** The signals swallowed before each state of a run. */
  function Tally(ls: seq<Label>): (missed: seq<nat>)
    ensures |missed| == |ls| + 1
    ensures forall j :: 0 <= j <= |ls| ==> missed[j] == Swallowed(ls, j)
  {
    seq(|ls| + 1, j requires 0 <= j <= |ls| => Swallowed(ls, j))
  }

  ghost predicate StaysCovered(ss: seq<State>, missed: seq<nat>, j: nat)
    requires j + 1 < |ss| == |missed|
  {
    Covered(ss[j], missed[j]) ==> Covered(ss[j + 1], missed[j + 1])
  }

  lemma {:induction false} CoveredAlong(ss: seq<State>, missed: seq<nat>, i: nat)
    requires i < |ss| == |missed| && Covered(ss[0], missed[0])
    requires forall j :: 0 <= j < |ss| - 1 ==> StaysCovered(ss, missed, j)
    ensures Covered(ss[i], missed[i])
    decreases i
  {
    if i > 0 {
      CoveredAlong(ss, missed, i - 1);
      assert StaysCovered(ss, missed, i - 1);
    }
  }

  lemma {:induction false} OneMoreMissed(ss: seq<State>, ls: seq<Label>, i: nat)
    requires Run(ss, ls) && i < |ls|
    ensures StaysCovered(ss, Tally(ls), i)
  {
    var s, l, s', missed := ss[i], ls[i], ss[i + 1], Swallowed(ls, i);
    assert Next(s, l, s');
    StepKeepsPops(s, l, s', missed);
  }

  lemma {:induction false} PopsMissed(ss: seq<State>, ls: seq<Label>, i: nat)
    requires Run(ss, ls) && i < |ss|
    ensures Covered(ss[i], Swallowed(ls, i))
  {
    NoneMissedInitially(ss[0]);
    assert Tally(ls)[0] == 0;
    forall j | 0 <= j < |ls|
      ensures StaysCovered(ss, Tally(ls), j)
    {
      OneMoreMissed(ss, ls, j);
    }
    CoveredAlong(ss, Tally(ls), i);
  }

  /**
   * Every worker pops with a deadline, so a timeout can swallow a signal. Over every run the consumers' side of
   * the signals is off by at most the number of times that happened, and the producers' side is exact.
   */
  lemma {:induction false} MissedSignals(ss: seq<State>, ls: seq<Label>, i: nat)
    requires Run(ss, ls) && i < |ss|
    ensures Cache.LooseInv(ss[i].cache, Swallowed(ls, i))
  {
    RunKeeps(ss, ls, i);
    PopsMissed(ss, ls, i);
  }

  // ---------------------------------------------------------------- answered at most once, with the own result

  /** What the callback writes: the text, cut to the buffer, or for an error without text its number. */
  lemma {:induction false} ReplyKeepsText(r: Outcome)
    ensures r.text != "" && |r.text| < RESULT_SIZE ==> ReplyText(r) == r.text
    ensures |r.text| >= RESULT_SIZE ==> ReplyText(r) <= r.text && |ReplyText(r)| == RESULT_SIZE - 1
    ensures r.text == "" && r.error == 0 ==> ReplyText(r) == ""
    ensures r.text == "" && r.error != 0 ==>
              && |ReplyText(r)| > 6 && ReplyText(r)[..6] == "error=" && Atoi(ReplyText(r)[6..]) == r.error
  {
    AtoiDecimal(r.error);
    assert ("error=" + Decimal(r.error))[6..] == Decimal(r.error);
  }

  /** No dispatch fails without a text, so the number of an error never replaces it. */
  lemma {:induction false} FailureHasText(job: Job, r: Outcome)
    requires DispatchAllows(job, r)
    ensures r.error != 0 ==> r.text != ""
  {
  }

  /**
   * A gateway thread that has left its wait loop holds the answer to the job it pushed itself:
   * the callback of exactly that ticket has run, and the text is the one dispatch produced for that job.
   */
  lemma {:induction false} AnswerIsOwn(ss: seq<State>, ls: seq<Label>, i: nat, t: Tid)
    requires Run(ss, ls) && i < |ss| && t in ss[i].prog && ss[i].prog[t].Answered?
    ensures var s, p := ss[i], ss[i].prog[t];
            && TicketOf(s, p.k, p.req)
            && p.k in s.replied && p.k in s.results && p.k in s.dispatcher
            && DispatchAllows(Stored(p.req), s.results[p.k])
            && p.text == s.results[p.k].text
  {
    RunKeeps(ss, ls, i);
    assert BoxMatches(ss[i], t);
    var s, p := ss[i], ss[i].prog[t];
    FailureHasText(Stored(p.req), s.results[p.k]);
    ReplyKeepsText(s.results[p.k]);
  }

  /** What that text is for the kinds that do not call the agent. */
  lemma {:induction false} AnswerByKind(ss: seq<State>, ls: seq<Label>, i: nat, t: Tid)
    requires Run(ss, ls) && i < |ss| && t in ss[i].prog && ss[i].prog[t].Answered?
    ensures var p := ss[i].prog[t];
            && (p.req.kind == Ping ==> p.text == "pong")
            && (p.req.kind == Webhook ==> p.text == "ok")
            && (p.req.kind == OtherKind ==> p.text == "unknown job type")
            && (p.req.kind == CronRun && p.req.payloadLen == 0 ==> p.text == "")
            && (p.req.kind == CronRun && p.req.payloadLen > 0 ==> exists code :: p.text == "exit=" + Decimal(code))
  {
    AnswerIsOwn(ss, ls, i, t);
  }

  lemma {:induction false} SleeperIsServed(s: State, t: Tid)
    requires ServiceInv(s) && t in s.prog && s.prog[t].ReplyAsleep?
    ensures var k := s.prog[t].k;
            && k !in s.replied
            && (Queued(s, k) || exists w :: Held(s, w) == Some(k))
  {
    assert BoxMatches(s, t);
  }

  /** The job of ticket `k` is in the queue, at its place. */
  ghost predicate Queued(s: State, k: nat) {
    && |s.cache.popped| <= k < |s.cache.pushed| && k - |s.cache.popped| < |s.cache.queue|
    && s.cache.queue[k - |s.cache.popped|] == s.cache.pushed[k]
  }

  /** A waiting gateway thread is never forgotten: its job is queued or a worker holds it. */
  lemma {:induction false} SleepingWaiterIsServed(ss: seq<State>, ls: seq<Label>, i: nat, t: Tid)
    requires Run(ss, ls) && i < |ss| && t in ss[i].prog && ss[i].prog[t].ReplyAsleep?
    ensures var s, k := ss[i], ss[i].prog[t].k;
            && k !in s.replied
            && (Queued(s, k) || exists w :: Held(s, w) == Some(k))
  {
    RunKeeps(ss, ls, i);
    SleeperIsServed(ss[i], t);
  }

  /** No callback ever writes through a context whose owner is gone. */
  lemma {:induction false} CallbacksFindLiveContexts(ss: seq<State>, ls: seq<Label>, i: nat)
    requires Run(ss, ls) && i < |ss|
    ensures !ss[i].fault
  {
    RunKeeps(ss, ls, i);
  }

  ghost predicate Grown(s: State, s': State) {
    s.results.Keys <= s'.results.Keys && s.replied <= s'.replied
  }

  lemma {:induction false} WorkerResultsGrow(s: State, l: Label, s': State)
    requires WorkerStep(s, l, s')
    ensures Grown(s, s')
  {
    if !l.Dispatch? && !l.Callback? {
      WorkerMovesAlone(s, l, s');
    }
  }

  lemma {:induction false} PoolResultsStay(s: State, l: Label, s': State)
    requires PoolStep(s, l, s')
    ensures Grown(s, s')
  {
    if RecordOnly(l) {
      RecordStepShape(s, l, s');
    }
  }

  lemma {:induction false} ResultsGrow(s: State, l: Label, s': State)
    requires Next(s, l, s')
    ensures Grown(s, s')
  {
    if PoolStep(s, l, s') {
      PoolResultsStay(s, l, s');
    } else if ClientStep(s, l, s') {
      ClientMovesAlone(s, l, s');
    } else if WorkerStep(s, l, s') {
      WorkerResultsGrow(s, l, s');
    }
  }

  lemma {:induction false} ResultsStay(ss: seq<State>, ls: seq<Label>, i: nat, j: nat)
    requires Run(ss, ls) && i <= j < |ss|
    ensures ss[i].results.Keys <= ss[j].results.Keys && ss[i].replied <= ss[j].replied
    decreases j
  {
    if i < j {
      ResultsStay(ss, ls, i, j - 1);
      ResultsGrow(ss[j - 1], ls[j - 1], ss[j]);
    }
  }

  lemma {:induction false} DispatchIsFirst(s: State, l: Label, s': State)
    requires TicketsAccounted(s) && ResultsAccounted(s) && l.Dispatch? && WorkerStep(s, l, s')
    ensures s.prog[l.t].k !in s.results && s.prog[l.t].k in s'.results
  {
    assert Held(s, l.t) == Some(s.prog[l.t].k);
  }

  lemma {:induction false} CallbackIsFirst(s: State, l: Label, s': State)
    requires TicketsAccounted(s) && l.Callback? && WorkerStep(s, l, s')
    ensures s.prog[l.t].k !in s.replied && s.prog[l.t].k in s'.replied
  {
    assert Held(s, l.t) == Some(s.prog[l.t].k);
  }

  /** The ticket a dispatch or callback step works on; it is done with afterwards. */
  lemma {:induction false} WorksOn(ss: seq<State>, ls: seq<Label>, i: nat) returns (k: nat)
    requires Run(ss, ls) && i < |ls| && (ls[i].Dispatch? || ls[i].Callback?)
    ensures ls[i].t in ss[i].prog
    ensures if ls[i].Dispatch? then ss[i].prog[ls[i].t].Working? else ss[i].prog[ls[i].t].Replying?
    ensures k == ss[i].prog[ls[i].t].k
    ensures ls[i].Dispatch? ==> k !in ss[i].results && k in ss[i + 1].results
    ensures ls[i].Callback? ==> k !in ss[i].replied && k in ss[i + 1].replied
  {
    RunKeeps(ss, ls, i);
    assert Next(ss[i], ls[i], ss[i + 1]);
    k := ss[i].prog[ls[i].t].k;
    if ls[i].Dispatch? {
      DispatchIsFirst(ss[i], ls[i], ss[i + 1]);
    } else {
      CallbackIsFirst(ss[i], ls[i], ss[i + 1]);
    }
  }

  /** No ticket is dispatched twice in a run. */
  lemma {:induction false} DispatchedOnce(ss: seq<State>, ls: seq<Label>, i: nat, j: nat)
    requires Run(ss, ls) && i < j < |ls| && ls[i].Dispatch? && ls[j].Dispatch?
    ensures ls[i].t in ss[i].prog && ss[i].prog[ls[i].t].Working? && ls[j].t in ss[j].prog &&
            ss[j].prog[ls[j].t].Working?
    ensures ss[i].prog[ls[i].t].k != ss[j].prog[ls[j].t].k
  {
    var k := WorksOn(ss, ls, i);
    ResultsStay(ss, ls, i + 1, j);
    var k' := WorksOn(ss, ls, j);
  }

  /** No callback runs twice for one ticket. */
  lemma {:induction false} CalledBackOnce(ss: seq<State>, ls: seq<Label>, i: nat, j: nat)
    requires Run(ss, ls) && i < j < |ls| && ls[i].Callback? && ls[j].Callback?
    ensures ls[i].t in ss[i].prog && ss[i].prog[ls[i].t].Replying? && ls[j].t in ss[j].prog &&
            ss[j].prog[ls[j].t].Replying?
    ensures ss[i].prog[ls[i].t].k != ss[j].prog[ls[j].t].k
  {
    var k := WorksOn(ss, ls, i);
    ResultsStay(ss, ls, i + 1, j);
    var k' := WorksOn(ss, ls, j);
  }

  /** The worker that holds a ticket is the one whose own jobcache_pop took it off the queue. */
  lemma {:induction false} HolderPoppedIt(ss: seq<State>, ls: seq<Label>, i: nat, t: Tid, k: nat) returns (j: nat)
    requires Run(ss, ls) && i < |ss| && Held(ss[i], t) == Some(k)
    ensures j < i && ls[j].InCache? && ls[j].l.RunPop? && ls[j].l.t == t
    ensures |ss[j].cache.popped| == k && |ss[j + 1].cache.popped| == k + 1
    decreases i
  {
    NoneHeldInitially(ss[0], t);
    assert i > 0;
    if Held(ss[i - 1], t) == Some(k) {
      j := HolderPoppedIt(ss, ls, i - 1, t, k);
    } else {
      j := i - 1;
      HoldStartsInRun(ss, ls, j, t, k);
    }
  }

  lemma {:induction false} NoneHeldInitially(s: State, t: Tid)
    requires Init(s)
    ensures Held(s, t) == None
  {
  }

  lemma {:induction false} HoldStartsInRun(ss: seq<State>, ls: seq<Label>, j: nat, t: Tid, k: nat)
    requires Run(ss, ls) && j < |ls| && Held(ss[j], t) != Some(k) && Held(ss[j + 1], t) == Some(k)
    ensures ls[j].InCache? && ls[j].l.RunPop? && ls[j].l.t == t
    ensures |ss[j].cache.popped| == k && |ss[j + 1].cache.popped| == k + 1
  {
    RunKeeps(ss, ls, j);
    HoldStarts(ss[j], ls[j], ss[j + 1], t, k);
  }

  lemma {:induction false} HoldStarts(s: State, l: Label, s': State, t: Tid, k: nat)
    requires ServiceInv(s) && Next(s, l, s') && Held(s, t) != Some(k) && Held(s', t) == Some(k)
    ensures l.InCache? && l.l.RunPop? && l.l.t == t
    ensures |s.cache.popped| == k && |s'.cache.popped| == k + 1
  {
    if CacheStep(s, l, s') {
      CacheStepIsOne(s, l, s');
      CacheMovesHeld(s, Actor(l), s');
    } else if ClientStep(s, l, s') {
      ClientNeverHolds(s, l, s', t);
    } else if WorkerStep(s, l, s') {
      WorkerKeepsHolding(s, l, s', t);
    } else {
      PoolNeverHolds(s, l, s', t);
    }
  }

  lemma {:induction false} ClientNeverHolds(s: State, l: Label, s': State, t: Tid)
    requires Coupled(s) && ClientStep(s, l, s')
    ensures Held(s', t) == Held(s, t)
  {
    ClientMovesAlone(s, l, s');
  }

  lemma {:induction false} WorkerKeepsHolding(s: State, l: Label, s': State, t: Tid)
    requires Coupled(s) && WorkerStep(s, l, s')
    ensures Held(s', t) == Held(s, t) || Held(s', t) == None
  {
    if l.Callback? {
      CallbackWakes(s, l.t, l.woken, s');
    } else if !l.Dispatch? {
      WorkerMovesAlone(s, l, s');
    }
  }

  lemma {:induction false} PoolNeverHolds(s: State, l: Label, s': State, t: Tid)
    requires Coupled(s) && PoolStep(s, l, s')
    ensures Held(s', t) == Held(s, t)
  {
    if RecordOnly(l) {
      RecordStepShape(s, l, s');
    }
  }

  // ---------------------------------------------------------------- stop

  lemma {:induction false} RangeCard(n: nat, s: set<nat>)
    requires forall k: nat :: k in s <==> k < n
    ensures |s| == n
  {
    if n == 0 {
      assert s == {};
    } else {
      RangeCard(n - 1, s - {n - 1});
    }
  }

  /** jobworker_pool_stop returns only when every worker thread ever created has ended. */
  lemma {:induction false} StopWaitsForAll(ss: seq<State>, ls: seq<Label>, i: nat)
    requires Run(ss, ls) && i < |ss| && ss[i].pool.control == Off
    ensures forall t <- ss[i].pool.created :: HasExited(ss[i], t)
  {
    RunKeeps(ss, ls, i);
  }

  /** `num_workers` is the length of the thread list and never exceeds the maximum. */
  lemma {:induction false} WorkerCountBounded(ss: seq<State>, ls: seq<Label>, i: nat)
    requires Run(ss, ls) && i < |ss|
    ensures |ss[i].pool.workers| <= ss[i].pool.maxWorkers
    ensures forall t <- ss[i].prog :: IsWorker(ss[i].prog[t]) && !ss[i].prog[t].Exited? ==> t in ss[i].pool.workers
  {
    RunKeeps(ss, ls, i);
  }

  /** Once the pool has stopped, every accepted job was answered or is still queued, in order. */
  lemma {:induction false} StopConserves(ss: seq<State>, ls: seq<Label>, i: nat)
    requires Run(ss, ls) && i < |ss| && ss[i].pool.control == Off
    ensures forall k: nat :: k in ss[i].replied <==> k < |ss[i].cache.popped|
    ensures |ss[i].cache.pushed| == |ss[i].replied| + |ss[i].cache.queue|
  {
    RunKeeps(ss, ls, i);
    var s := ss[i];
    forall t
      ensures Held(s, t) == None
    {
    }
    forall k: nat
      ensures k in s.replied <==> k < |s.cache.popped|
    {
    }
    RangeCard(|s.cache.popped|, s.replied);
  }

  /** After a stop, the gateway threads left waiting are exactly those whose job is still queued. */
  lemma {:induction false} StrandedExactlyWhenQueued(ss: seq<State>, ls: seq<Label>, i: nat, t: Tid, k: nat)
    requires Run(ss, ls) && i < |ss| && ss[i].pool.control == Off
    requires Expects(ss[i], t) == Some(k)
    ensures ss[i].prog[t].req.ctx.Some? && ss[i].prog[t].req.ctx.value in ss[i].boxes
    ensures !ss[i].boxes[ss[i].prog[t].req.ctx.value].done <==> |ss[i].cache.popped| <= k
  {
    RunKeeps(ss, ls, i);
    StopConserves(ss, ls, i);
    assert BoxMatches(ss[i], t);
  }
}
