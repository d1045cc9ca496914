/**
 * The job service on top of the cache protocol: pool workers (src/jobcache/jobworker.c), the
 * gateway threads that sleep until their callback fires (src/gateway/gateway.c), submitters
 * without a callback (src/cron/cron.c), the load scaler and pool start and stop.
 *
 * A step is one critical section or one unprotected read; any interleaving is a run.
 */
module JobService {
  import opened Basics
  import opened CText
  import opened Jobs
  import Cache = JobProtocol

  type Tid = Cache.Tid

  /** What dispatch_job leaves in `result_buf` and `error_out`. */
  datatype Outcome = Outcome(text: string, error: int)

  const RESULT_SIZE := 16384

  /** dispatch_job: the agent and the shell are oracles, the other kinds are fixed. */
  ghost predicate DispatchAllows(job: Job, r: Outcome) {
    && |r.text| < RESULT_SIZE
    && match job.kind
       case AgentChat => r.error == 0 || (r.error == -1 && r.text != "")
       case CronRun => if job.payloadLen > 0 then r.text == "exit=" + Decimal(r.error) else r == Outcome("", 0)
       case Webhook => r == Outcome("ok", 0)
       case Ping => r == Outcome("pong", 0)
       case OtherKind => r == Outcome("unknown job type", -1)
  }

  /** agent_response_cb: what the callback leaves in the waiter's buffer. */
  function ReplyText(r: Outcome): string {
    var kept := if |r.text| >= RESULT_SIZE then r.text[..RESULT_SIZE - 1] else r.text;
    if r.error != 0 && kept == "" then "error=" + Decimal(r.error) else kept
  }

  /** agent_sync_ctx_t. */
  datatype Box = Box(done: bool, buffer: string)

  /** A thread's position outside the cache; a thread with no entry does not run service code. */
  datatype Prog =
    | Submitting                                  // jobcache_push without a callback
    | Requesting(req: Job)                        // gateway thread inside jobcache_push
    | Awaiting(req: Job, k: nat)                  // about to take the context mutex
    | ReplyAsleep(req: Job, k: nat)               // waiting on the context condition, not signalled
    | ReplyWoken(req: Job, k: nat)
    | Answered(req: Job, k: nat, text: string)    // left the loop and read the buffer
    | AtLoop                                      // worker at `while (pool->running)`
    | Fetching                                    // worker inside jobcache_pop
    | Working(k: nat)                             // worker about to dispatch ticket k
    | Replying(k: nat, res: Outcome)              // worker about to run the callback
    | Exited

  datatype Scaler = NoScaler | ScalerTest | Napping | Measuring | Deciding(depth: nat) | ScalerEnded

  datatype Control =
    | Off
    | Starting
    | Up
    | StartFailed
    | JoiningScaler
    | JoiningWorkers(n: nat, i: nat)

  datatype Pool = Pool(
    minWorkers: nat,
    maxWorkers: nat,
    threshold: nat,
    running: bool,
    workers: seq<Tid>,       // worker_threads[0 .. num_workers)
    scaler: Scaler,
    control: Control,
    created: set<Tid>)       // every worker thread ever created

  datatype State = State(
    cache: Cache.State,
    prog: map<Tid, Prog>,
    boxes: map<Ctx, Box>,             // live contexts
    results: map<nat, Outcome>,       // by ticket: what dispatch produced
    dispatcher: map<nat, Tid>,        // by ticket: who dispatched it
    replied: set<nat>,                // tickets whose worker has finished with them
    fault: bool,                      // a callback wrote through a dead context
    pool: Pool)

  ghost predicate Init(s: State) {
    && Cache.Init(s.cache)
    && s.prog == map[] && s.boxes == map[] && s.results == map[] && s.dispatcher == map[]
    && s.replied == {} && !s.fault
    && 0 < s.pool.minWorkers <= s.pool.maxWorkers
    && !s.pool.running && s.pool.workers == [] && s.pool.created == {}
    && s.pool.scaler == NoScaler && s.pool.control == Off
  }

  datatype Label =
    | Submit(t: Tid, job: Job)
    | Request(t: Tid, job: Job)
    | InCache(l: Cache.Label)
    | Swallow(t: Tid)                 // a worker's wait times out after it consumed a signal
    | PushReturned(t: Tid)
    | WaitReply(t: Tid)
    | SpuriousReply(t: Tid)
    | FinishRequest(t: Tid)
    | LoopTest(t: Tid)
    | Fetched(t: Tid)
    | FetchFailed(t: Tid)
    | Dispatch(t: Tid, res: Outcome)
    | Callback(t: Tid, woken: set<Tid>)
    | PoolStart
    | SpawnWorker(t: Tid)
    | StartScaler(ok: bool)
    | ScalerMoves
    | ScalerSpawns(t: Tid)
    | PoolStop
    | JoinScaler
    | JoinWorker
    | StopReturns

  ghost predicate Internal(l: Cache.Label) {
    l.RunPush? || l.RunPop? || l.Expire? || l.LeaveExpired? || l.Spurious?
  }

  ghost function ReplySleepers(s: State, c: Ctx): set<Tid> {
    set t | t in s.prog && s.prog[t].ReplyAsleep? && s.prog[t].req.ctx == Some(c)
  }

  function AwakeReply(p: Prog): Prog {
    if p.ReplyAsleep? then ReplyWoken(p.req, p.k) else p
  }

  ghost function WakeReplies(m: map<Tid, Prog>, woken: set<Tid>): map<Tid, Prog> {
    map t | t in m :: if t in woken then AwakeReply(m[t]) else m[t]
  }

  // ---------------------------------------------------------------- client steps

  ghost predicate ClientStep(s: State, l: Label, s': State) {
    match l
    case Submit(t, job) =>
      && t !in s.prog && job.ctx == None
      && Cache.Next(s.cache, Cache.CallPush(t, job), s'.cache)
      && s' == s.(cache := s'.cache, prog := s.prog[t := Submitting])
    case Request(t, job) =>
      && t !in s.prog && job.ctx.Some? && job.ctx.value !in s.boxes
      && Cache.Next(s.cache, Cache.CallPush(t, job), s'.cache)
      && s' == s.(cache := s'.cache, prog := s.prog[t := Requesting(job)],
                  boxes := s.boxes[job.ctx.value := Box(false, "")])
    case PushReturned(t) =>
      && t in s.prog && (s.prog[t].Submitting? || s.prog[t].Requesting?)
      && t in s.cache.threads && s.cache.threads[t].PushDone?
      && Cache.Next(s.cache, Cache.Return(t), s'.cache)
      && s' == s.(cache := s'.cache,
                  prog := if s.prog[t].Submitting? then s.prog - {t}
                          else s.prog[t := Awaiting(s.prog[t].req, s.cache.threads[t].ticket)])
    case WaitReply(t) =>
      && t in s.prog && (s.prog[t].Awaiting? || s.prog[t].ReplyWoken?)
      && var p := s.prog[t];
         && p.req.ctx.Some? && p.req.ctx.value in s.boxes
         && var box := s.boxes[p.req.ctx.value];
            s' == s.(prog := s.prog[t := if box.done then Answered(p.req, p.k, box.buffer) else
                ReplyAsleep(p.req, p.k)])
    case SpuriousReply(t) =>
      && t in s.prog && s.prog[t].ReplyAsleep?
      && s' == s.(prog := s.prog[t := AwakeReply(s.prog[t])])
    case FinishRequest(t) =>
      && t in s.prog && s.prog[t].Answered? && s.prog[t].req.ctx.Some?
      && s' == s.(prog := s.prog - {t}, boxes := s.boxes - {s.prog[t].req.ctx.value})
    case _ => false
  }

  // ---------------------------------------------------------------- worker steps

  ghost predicate StepCallback(s: State, t: Tid, woken: set<Tid>, s': State) {
    && t in s.prog && s.prog[t].Replying?
    && var k, res := s.prog[t].k, s.prog[t].res;
       && k < |s.cache.pushed|
       && match s.cache.pushed[k].ctx
          case None => s' == s.(replied := s.replied + {k}, prog := s.prog[t := AtLoop])
          case Some(c) =>
            && Cache.Signals(ReplySleepers(s, c), woken)
            && s' == s.(replied := s.replied + {k},
                        boxes := s.boxes[c := Box(true, ReplyText(res))],
                        fault := s.fault || c !in s.boxes,
                        prog := WakeReplies(s.prog, woken)[t := AtLoop])
  }

  ghost predicate WorkerStep(s: State, l: Label, s': State) {
    match l
    case LoopTest(t) =>
      && t in s.prog && s.prog[t].AtLoop?
      && if s.pool.running then
           && Cache.Next(s.cache, Cache.CallPop(t, Cache.Timed), s'.cache)
           && s' == s.(cache := s'.cache, prog := s.prog[t := Fetching])
         else s' == s.(prog := s.prog[t := Exited])
    case Fetched(t) =>
      && t in s.prog && s.prog[t].Fetching? && t in s.cache.threads && s.cache.threads[t].PopDone?
      && Cache.Next(s.cache, Cache.Return(t), s'.cache)
      && s' == s.(cache := s'.cache, prog := s.prog[t := Working(s.cache.threads[t].ticket)])
    case FetchFailed(t) =>
      && t in s.prog && s.prog[t].Fetching? && t in s.cache.threads && s.cache.threads[t].PopEmpty?
      && Cache.Next(s.cache, Cache.Return(t), s'.cache)
      && s' == s.(cache := s'.cache, prog := s.prog[t := if s.pool.running then AtLoop else Exited])
    case Dispatch(t, res) =>
      && t in s.prog && s.prog[t].Working? && s.prog[t].k < |s.cache.pushed|
      && DispatchAllows(s.cache.pushed[s.prog[t].k], res)
      && s' == s.(prog := s.prog[t := Replying(s.prog[t].k, res)],
                  results := s.results[s.prog[t].k := res],
                  dispatcher := s.dispatcher[s.prog[t].k := t])
    case Callback(t, woken) => StepCallback(s, t, woken, s')
    case _ => false
  }

  // ---------------------------------------------------------------- pool steps

  /** Threads are never named twice: a new worker has no history. */
  ghost predicate FreshThread(s: State, t: Tid) {
    t !in s.prog && t !in s.pool.created
  }

  ghost function Spawned(s: State, t: Tid): State {
    s.(prog := s.prog[t := AtLoop],
       pool := s.pool.(workers := s.pool.workers + [t], created := s.pool.created + {t}))
  }

  ghost predicate PoolStep(s: State, l: Label, s': State) {
    var p := s.pool;
    match l
    case PoolStart =>
      p.control == Off && !p.running && s' == s.(pool := p.(running := true, control := Starting))
    case SpawnWorker(t) =>
      p.control == Starting && |p.workers| < p.minWorkers && FreshThread(s, t) && s' == Spawned(s, t)
    case StartScaler(ok) =>   // the spawn loop is over, by count or by a failed pthread_create
      && p.control == Starting
      && s' == s.(pool := if ok then p.(scaler := ScalerTest, control := Up)
                          else p.(running := false, control := StartFailed))
    case ScalerMoves =>
      (match p.scaler
      case ScalerTest => s' == s.(pool := p.(scaler := if p.running then Napping else ScalerEnded))
      case Napping => s' == s.(pool := p.(scaler := if p.running then Measuring else ScalerEnded))
      case Measuring => s' == s.(pool := p.(scaler := Deciding(|s.cache.queue|)))
      case Deciding(depth) => s' == s.(pool := p.(scaler := ScalerTest))   // too shallow, full, or creation failed
      case _ => false)
    case ScalerSpawns(t) =>
      && p.scaler.Deciding? && p.scaler.depth >= p.threshold && |p.workers| < p.maxWorkers && FreshThread(s, t)
      && s' == Spawned(s, t).(pool := Spawned(s, t).pool.(scaler := ScalerTest))
    case PoolStop =>
      p.control == Up && p.running && s' == s.(pool := p.(running := false, control := JoiningScaler))
    case JoinScaler =>
      && p.control == JoiningScaler && p.scaler == ScalerEnded
      && s' == s.(pool := p.(control := JoiningWorkers(|p.workers|, 0)))
    case JoinWorker =>
      && p.control.JoiningWorkers? && p.control.i < p.control.n <= |p.workers|
      && p.workers[p.control.i] in s.prog && s.prog[p.workers[p.control.i]].Exited?
      && s' == s.(pool := p.(control := JoiningWorkers(p.control.n, p.control.i + 1)))
    case StopReturns =>
      && p.control.JoiningWorkers? && p.control.i == p.control.n
      && s' == s.(pool := p.(workers := [], scaler := NoScaler, control := Off))
    case _ => false
  }

  ghost predicate CacheStep(s: State, l: Label, s': State) {
    && s' == s.(cache := s'.cache)
    && match l {
      case InCache(c) => Internal(c) && Cache.Next(s.cache, c, s'.cache)
      case Swallow(t) => Cache.ExpireWoken(s.cache, t, s'.cache)
      case _ => false
    }
  }

  ghost predicate Next(s: State, l: Label, s': State) {
    CacheStep(s, l, s') || ClientStep(s, l, s') || WorkerStep(s, l, s') || PoolStep(s, l, s')
  }

  ghost predicate Run(ss: seq<State>, ls: seq<Label>) {
    && |ss| == |ls| + 1
    && Init(ss[0])
    && forall i :: 0 <= i < |ls| ==> Next(ss[i], ls[i], ss[i + 1])
  }
}
