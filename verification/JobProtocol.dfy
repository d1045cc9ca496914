/**
 * The blocking protocol of the job cache: one mutex, the two condition variables
 * `cond_not_empty` and `cond_not_full`, any number of threads inside jobcache_push and
 * jobcache_pop (src/jobcache/jobcache.c).
 *
 * A critical section runs from pthread_mutex_lock to the next unlock or wait and is one
 * step. A thread that waits is asleep until it is signalled (or wakes spuriously); it then
 * has to take the mutex again, which is a second step.
 */
module JobProtocol {
  import opened Jobs

  type Tid = nat

  /** timeout_ms < 0, > 0 and == 0. */
  datatype Mode = Block | Timed | Poll

  /** Where a thread inside a cache call is. A ticket is a position in the order of pushes. */
  datatype Place =
    | Pushing(job: Job)        // about to take the mutex for the first time
    | PushAsleep(job: Job)     // in pthread_cond_wait(cond_not_full), not signalled
    | PushWoken(job: Job)      // signalled, about to take the mutex again
    | PushDone(ticket: nat)    // returning 0
    | Popping(mode: Mode)
    | PopAsleep(mode: Mode)    // in a wait on cond_not_empty, not signalled
    | PopWoken(mode: Mode)
    | PopExpired               // pthread_cond_timedwait returned nonzero
    | PopDone(ticket: nat)     // returning 0 with a job
    | PopEmpty                 // returning -1

  /** `pushed` and `popped` record the whole history of the queue. */
  datatype State = State(
    capacity: nat,
    queue: seq<Job>,
    threads: map<Tid, Place>,
    pushed: seq<Job>,
    popped: seq<Job>)

  datatype Label =
    | CallPush(t: Tid, job: Job)
    | RunPush(t: Tid, woken: set<Tid>)    // critical section of jobcache_push
    | CallPop(t: Tid, mode: Mode)
    | RunPop(t: Tid, woken: set<Tid>)     // critical section of jobcache_pop
    | Expire(t: Tid)                      // deadline passes on an unsignalled timed waiter
    | LeaveExpired(t: Tid)                // the expired waiter unlocks and returns -1
    | Spurious(t: Tid)
    | Return(t: Tid)

  ghost predicate Init(s: State) {
    0 < s.capacity && s.queue == [] && s.threads == map[] && s.pushed == [] && s.popped == []
  }

  ghost function PopSleepers(s: State): set<Tid> {
    set t | t in s.threads && s.threads[t].PopAsleep?
  }

  ghost function PopWakers(s: State): set<Tid> {
    set t | t in s.threads && s.threads[t].PopWoken?
  }

  ghost function PushSleepers(s: State): set<Tid> {
    set t | t in s.threads && s.threads[t].PushAsleep?
  }

  ghost function PushWakers(s: State): set<Tid> {
    set t | t in s.threads && s.threads[t].PushWoken?
  }

  function Awake(p: Place): Place {
    match p
    case PushAsleep(j) => PushWoken(j)
    case PopAsleep(m) => PopWoken(m)
    case _ => p
  }

  ghost function Wake(m: map<Tid, Place>, woken: set<Tid>): map<Tid, Place> {
    map t | t in m :: if t in woken then Awake(m[t]) else m[t]
  }

  /** pthread_cond_signal unblocks at least one waiter, if there is any. */
  ghost predicate Signals(sleepers: set<Tid>, woken: set<Tid>) {
    woken <= sleepers && (sleepers != {} ==> woken != {})
  }

  ghost predicate AtPushMutex(s: State, t: Tid) {
    t in s.threads && (s.threads[t].Pushing? || s.threads[t].PushWoken?)
  }

  ghost predicate AtPopMutex(s: State, t: Tid) {
    t in s.threads && (s.threads[t].Popping? || s.threads[t].PopWoken?)
  }

  ghost function SetPlace(s: State, t: Tid, p: Place): State {
    s.(threads := s.threads[t := p])
  }

  ghost predicate StepRunPush(s: State, t: Tid, woken: set<Tid>, s': State) {
    && AtPushMutex(s, t)
    && ValidJob(s.threads[t].job)
    && var job := s.threads[t].job;
       if |s.queue| >= s.capacity then
         s' == SetPlace(s, t, PushAsleep(job))
       else
         && Signals(PopSleepers(s), woken)
         && s' == s.(queue := s.queue + [Stored(job)],
                     pushed := s.pushed + [Stored(job)],
                     threads := Wake(s.threads, woken)[t := PushDone(|s.pushed|)])
  }

  ghost predicate StepRunPop(s: State, t: Tid, woken: set<Tid>, s': State) {
    && AtPopMutex(s, t)
    && var mode := s.threads[t].mode;
       if s.queue == [] then
         s' == SetPlace(s, t, if mode == Poll then PopEmpty else PopAsleep(mode))
       else
         && Signals(PushSleepers(s), woken)
         && s' == s.(queue := s.queue[1..],
                     popped := s.popped + [s.queue[0]],
                     threads := Wake(s.threads, woken)[t := PopDone(|s.popped|)])
  }

  ghost predicate Next(s: State, l: Label, s': State) {
    match l
    case CallPush(t, job) =>
      t !in s.threads && ValidJob(job) && s' == SetPlace(s, t, Pushing(job))
    case RunPush(t, woken) =>
      StepRunPush(s, t, woken, s')
    case CallPop(t, mode) =>
      t !in s.threads && s' == SetPlace(s, t, Popping(mode))
    case RunPop(t, woken) =>
      StepRunPop(s, t, woken, s')
    case Expire(t) =>
      t in s.threads && s.threads[t] == PopAsleep(Timed) && s' == SetPlace(s, t, PopExpired)
    case LeaveExpired(t) =>
      t in s.threads && s.threads[t].PopExpired? && s' == SetPlace(s, t, PopEmpty)
    case Spurious(t) =>
      && t in s.threads && (s.threads[t].PopAsleep? || s.threads[t].PushAsleep?)
      && s' == SetPlace(s, t, Awake(s.threads[t]))
    case Return(t) =>
      && t in s.threads && (s.threads[t].PushDone? || s.threads[t].PopDone? || s.threads[t].PopEmpty?)
      && s' == s.(threads := s.threads - {t})
  }

  /** A finite run: states joined by labelled steps. */
  ghost predicate Run(ss: seq<State>, ls: seq<Label>) {
    && |ss| == |ls| + 1
    && Init(ss[0])
    && forall i :: 0 <= i < |ls| ==> Next(ss[i], ls[i], ss[i + 1])
  }

  // ---------------------------------------------------------------- invariants

  /** Everything pushed is, in order, everything popped followed by what is queued. */
  ghost predicate Fifo(s: State) {
    && 0 < s.capacity
    && |s.queue| <= s.capacity
    && s.pushed == s.popped + s.queue
  }

  ghost predicate HasJob(p: Place) {
    p.Pushing? || p.PushAsleep? || p.PushWoken?
  }

  ghost predicate JobsValid(s: State) {
    && (forall j <- s.pushed :: ValidJob(j))
    && (forall t <- s.threads :: HasJob(s.threads[t]) ==> ValidJob(s.threads[t].job))
  }

  ghost predicate TicketBounds(s: State) {
    && (forall t <- s.threads :: s.threads[t].PushDone? ==> s.threads[t].ticket < |s.pushed|)
    && (forall t <- s.threads :: s.threads[t].PopDone? ==> s.threads[t].ticket < |s.popped|)
  }

  /** No two calls are told the same ticket. */
  ghost predicate TicketsDistinct(s: State) {
    && (forall t <- s.threads, u <- s.threads | t != u && s.threads[t].PopDone? && s.threads[u].PopDone? ::
          s.threads[t].ticket != s.threads[u].ticket)
    && (forall t <- s.threads, u <- s.threads | t != u && s.threads[t].PushDone? && s.threads[u].PushDone? ::
          s.threads[t].ticket != s.threads[u].ticket)
  }

  /**
   * No consumer is left asleep while more jobs are queued than consumers are on their way, but for `missed`
   * signals.
   */
  ghost predicate NoLostPop(s: State, missed: nat) {
    PopSleepers(s) == {} || |s.queue| <= |PopWakers(s)| + missed
  }

  /** The mirror image for producers and free slots. */
  ghost predicate NoLostPush(s: State) {
    PushSleepers(s) == {} || s.capacity - |s.queue| <= |PushWakers(s)|
  }

  /** A polling caller never sleeps. */
  ghost predicate PollAwake(s: State) {
    forall t <- s.threads :: s.threads[t].PopAsleep? ==> s.threads[t].mode != Poll
  }

  /** All but the consumers' side of the signals. */
  ghost predicate Sound(s: State) {
    && Fifo(s)
    && JobsValid(s)
    && TicketBounds(s)
    && TicketsDistinct(s)
    && NoLostPush(s)
    && PollAwake(s)
  }

  ghost predicate Inv(s: State) {
    Sound(s) && NoLostPop(s, 0)
  }

  // ---------------------------------------------------------------- preservation

  lemma {:induction false} CardPlus(a: set<Tid>, b: set<Tid>, extra: set<Tid>)
    requires extra != {} && extra !! a && a + extra <= b
    ensures |b| >= |a| + 1
  {
    var x :| x in extra;
    assert |a + {x}| == |a| + 1;
    CardMono(a + {x}, b);
  }

  lemma {:induction false} CardMono(a: set<Tid>, b: set<Tid>)
    requires a <= b
    ensures |a| <= |b|
  {
    assert b == a + (b - a);
  }

  /** What a signal followed by one thread's own move does to the other places. */
  ghost predicate Moved(s: State, t: Tid, woken: set<Tid>, p: Place, s': State) {
    && s'.threads.Keys == s.threads.Keys
    && t in s.threads
    && s'.threads[t] == p
    && forall u <- s.threads | u != t :: s'.threads[u] == if u in woken then Awake(s.threads[u]) else s.threads[u]
  }

  lemma {:induction false} PushMoves(s: State, t: Tid, woken: set<Tid>, s': State)
    requires StepRunPush(s, t, woken, s') && |s.queue| < s.capacity
    ensures Moved(s, t, woken, PushDone(|s.pushed|), s')
  {
  }

  lemma {:induction false} PopMoves(s: State, t: Tid, woken: set<Tid>, s': State)
    requires StepRunPop(s, t, woken, s') && s.queue != []
    ensures Moved(s, t, woken, PopDone(|s.popped|), s')
  {
  }

  lemma {:induction false} PushWakesPops(s: State, t: Tid, woken: set<Tid>, s': State)
    requires AtPushMutex(s, t) && woken <= PopSleepers(s) && Moved(s, t, woken, PushDone(|s.pushed|), s')
    ensures PopSleepers(s') == PopSleepers(s) - woken
    ensures PopWakers(s') == PopWakers(s) + woken
    ensures PushSleepers(s') == PushSleepers(s)
    ensures PushWakers(s') == PushWakers(s) - {t}
  {
  }

  lemma {:induction false} PopWakesPushes(s: State, t: Tid, woken: set<Tid>, s': State)
    requires AtPopMutex(s, t) && woken <= PushSleepers(s) && Moved(s, t, woken, PopDone(|s.popped|), s')
    ensures PushSleepers(s') == PushSleepers(s) - woken
    ensures PushWakers(s') == PushWakers(s) + woken
    ensures PopSleepers(s') == PopSleepers(s)
    ensures PopWakers(s') == PopWakers(s) - {t}
  {
  }

  lemma {:induction false} PushKeepsNoLostPop(s: State, t: Tid, woken: set<Tid>, s': State, missed: nat)
    requires NoLostPop(s, missed) && StepRunPush(s, t, woken, s')
    ensures NoLostPop(s', missed)
  {
    if |s.queue| >= s.capacity {
      assert PopSleepers(s') == PopSleepers(s);
      assert PopWakers(s') == PopWakers(s);
    } else {
      PushMoves(s, t, woken, s');
      PushWakesPops(s, t, woken, s');
      if PopSleepers(s') != {} {
        CardPlus(PopWakers(s), PopWakers(s'), woken);
      }
    }
  }

  lemma {:induction false} PushKeepsNoLostPush(s: State, t: Tid, woken: set<Tid>, s': State)
    requires NoLostPush(s) && StepRunPush(s, t, woken, s')
    ensures NoLostPush(s')
  {
    if |s.queue| < s.capacity {
      PushMoves(s, t, woken, s');
      PushWakesPops(s, t, woken, s');
    }
  }

  lemma {:induction false} PopKeepsNoLostPush(s: State, t: Tid, woken: set<Tid>, s': State)
    requires NoLostPush(s) && StepRunPop(s, t, woken, s')
    ensures NoLostPush(s')
  {
    if s.queue == [] {
      assert PushSleepers(s') == PushSleepers(s);
      assert PushWakers(s') == PushWakers(s);
    } else {
      PopMoves(s, t, woken, s');
      PopWakesPushes(s, t, woken, s');
      if PushSleepers(s') != {} {
        CardPlus(PushWakers(s), PushWakers(s'), woken);
      }
    }
  }

  lemma {:induction false} PopKeepsNoLostPop(s: State, t: Tid, woken: set<Tid>, s': State, missed: nat)
    requires NoLostPop(s, missed) && StepRunPop(s, t, woken, s')
    ensures NoLostPop(s', missed)
  {
    if s.queue != [] {
      PopMoves(s, t, woken, s');
      PopWakesPushes(s, t, woken, s');
    }
  }

  lemma {:induction false} OtherKeepsNoLostPop(s: State, l: Label, s': State, missed: nat)
    requires NoLostPop(s, missed) && Next(s, l, s') && !l.RunPush? && !l.RunPop?
    ensures NoLostPop(s', missed)
  {
    assert PopSleepers(s') <= PopSleepers(s);
    assert PopWakers(s) <= PopWakers(s');
    CardMono(PopWakers(s), PopWakers(s'));
  }

  lemma {:induction false} OtherKeepsNoLostPush(s: State, l: Label, s': State)
    requires NoLostPush(s) && Next(s, l, s') && !l.RunPush? && !l.RunPop?
    ensures NoLostPush(s')
  {
    assert PushSleepers(s') <= PushSleepers(s);
    assert PushWakers(s) <= PushWakers(s');
    CardMono(PushWakers(s), PushWakers(s'));
  }

  lemma {:induction false} StepKeepsFifo(s: State, l: Label, s': State)
    requires Fifo(s) && Next(s, l, s')
    ensures Fifo(s')
  {
    if l.RunPop? && s.queue != [] {
      assert s.pushed == s.popped + [s.queue[0]] + s.queue[1..];
    }
  }

  lemma {:induction false} PushKeepsJobs(s: State, t: Tid, woken: set<Tid>, s': State)
    requires JobsValid(s) && PollAwake(s) && StepRunPush(s, t, woken, s')
    ensures JobsValid(s') && PollAwake(s')
  {
    if |s.queue| < s.capacity {
      PushMoves(s, t, woken, s');
    }
  }

  lemma {:induction false} PopKeepsJobs(s: State, t: Tid, woken: set<Tid>, s': State)
    requires JobsValid(s) && PollAwake(s) && StepRunPop(s, t, woken, s')
    ensures JobsValid(s') && PollAwake(s')
  {
    if s.queue != [] {
      PopMoves(s, t, woken, s');
    }
  }

  /** A fresh ticket keeps tickets apart, whoever was woken beside it. */
  lemma {:induction false} MovedKeepsTickets(s: State, t: Tid, woken: set<Tid>, p: Place, s': State)
    requires TicketBounds(s) && TicketsDistinct(s) && Moved(s, t, woken, p, s')
    requires p == PushDone(|s.pushed|) || p == PopDone(|s.popped|)
    requires |s'.pushed| == |s.pushed| + (if p.PushDone? then 1 else 0)
    requires |s'.popped| == |s.popped| + (if p.PopDone? then 1 else 0)
    ensures TicketBounds(s') && TicketsDistinct(s')
  {
    forall u <- s'.threads | u != t
      ensures s'.threads[u].PushDone? || s'.threads[u].PopDone? ==> s'.threads[u] == s.threads[u]
    {
    }
  }

  lemma {:induction false} PushKeepsTickets(s: State, t: Tid, woken: set<Tid>, s': State)
    requires TicketBounds(s) && TicketsDistinct(s) && StepRunPush(s, t, woken, s')
    ensures TicketBounds(s') && TicketsDistinct(s')
  {
    if |s.queue| < s.capacity {
      PushMoves(s, t, woken, s');
      MovedKeepsTickets(s, t, woken, PushDone(|s.pushed|), s');
    }
  }

  lemma {:induction false} PopKeepsTickets(s: State, t: Tid, woken: set<Tid>, s': State)
    requires TicketBounds(s) && TicketsDistinct(s) && StepRunPop(s, t, woken, s')
    ensures TicketBounds(s') && TicketsDistinct(s')
  {
    if s.queue != [] {
      PopMoves(s, t, woken, s');
      MovedKeepsTickets(s, t, woken, PopDone(|s.popped|), s');
    }
  }

  lemma {:induction false} OtherKeepsJobs(s: State, l: Label, s': State)
    requires JobsValid(s) && PollAwake(s) && Next(s, l, s') && !l.RunPush? && !l.RunPop?
    ensures JobsValid(s') && PollAwake(s')
  {
  }

  /** The other steps move one thread, and give it no ticket. */
  ghost predicate MovesAlone(s: State, t: Tid, s': State) {
    && (forall u <- s'.threads | u != t :: u in s.threads && s'.threads[u] == s.threads[u])
    && (t in s'.threads ==> !s'.threads[t].PushDone? && !s'.threads[t].PopDone?)
    && s'.pushed == s.pushed && s'.popped == s.popped
  }

  lemma {:induction false} OtherMovesAlone(s: State, l: Label, s': State)
    requires Next(s, l, s') && !l.RunPush? && !l.RunPop?
    ensures MovesAlone(s, l.t, s')
  {
  }

  lemma {:induction false} OtherKeepsTickets(s: State, t: Tid, s': State)
    requires TicketBounds(s) && TicketsDistinct(s) && MovesAlone(s, t, s')
    ensures TicketBounds(s') && TicketsDistinct(s')
  {
  }

  lemma {:induction false} StepKeepsSound(s: State, l: Label, s': State)
    requires Sound(s) && Next(s, l, s')
    ensures Sound(s')
  {
    StepKeepsFifo(s, l, s');
    match l {
      case RunPush(t, woken) =>
        PushKeepsJobs(s, t, woken, s');
        PushKeepsTickets(s, t, woken, s');
        PushKeepsNoLostPush(s, t, woken, s');
      case RunPop(t, woken) =>
        PopKeepsJobs(s, t, woken, s');
        PopKeepsTickets(s, t, woken, s');
        PopKeepsNoLostPush(s, t, woken, s');
      case _ =>
        OtherKeepsJobs(s, l, s');
        OtherMovesAlone(s, l, s');
        OtherKeepsTickets(s, l.t, s');
        OtherKeepsNoLostPush(s, l, s');
    }
  }

  lemma {:induction false} StepKeepsNoLostPop(s: State, l: Label, s': State, missed: nat)
    requires NoLostPop(s, missed) && Next(s, l, s')
    ensures NoLostPop(s', missed)
  {
    match l {
      case RunPush(t, woken) => PushKeepsNoLostPop(s, t, woken, s', missed);
      case RunPop(t, woken) => PopKeepsNoLostPop(s, t, woken, s', missed);
      case _ => OtherKeepsNoLostPop(s, l, s', missed);
    }
  }

  lemma {:induction false} StepKeepsInv(s: State, l: Label, s': State)
    requires Inv(s) && Next(s, l, s')
    ensures Inv(s')
  {
    StepKeepsSound(s, l, s');
    StepKeepsNoLostPop(s, l, s', 0);
  }

  // ---------------------------------------------------------------- whole runs

  /** The invariant holds in every state of every run. */
  lemma {:induction false} RunKeepsInv(ss: seq<State>, ls: seq<Label>, i: nat)
    requires Run(ss, ls) && i < |ss|
    ensures Inv(ss[i])
    decreases i
  {
    if i > 0 {
      RunKeepsInv(ss, ls, i - 1);
      StepKeepsInv(ss[i - 1], ls[i - 1], ss[i]);
    }
  }

  /** Conservation and order over every interleaving. */
  lemma {:induction false} FifoOverRuns(ss: seq<State>, ls: seq<Label>, i: nat)
    requires Run(ss, ls) && i < |ss|
    ensures ss[i].pushed == ss[i].popped + ss[i].queue
    ensures |ss[i].queue| <= ss[i].capacity
    ensures forall t <- ss[i].threads :: ss[i].threads[t].PopDone? ==>
              && ss[i].threads[t].ticket < |ss[i].popped|
              && ss[i].popped[ss[i].threads[t].ticket] == ss[i].pushed[ss[i].threads[t].ticket]
  {
    RunKeepsInv(ss, ls, i);
  }

  ghost predicate AllAsleep(s: State) {
    && s.threads != map[]
    && forall t <- s.threads :: s.threads[t].PopAsleep? || s.threads[t].PushAsleep?
  }

  /**
   * The cache never stalls with work to do: if every thread inside it is asleep, then they
   * all wait for the same event, and that event has not happened.
   */
  lemma {:induction false} NoStall(ss: seq<State>, ls: seq<Label>, i: nat)
    requires Run(ss, ls) && i < |ss| && AllAsleep(ss[i])
    ensures || (ss[i].queue == [] && forall t <- ss[i].threads :: ss[i].threads[t].PopAsleep?)
            || (|ss[i].queue| == ss[i].capacity && forall t <- ss[i].threads :: ss[i].threads[t].PushAsleep?)
  {
    RunKeepsInv(ss, ls, i);
    var s := ss[i];
    assert PopWakers(s) == {} && PushWakers(s) == {};
    forall t <- s.threads
      ensures s.threads[t].PopAsleep? ==> s.queue == []
      ensures s.threads[t].PushAsleep? ==> |s.queue| == s.capacity
    {
      assert s.threads[t].PopAsleep? ==> t in PopSleepers(s);
      assert s.threads[t].PushAsleep? ==> t in PushSleepers(s);
    }
  }

  /** A consumer sleeps beside a nonempty queue only if a signalled one can fetch a job at once. */
  lemma {:induction false} SleeperIsCovered(ss: seq<State>, ls: seq<Label>, i: nat)
    requires Run(ss, ls) && i < |ss| && PopSleepers(ss[i]) != {} && ss[i].queue != []
    ensures exists u, woken, s' :: u in PopWakers(ss[i]) && Next(ss[i], RunPop(u, woken), s') && s'.threads[u].PopDone?
  {
    RunKeepsInv(ss, ls, i);
    var s := ss[i];
    assert PopWakers(s) != {};
    var u :| u in PopWakers(s);
    var woken := PushSleepers(s);
    var s' := s.(queue := s.queue[1..],
                 popped := s.popped + [s.queue[0]],
                 threads := Wake(s.threads, woken)[u := PopDone(|s.popped|)]);
    assert Next(s, RunPop(u, woken), s') && s'.threads[u].PopDone?;
  }

  // ------------------------------------------------- signals consumed by a timeout

  /**
   * POSIX also lets pthread_cond_timedwait time out after it has consumed a signal. The code
   * then returns -1 without looking at the queue again.
   */
  ghost predicate ExpireWoken(s: State, t: Tid, s': State) {
    t in s.threads && s.threads[t] == PopWoken(Timed) && s' == SetPlace(s, t, PopExpired)
  }

  /** Exactly when such a timeout costs the guarantee. */
  lemma {:induction false} ExpireWokenBreaks(s: State, t: Tid, s': State)
    requires Inv(s) && ExpireWoken(s, t, s')
    ensures NoLostPop(s', 0) <==> PopSleepers(s) == {} || |s.queue| < |PopWakers(s)|
    ensures Fifo(s') && NoLostPush(s')
  {
    assert PopSleepers(s') == PopSleepers(s);
    assert PopWakers(s') == PopWakers(s) - {t};
    assert PushSleepers(s') == PushSleepers(s);
    assert PushWakers(s') == PushWakers(s);
  }

  /** Two consumers sleep, one with a deadline, and a producer is about to push. */
  ghost function TwoSleepers(job: Job): State {
    State(1, [], map[1 := PopAsleep(Timed), 2 := PopAsleep(Block), 3 := Pushing(job)], [], [])
  }

  lemma {:induction false} TwoSleepersReachable(job: Job) returns (ss: seq<State>, ls: seq<Label>)
    requires ValidJob(job)
    ensures Run(ss, ls) && |ss| == 6 && ss[5] == TwoSleepers(job)
  {
    var s0 := State(1, [], map[], [], []);
    var s1 := SetPlace(s0, 1, Popping(Timed));
    var s2 := SetPlace(s1, 1, PopAsleep(Timed));
    var s3 := SetPlace(s2, 2, Popping(Block));
    var s4 := SetPlace(s3, 2, PopAsleep(Block));
    ss := [s0, s1, s2, s3, s4, SetPlace(s4, 3, Pushing(job))];
    ls := [CallPop(1, Timed), RunPop(1, {}), CallPop(2, Block), RunPop(2, {}), CallPush(3, job)];
  }

  lemma {:induction false} PushWakesFirst(job: Job) returns (s': State)
    requires ValidJob(job)
    ensures Next(TwoSleepers(job), RunPush(3, {1}), s') && s'.queue == [Stored(job)]
    ensures s'.threads == map[1 := PopWoken(Timed), 2 := PopAsleep(Block), 3 := PushDone(0)]
  {
    var s := TwoSleepers(job);
    assert PopSleepers(s) == {1, 2};
    s' := s.(queue := s.queue + [Stored(job)], pushed := s.pushed + [Stored(job)],
             threads := Wake(s.threads, {1})[3 := PushDone(0)]);
  }

  /** It does happen: a job is queued, a consumer sleeps, and nobody is on the way. */
  lemma {:induction false} ExpireWokenLosesWakeup(job: Job) returns (ss: seq<State>, ls: seq<Label>, last: State)
    requires ValidJob(job)
    ensures Run(ss, ls)
    ensures ExpireWoken(ss[|ss| - 1], 1, last)
    ensures last.queue == [Stored(job)] && 2 in PopSleepers(last) && PopWakers(last) == {} && !NoLostPop(last, 0)
  {
    var ss', ls' := TwoSleepersReachable(job);
    var s := PushWakesFirst(job);
    ss, ls := ss' + [s], ls' + [RunPush(3, {1})];
    last := SetPlace(s, 1, PopExpired);
    assert 2 in PopSleepers(last);
    assert PopWakers(last) == {};
  }

  // ------------------------------------------------- runs in which timeouts swallow signals

  /** A step of such a run: an ordinary one, or a timeout that swallows a signal. */
  datatype Event = Plain(l: Label) | Swallow(t: Tid)

  ghost predicate LooseNext(s: State, e: Event, s': State) {
    match e
    case Plain(l) => Next(s, l, s')
    case Swallow(t) => ExpireWoken(s, t, s')
  }

  ghost predicate LooseRun(ss: seq<State>, es: seq<Event>) {
    && |ss| == |es| + 1
    && Init(ss[0])
    && forall i :: 0 <= i < |es| ==> LooseNext(ss[i], es[i], ss[i + 1])
  }

  /** The signals swallowed in the first `i` steps. */
  function Swallowed(es: seq<Event>, i: nat): nat
    requires i <= |es|
  {
    if i == 0 then 0 else Swallowed(es, i - 1) + if es[i - 1].Swallow? then 1 else 0
  }

  ghost predicate LooseInv(s: State, missed: nat) {
    Sound(s) && NoLostPop(s, missed)
  }

  lemma {:induction false} SwallowKeepsSound(s: State, t: Tid, s': State)
    requires Sound(s) && ExpireWoken(s, t, s')
    ensures Sound(s')
  {
    assert PushSleepers(s') == PushSleepers(s);
    assert PushWakers(s') == PushWakers(s);
    assert MovesAlone(s, t, s');
    OtherKeepsTickets(s, t, s');
  }

  /** A swallowed signal leaves at most one more job uncovered. */
  lemma {:induction false} SwallowMissesOne(s: State, t: Tid, s': State, missed: nat)
    requires NoLostPop(s, missed) && ExpireWoken(s, t, s')
    ensures NoLostPop(s', missed + 1)
  {
    assert PopSleepers(s') == PopSleepers(s);
    assert PopWakers(s') == PopWakers(s) - {t};
  }

  lemma {:induction false} LooseStepKeeps(s: State, e: Event, s': State, missed: nat)
    requires LooseInv(s, missed) && LooseNext(s, e, s')
    ensures LooseInv(s', missed + if e.Swallow? then 1 else 0)
  {
    if e.Plain? {
      StepKeepsSound(s, e.l, s');
      StepKeepsNoLostPop(s, e.l, s', missed);
    } else {
      SwallowKeepsSound(s, e.t, s');
      SwallowMissesOne(s, e.t, s', missed);
    }
  }

  /**
   * Over every run with such timeouts, order, conservation and the producers' side are untouched, and the
   * consumers' side is off by at most the signals swallowed so far.
   */
  lemma {:induction false} LooseRunKeeps(ss: seq<State>, es: seq<Event>, i: nat)
    requires LooseRun(ss, es) && i < |ss|
    ensures LooseInv(ss[i], Swallowed(es, i))
    decreases i
  {
    if i > 0 {
      LooseRunKeeps(ss, es, i - 1);
      LooseStepKeeps(ss[i - 1], es[i - 1], ss[i], Swallowed(es, i - 1));
    }
  }

  ghost predicate NoTimed(s: State) {
    forall t <- s.threads :: s.threads[t] != Popping(Timed) && s.threads[t] != PopAsleep(Timed) &&
        s.threads[t] != PopWoken(Timed)
  }

  lemma {:induction false} StepKeepsNoTimed(s: State, l: Label, s': State)
    requires NoTimed(s) && Next(s, l, s') && !(l.CallPop? && l.mode.Timed?)
    ensures NoTimed(s')
  {
    if l.RunPush? && |s.queue| < s.capacity {
      PushMoves(s, l.t, l.woken, s');
    } else if l.RunPop? && s.queue != [] {
      PopMoves(s, l.t, l.woken, s');
    }
  }

  /** A run in which nobody pops with a deadline swallows nothing and has the full guarantee. */
  lemma {:induction false} UntimedRunsAreSafe(ss: seq<State>, es: seq<Event>, i: nat)
    requires LooseRun(ss, es) && i < |ss|
    requires forall j :: 0 <= j < i ==> es[j].Plain? && es[j].l.CallPop? ==> !es[j].l.mode.Timed?
    ensures NoTimed(ss[i]) && Swallowed(es, i) == 0 && NoLostPop(ss[i], 0)
    decreases i
  {
    LooseRunKeeps(ss, es, i);
    if i > 0 {
      UntimedRunsAreSafe(ss, es, i - 1);
      assert LooseNext(ss[i - 1], es[i - 1], ss[i]);
      if es[i - 1].Plain? {
        StepKeepsNoTimed(ss[i - 1], es[i - 1].l, ss[i]);
      }
    }
  }
}
