/** What a call of jobcache_push or jobcache_pop gets, over every run of the protocol (src/jobcache/jobcache.c). */
module JobCalls {
  import opened Jobs
  import opened JobProtocol

  /** The call a thread is in. */
  datatype Ask = AskPush(job: Job) | AskPop(mode: Mode) | NoAsk

  /** Told from the steps: the last call of `t` among the first `i`, unless it returned. */
  function AskOf(ls: seq<Label>, i: nat, t: Tid): Ask
    requires i <= |ls|
  {
    if i == 0 then NoAsk
    else if ls[i - 1].t != t then AskOf(ls, i - 1, t)
    else match ls[i - 1]
      case CallPush(_, job) => AskPush(job)
      case CallPop(_, mode) => AskPop(mode)
      case Return(_) => NoAsk
      case _ => AskOf(ls, i - 1, t)
  }

  /** What a thread in that call may have come to. */
  ghost predicate Serves(s: State, ask: Ask, t: Tid) {
    match ask
    case NoAsk => t !in s.threads
    case AskPush(job) =>
      && t in s.threads && ValidJob(job)
      && var p := s.threads[t];
         || (HasJob(p) && p.job == job)
         || (p.PushDone? && p.ticket < |s.pushed| && s.pushed[p.ticket] == Stored(job))
    case AskPop(mode) =>
      && t in s.threads
      && var p := s.threads[t];
         || ((p.Popping? || p.PopWoken?) && p.mode == mode)
         || (p == PopAsleep(mode) && mode != Poll)
         || (p.PopExpired? && mode == Timed)
         || (p.PopEmpty? && mode != Block)
         || (p.PopDone? && p.ticket < |s.popped|)
  }

  /** What another thread's step can do: wake this one, and add to the history. */
  ghost predicate Beside(s: State, t: Tid, s': State) {
    && (t in s'.threads <==> t in s.threads)
    && (t in s.threads ==> s'.threads[t] == s.threads[t] || s'.threads[t] == Awake(s.threads[t]))
    && s.pushed <= s'.pushed && s.popped <= s'.popped
  }

  lemma {:induction false} OthersStepBeside(s: State, l: Label, s': State, t: Tid)
    requires Next(s, l, s') && l.t != t
    ensures Beside(s, t, s')
  {
    if l.RunPush? && |s.queue| < s.capacity {
      PushMoves(s, l.t, l.woken, s');
    } else if l.RunPop? && s.queue != [] {
      PopMoves(s, l.t, l.woken, s');
    }
  }

  lemma {:induction false} BesideServes(s: State, ask: Ask, t: Tid, s': State)
    requires Serves(s, ask, t) && Beside(s, t, s')
    ensures Serves(s', ask, t)
  {
  }

  lemma {:induction false} OwnStepServes(s: State, ask: Ask, l: Label, s': State)
    requires Serves(s, ask, l.t) && Next(s, l, s')
    ensures Serves(s', match l { case CallPush(_, job) => AskPush(job) case CallPop(_, mode) => AskPop(mode)
                                 case Return(_) => NoAsk case _ => ask }, l.t)
  {
  }

  /**
   * In every run a push returns only with its own job in the queue, and a pop with a ticket or empty-handed: one
   * without a deadline never returns empty-handed, and only one with a deadline ever times out.
   */
  lemma {:induction false} CallsAreServed(ss: seq<State>, ls: seq<Label>, i: nat, t: Tid)
    requires Run(ss, ls) && i < |ss|
    ensures Serves(ss[i], AskOf(ls, i, t), t)
    decreases i
  {
    if i > 0 {
      CallsAreServed(ss, ls, i - 1, t);
      var s, l, s' := ss[i - 1], ls[i - 1], ss[i];
      assert Next(s, l, s');
      if l.t == t {
        OwnStepServes(s, AskOf(ls, i - 1, t), l, s');
      } else {
        OthersStepBeside(s, l, s', t);
        BesideServes(s, AskOf(ls, i - 1, t), t, s');
      }
    }
  }

  /**
   * What a critical section decides: a push goes to sleep exactly if the ring is full, and else puts its job
   * behind the queue; a pop takes the job at the front exactly if there is one, and else sleeps unless it polls.
   */
  lemma {:induction false} SectionDecides(s: State, l: Label, s': State)
    requires Fifo(s) && Next(s, l, s')
    ensures l.RunPush? ==>
              && (s'.threads[l.t].PushAsleep? <==> |s.queue| == s.capacity)
              && (|s.queue| < s.capacity ==> s'.queue == s.queue + [Stored(s.threads[l.t].job)])
              && (|s.queue| == s.capacity ==> s'.queue == s.queue)
    ensures l.RunPop? ==>
              && (s'.threads[l.t].PopDone? <==> s.queue != [])
              && (s.queue != [] ==> [s.pushed[s'.threads[l.t].ticket]] + s'.queue == s.queue)
              && (s.queue == [] ==> s'.queue == [] && (s'.threads[l.t].PopEmpty? <==> s.threads[l.t].mode == Poll))
  {
    if l.RunPop? && s.queue != [] {
      assert s.pushed[|s.popped|] == s.queue[0];
    }
  }
}
