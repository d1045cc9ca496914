/** What every step of the job service keeps, and what that means for whole runs. */
module JobServiceInv {
  import opened Basics
  import opened Jobs
  import opened JobService
  import Cache = JobProtocol

  // ---------------------------------------------------------------- the cache seen from outside

  /** Inside jobcache_pop without a ticket. */
  ghost predicate Seeking(p: Cache.Place) {
    p.Popping? || p.PopAsleep? || p.PopWoken? || p.PopExpired? || p.PopEmpty?
  }

  ghost predicate SameCall(p: Cache.Place, q: Cache.Place) {
    || (Cache.HasJob(p) && Cache.HasJob(q) && p.job == q.job)
    || (Seeking(p) && Seeking(q))
    || p == q
  }

  ghost predicate OthersSame(c: Cache.State, t: Tid, c': Cache.State) {
    && c'.threads.Keys == c.threads.Keys
    && forall u <- c.threads | u != t :: SameCall(c.threads[u], c'.threads[u])
  }

  /** A step inside the cache that neither accepts nor hands out a job. */
  ghost predicate Quiet(c: Cache.State, t: Tid, c': Cache.State) {
    && t in c.threads && OthersSame(c, t, c') && SameCall(c.threads[t], c'.threads[t])
    && c'.pushed == c.pushed && c'.popped == c.popped && c'.queue == c.queue
  }

  ghost predicate Accepts(c: Cache.State, t: Tid, c': Cache.State) {
    && t in c.threads && OthersSame(c, t, c')
    && Cache.HasJob(c.threads[t]) && ValidJob(c.threads[t].job)
    && c'.threads[t] == Cache.PushDone(|c.pushed|)
    && c'.pushed == c.pushed + [Stored(c.threads[t].job)] && c'.popped == c.popped
  }

  ghost predicate Takes(c: Cache.State, t: Tid, c': Cache.State) {
    && t in c.threads && OthersSame(c, t, c')
    && Seeking(c.threads[t]) && c'.threads[t] == Cache.PopDone(|c.popped|)
    && c'.pushed == c.pushed && |c'.popped| == |c.popped| + 1
  }

  lemma {:induction false} CacheStepShapes(c: Cache.State, l: Cache.Label, c': Cache.State)
    requires Cache.Next(c, l, c') && Internal(l)
    ensures Quiet(c, l.t, c') || Accepts(c, l.t, c') || Takes(c, l.t, c')
  {
    match l {
      case RunPush(t, woken) =>
        if |c.queue| < c.capacity {
          Cache.PushMoves(c, t, woken, c');
        }
      case RunPop(t, woken) =>
        if c.queue != [] {
          Cache.PopMoves(c, t, woken, c');
        }
      case _ =>
    }
  }

  // ---------------------------------------------------------------- invariants

  ghost predicate InCall(p: Prog) {
    p.Submitting? || p.Requesting? || p.Fetching?
  }

  /** A thread is inside the cache exactly when its program says so, with the job it brought. */
  ghost predicate Coupled(s: State) {
    && (forall t <- s.cache.threads :: t in s.prog && InCall(s.prog[t]))
    && (forall t <- s.prog :: InCall(s.prog[t]) ==> t in s.cache.threads)
    && (forall t <- s.cache.threads :: CallMatches(s.cache, s.prog[t], s.cache.threads[t]))
  }

  ghost predicate CallMatches(c: Cache.State, p: Prog, place: Cache.Place) {
    match p
    case Fetching => Seeking(place) || place.PopDone?
    case Submitting =>
      || (Cache.HasJob(place) && place.job.ctx == None)
      || (place.PushDone? && place.ticket < |c.pushed| && c.pushed[place.ticket].ctx == None)
    case Requesting(req) =>
      || (Cache.HasJob(place) && place.job == req)
      || (place.PushDone? && place.ticket < |c.pushed| && ValidJob(req) && c.pushed[place.ticket] == Stored(req))
    case _ => false
  }

  /** The ticket a worker is responsible for. */
  ghost function Held(s: State, t: Tid): Option<nat> {
    if t !in s.prog then None else
    match s.prog[t]
    case Working(k) => Some(k)
    case Replying(k, _) => Some(k)
    case Fetching =>
      if t in s.cache.threads && s.cache.threads[t].PopDone? then Some(s.cache.threads[t].ticket) else None
    case _ => None
  }

  /** Each handed-out ticket is with exactly one worker or finished, never both. */
  ghost predicate TicketsAccounted(s: State) {
    && (forall t :: Held(s, t).Some? ==> Held(s, t).value < |s.cache.popped| && Held(s, t).value !in s.replied)
    && (forall t, u | t != u && Held(s, t).Some? :: Held(s, t) != Held(s, u))
    && (forall k :: 0 <= k < |s.cache.popped| ==> k in s.replied || exists t :: Held(s, t) == Some(k))
    && (forall k <- s.replied :: k < |s.cache.popped|)
  }

  /** Results exist exactly for tickets that were dispatched, and are never overwritten. */
  ghost predicate ResultsAccounted(s: State) {
    && s.dispatcher.Keys == s.results.Keys
    && (forall k <- s.replied :: k in s.results)
    && (forall k <- s.results ::
          k < |s.cache.popped| && k < |s.cache.pushed| && DispatchAllows(s.cache.pushed[k], s.results[k]))
    && (forall t <- s.prog :: s.prog[t].Replying? ==>
          s.prog[t].k in s.results && s.results[s.prog[t].k] == s.prog[t].res && s.dispatcher[s.prog[t].k] == t)
    && (forall t :: Held(s, t).Some? && !IsReplying(s, t) ==> Held(s, t).value !in s.results)
  }

  ghost predicate IsReplying(s: State, t: Tid) {
    t in s.prog && s.prog[t].Replying?
  }

  ghost predicate Owner(p: Prog) {
    p.Requesting? || p.Awaiting? || p.ReplyAsleep? || p.ReplyWoken? || p.Answered?
  }

  /** The ticket whose answer a gateway thread is waiting for. */
  ghost function Expects(s: State, t: Tid): Option<nat> {
    if t !in s.prog then None else
    match s.prog[t]
    case Awaiting(_, k) => Some(k)
    case ReplyAsleep(_, k) => Some(k)
    case ReplyWoken(_, k) => Some(k)
    case Requesting(_) =>
      if t in s.cache.threads && s.cache.threads[t].PushDone? then Some(s.cache.threads[t].ticket) else None
    case _ => None
  }

  /** Live contexts belong to one gateway thread each. */
  ghost predicate ContextsOwned(s: State) {
    && (forall t <- s.prog :: Owner(s.prog[t]) ==> s.prog[t].req.ctx.Some? && s.prog[t].req.ctx.value in s.boxes)
    && (forall t <- s.prog, u <- s.prog | t != u && Owner(s.prog[t]) && Owner(s.prog[u]) ::
          s.prog[t].req.ctx != s.prog[u].req.ctx)
  }

  /** The box of a waiting thread is done exactly when its own ticket has been answered. */
  ghost predicate BoxMatches(s: State, t: Tid)
    requires t in s.prog && Owner(s.prog[t]) && s.prog[t].req.ctx.Some? && s.prog[t].req.ctx.value in s.boxes
  {
    var req := s.prog[t].req;
    var box := s.boxes[req.ctx.value];
    if s.prog[t].Answered? then
      var k := s.prog[t].k;
      && TicketOf(s, k, req)
      && k in s.replied && k in s.results && s.prog[t].text == ReplyText(s.results[k])
    else if Expects(s, t).None? then
      !box.done
    else
      var k := Expects(s, t).value;
      && TicketOf(s, k, req)
      && (box.done <==> k in s.replied)
      && (k in s.replied ==> k in s.results && box.buffer == ReplyText(s.results[k]))
      && (s.prog[t].ReplyAsleep? ==> k !in s.replied)
  }

  ghost predicate TicketOf(s: State, k: nat, req: Job) {
    k < |s.cache.pushed| && ValidJob(req) && s.cache.pushed[k] == Stored(req)
  }

  ghost predicate BoxesMatch(s: State)
    requires ContextsOwned(s)
  {
    forall t <- s.prog :: Owner(s.prog[t]) ==> BoxMatches(s, t)
  }

  /** Every job with a callback that is not answered yet has its thread waiting for it. */
  ghost predicate WaitersPresent(s: State) {
    forall k :: 0 <= k < |s.cache.pushed| && k !in s.replied && s.cache.pushed[k].ctx.Some? ==>
      exists t :: Expects(s, t) == Some(k)
  }

  ghost predicate ServiceInv(s: State) {
    && Cache.Sound(s.cache)
    && Coupled(s)
    && TicketsAccounted(s)
    && ResultsAccounted(s)
    && ContextsOwned(s)
    && BoxesMatch(s)
    && WaitersPresent(s)
    && !s.fault
  }

  lemma {:induction false} InitInv(s: State)
    requires Init(s)
    ensures ServiceInv(s)
  {
  }

  // ---------------------------------------------------------------- steps inside the cache

  lemma {:induction false} CacheKeepsCoupled(s: State, t: Tid, s': State)
    requires Coupled(s) && s' == s.(cache := s'.cache)
    requires Quiet(s.cache, t, s'.cache) || Accepts(s.cache, t, s'.cache) || Takes(s.cache, t, s'.cache)
    ensures Coupled(s')
  {
  }

  lemma {:induction false} CacheMovesHeld(s: State, t: Tid, s': State)
    requires Coupled(s) && s' == s.(cache := s'.cache)
    requires Quiet(s.cache, t, s'.cache) || Accepts(s.cache, t, s'.cache) || Takes(s.cache, t, s'.cache)
    ensures forall u :: u != t ==> Held(s', u) == Held(s, u)
    ensures if Takes(s.cache, t, s'.cache) then Held(s, t) == None && Held(s', t) == Some(|s.cache.popped|)
            else Held(s', t) == Held(s, t)
    ensures Takes(s.cache, t, s'.cache) ==> !IsReplying(s, t)
  {
    assert t in s.cache.threads;
    assert CallMatches(s.cache, s.prog[t], s.cache.threads[t]);
    forall u | u != t
      ensures Held(s', u) == Held(s, u)
    {
      if u in s.cache.threads {
        assert SameCall(s.cache.threads[u], s'.cache.threads[u]);
      }
    }
  }

  lemma {:induction false} CacheMovesExpects(s: State, t: Tid, s': State)
    requires Coupled(s) && s' == s.(cache := s'.cache)
    requires Quiet(s.cache, t, s'.cache) || Accepts(s.cache, t, s'.cache) || Takes(s.cache, t, s'.cache)
    ensures t in s.prog
    ensures forall u :: u != t ==> Expects(s', u) == Expects(s, u)
    ensures if Accepts(s.cache, t, s'.cache) && s.prog[t].Requesting?
            then Expects(s, t) == None && Expects(s', t) == Some(|s.cache.pushed|)
            else Expects(s', t) == Expects(s, t)
  {
    assert t in s.cache.threads;
    assert CallMatches(s.cache, s.prog[t], s.cache.threads[t]);
    forall u | u != t
      ensures Expects(s', u) == Expects(s, u)
    {
      if u in s.cache.threads {
        assert SameCall(s.cache.threads[u], s'.cache.threads[u]);
      }
    }
  }

  // ---------------------------------------------------------------- frames

  ghost predicate SameHeld(s: State, s': State) {
    forall u :: Held(s', u) == Held(s, u)
  }

  ghost predicate SameExpects(s: State, s': State) {
    forall u :: Expects(s', u) == Expects(s, u)
  }

  /** Nothing a ticket's fate depends on has changed. */
  lemma {:induction false} TicketsFrame(s: State, s': State)
    requires TicketsAccounted(s) && SameHeld(s, s')
    requires |s'.cache.popped| == |s.cache.popped| && s'.replied == s.replied
    ensures TicketsAccounted(s')
  {
    forall k | 0 <= k < |s'.cache.popped|
      ensures k in s'.replied || exists t :: Held(s', t) == Some(k)
    {
      if k !in s.replied {
        var t :| Held(s, t) == Some(k);
        assert Held(s', t) == Some(k);
      }
    }
  }

  /** A worker receives the next ticket. */
  lemma {:induction false} TicketsGrow(s: State, t: Tid, s': State)
    requires TicketsAccounted(s) && s'.replied == s.replied
    requires forall u :: u != t ==> Held(s', u) == Held(s, u)
    requires Held(s, t) == None && Held(s', t) == Some(|s.cache.popped|) && |s'.cache.popped| == |s.cache.popped| + 1
    ensures TicketsAccounted(s')
  {
    forall k | 0 <= k < |s'.cache.popped|
      ensures k in s'.replied || exists u :: Held(s', u) == Some(k)
    {
      if k == |s.cache.popped| {
        assert Held(s', t) == Some(k);
      } else if k !in s.replied {
        var u :| Held(s, u) == Some(k);
        assert Held(s', u) == Some(k);
      }
    }
  }

  lemma {:induction false} ResultsFrame(s: State, t: Tid, s': State)
    requires ResultsAccounted(s)
    requires s'.results == s.results && s'.dispatcher == s.dispatcher && s'.replied == s.replied
    requires |s.cache.popped| <= |s'.cache.popped| && s.cache.pushed <= s'.cache.pushed
    requires forall u :: u != t ==> Held(s', u) == Held(s, u)
    requires Held(s', t) == Held(s, t) || Held(s', t) == Some(|s.cache.popped|)
    requires forall u <- s'.prog :: s'.prog[u].Replying? ==> u in s.prog && s'.prog[u] == s.prog[u]
    requires !IsReplying(s', t) && !IsReplying(s, t)
    requires forall u :: u != t ==> IsReplying(s', u) == IsReplying(s, u)
    ensures ResultsAccounted(s')
  {
  }

  lemma {:induction false} WaitersFrame(s: State, s': State)
    requires WaitersPresent(s) && SameExpects(s, s')
    requires s'.cache.pushed == s.cache.pushed && s'.replied == s.replied
    ensures WaitersPresent(s')
  {
    forall k | 0 <= k < |s'.cache.pushed| && k !in s'.replied && s'.cache.pushed[k].ctx.Some?
      ensures exists t :: Expects(s', t) == Some(k)
    {
      var t :| Expects(s, t) == Some(k);
      assert Expects(s', t) == Some(k);
    }
  }

  /** Other threads see the same boxes; the moving thread is treated apart. */
  lemma {:induction false} BoxesFrame(s: State, t: Tid, s': State)
    requires ContextsOwned(s) && BoxesMatch(s) && ContextsOwned(s')
    requires s'.replied == s.replied && s.cache.pushed <= s'.cache.pushed
    requires forall k <- s.replied :: k in s.results ==> k in s'.results && s'.results[k] == s.results[k]
    requires forall u <- s'.prog | u != t && Owner(s'.prog[u]) ::
               && u in s.prog && s'.prog[u] == s.prog[u] && Expects(s', u) == Expects(s, u)
               && s.prog[u].req.ctx.value in s.boxes
               && s'.boxes[s.prog[u].req.ctx.value] == s.boxes[s.prog[u].req.ctx.value]
    requires t in s'.prog && Owner(s'.prog[t]) ==> BoxMatches(s', t)
    ensures BoxesMatch(s')
  {
    forall u <- s'.prog | Owner(s'.prog[u])
      ensures BoxMatches(s', u)
    {
      if u != t {
        assert BoxMatches(s, u);
      }
    }
  }

  // ---------------------------------------------------------------- steps inside the cache, concluded

  lemma {:induction false} CacheKeepsTickets(s: State, t: Tid, s': State)
    requires Coupled(s) && TicketsAccounted(s) && ResultsAccounted(s) && s' == s.(cache := s'.cache)
    requires Quiet(s.cache, t, s'.cache) || Accepts(s.cache, t, s'.cache) || Takes(s.cache, t, s'.cache)
    ensures TicketsAccounted(s') && ResultsAccounted(s')
  {
    CacheMovesHeld(s, t, s');
    if Takes(s.cache, t, s'.cache) {
      TicketsGrow(s, t, s');
    } else {
      TicketsFrame(s, s');
    }
    assert CallMatches(s.cache, s.prog[t], s.cache.threads[t]);
    ResultsFrame(s, t, s');
  }

  /** A job is accepted: its submitter expects the new ticket, or has no callback. */
  lemma {:induction false} AcceptKeepsBoxes(s: State, t: Tid, job: Job, s': State)
    requires ContextsOwned(s) && BoxesMatch(s) && WaitersPresent(s) && s' == s.(cache := s'.cache)
    requires t in s.prog && ValidJob(job) && s'.cache.pushed == s.cache.pushed + [Stored(job)]
    requires |s.cache.pushed| !in s.replied
    requires forall u :: u != t ==> Expects(s', u) == Expects(s, u)
    requires || (s.prog[t] == Requesting(job) && Expects(s, t) == None && Expects(s', t) == Some(|s.cache.pushed|))
             || (s.prog[t].Submitting? && job.ctx == None)
    ensures ContextsOwned(s') && BoxesMatch(s') && WaitersPresent(s')
  {
    assert Owner(s.prog[t]) ==> BoxMatches(s, t);
    BoxesFrame(s, t, s');
    forall k | 0 <= k < |s'.cache.pushed| && k !in s'.replied && s'.cache.pushed[k].ctx.Some?
      ensures exists u :: Expects(s', u) == Some(k)
    {
      if k < |s.cache.pushed| {
        var u :| Expects(s, u) == Some(k);
        assert Expects(s', u) == Some(k);
      } else {
        assert Expects(s', t) == Some(k);
      }
    }
  }

  lemma {:induction false} QuietKeepsBoxes(s: State, t: Tid, s': State)
    requires ContextsOwned(s) && BoxesMatch(s) && WaitersPresent(s) && s' == s.(cache := s'.cache)
    requires SameExpects(s, s') && s'.cache.pushed == s.cache.pushed
    ensures ContextsOwned(s') && BoxesMatch(s') && WaitersPresent(s')
  {
    assert t in s.prog && Owner(s.prog[t]) ==> BoxMatches(s, t);
    BoxesFrame(s, t, s');
    WaitersFrame(s, s');
  }

  lemma {:induction false} CacheKeepsBoxes(s: State, t: Tid, s': State)
    requires Coupled(s) && TicketsAccounted(s) && ContextsOwned(s) && BoxesMatch(s) && WaitersPresent(s)
    requires |s.cache.popped| <= |s.cache.pushed| && s' == s.(cache := s'.cache)
    requires Quiet(s.cache, t, s'.cache) || Accepts(s.cache, t, s'.cache) || Takes(s.cache, t, s'.cache)
    ensures ContextsOwned(s') && BoxesMatch(s') && WaitersPresent(s')
  {
    CacheMovesExpects(s, t, s');
    if Accepts(s.cache, t, s'.cache) {
      assert CallMatches(s.cache, s.prog[t], s.cache.threads[t]);
      AcceptKeepsBoxes(s, t, s.cache.threads[t].job, s');
    } else {
      QuietKeepsBoxes(s, t, s');
    }
  }

  /** The thread that moves inside the cache. */
  ghost function Actor(l: Label): Tid {
    if l.InCache? then l.l.t else if l.Swallow? then l.t else 0
  }

  lemma {:induction false} CacheStepIsOne(s: State, l: Label, s': State)
    requires Cache.Sound(s.cache) && CacheStep(s, l, s')
    ensures Cache.Sound(s'.cache)
    ensures var t := Actor(l);
      Quiet(s.cache, t, s'.cache) || Accepts(s.cache, t, s'.cache) || Takes(s.cache, t, s'.cache)
  {
    if l.InCache? {
      Cache.StepKeepsSound(s.cache, l.l, s'.cache);
      CacheStepShapes(s.cache, l.l, s'.cache);
    } else {
      Cache.SwallowKeepsSound(s.cache, l.t, s'.cache);
      assert Quiet(s.cache, l.t, s'.cache);
    }
  }

  lemma {:induction false} CacheStepKeeps(s: State, l: Label, s': State)
    requires ServiceInv(s) && CacheStep(s, l, s')
    ensures ServiceInv(s')
  {
    CacheStepIsOne(s, l, s');
    CacheKeepsCoupled(s, Actor(l), s');
    CacheKeepsTickets(s, Actor(l), s');
    CacheKeepsBoxes(s, Actor(l), s');
  }

  // ---------------------------------------------------------------- one thread moves

  /** Only thread `t` moves, and no ticket, result or accepted job changes. */
  ghost predicate OneMoves(s: State, t: Tid, s': State) {
    && (forall u :: u != t ==> (u in s'.prog <==> u in s.prog))
    && (forall u <- s.prog | u != t :: s'.prog[u] == s.prog[u])
    && (forall u :: u != t ==> (u in s'.cache.threads <==> u in s.cache.threads))
    && (forall u <- s.cache.threads | u != t :: s'.cache.threads[u] == s.cache.threads[u])
    && s'.cache.pushed == s.cache.pushed && s'.cache.popped == s.cache.popped && s'.cache.queue == s.cache.queue
    && s'.replied == s.replied && s'.results == s.results && s'.dispatcher == s.dispatcher
    && s'.fault == s.fault
  }

  lemma {:induction false} OneMovesKeepsCoupled(s: State, t: Tid, s': State)
    requires Coupled(s) && OneMoves(s, t, s')
    requires t in s'.cache.threads <==> (t in s'.prog && InCall(s'.prog[t]))
    requires t in s'.cache.threads ==> CallMatches(s'.cache, s'.prog[t], s'.cache.threads[t])
    ensures Coupled(s')
  {
  }

  lemma {:induction false} OneMovesKeepsTickets(s: State, t: Tid, s': State)
    requires TicketsAccounted(s) && ResultsAccounted(s) && OneMoves(s, t, s')
    requires Held(s', t) == Held(s, t) && !IsReplying(s, t) && !IsReplying(s', t)
    ensures TicketsAccounted(s') && ResultsAccounted(s')
  {
    assert SameHeld(s, s');
    TicketsFrame(s, s');
    ResultsFrame(s, t, s');
  }

  lemma {:induction false} OneMovesKeepsBoxes(s: State, t: Tid, s': State)
    requires ContextsOwned(s) && BoxesMatch(s) && WaitersPresent(s) && OneMoves(s, t, s')
    requires ContextsOwned(s')
    requires forall u <- s.prog | u != t && Owner(s.prog[u]) ::
               s'.boxes[s.prog[u].req.ctx.value] == s.boxes[s.prog[u].req.ctx.value]
    requires t in s'.prog && Owner(s'.prog[t]) ==> BoxMatches(s', t)
    requires Expects(s', t) == Expects(s, t) || (Expects(s, t).Some? && Expects(s, t).value in s.replied)
    ensures BoxesMatch(s') && WaitersPresent(s')
  {
    BoxesFrame(s, t, s');
    forall k | 0 <= k < |s'.cache.pushed| && k !in s'.replied && s'.cache.pushed[k].ctx.Some?
      ensures exists u :: Expects(s', u) == Some(k)
    {
      var u :| Expects(s, u) == Some(k);
      assert Expects(s', u) == Some(k);
    }
  }

  ghost function OwnedCtx(s: State, t: Tid): Option<Ctx> {
    if t in s.prog && Owner(s.prog[t]) then s.prog[t].req.ctx else None
  }

  /** What the moving thread itself has to respect. */
  ghost predicate MoveIsSound(s: State, t: Tid, s': State) {
    && OneMoves(s, t, s')
    && (t in s'.cache.threads <==> (t in s'.prog && InCall(s'.prog[t])))
    && (t in s'.cache.threads ==> CallMatches(s'.cache, s'.prog[t], s'.cache.threads[t]))
    && Held(s', t) == Held(s, t) && !IsReplying(s, t) && !IsReplying(s', t)
    && (Expects(s', t) == Expects(s, t) || (Expects(s, t).Some? && Expects(s, t).value in s.replied))
    && (forall c <- s.boxes | OwnedCtx(s, t) != Some(c) :: c in s'.boxes && s'.boxes[c] == s.boxes[c])
    && (t in s'.prog && Owner(s'.prog[t]) ==>
          && OwnedCtx(s', t).Some? && OwnedCtx(s', t).value in s'.boxes
          && (OwnedCtx(s', t) == OwnedCtx(s, t) || OwnedCtx(s', t).value !in s.boxes)
          && BoxMatches(s', t))
  }

  lemma {:induction false} OneMovesKeepsOwners(s: State, t: Tid, s': State)
    requires ContextsOwned(s) && MoveIsSound(s, t, s')
    ensures ContextsOwned(s')
  {
    forall u <- s'.prog | u != t && Owner(s'.prog[u])
      ensures s'.prog[u].req.ctx.Some? && s'.prog[u].req.ctx.value in s'.boxes
      ensures t in s'.prog && Owner(s'.prog[t]) ==> s'.prog[u].req.ctx != s'.prog[t].req.ctx
    {
      assert u in s.prog && s.prog[u] == s'.prog[u];
      assert OwnedCtx(s, u) == s.prog[u].req.ctx;
    }
  }

  lemma {:induction false} OneMovesKeeps(s: State, t: Tid, s': State)
    requires ServiceInv(s) && Cache.Sound(s'.cache) && MoveIsSound(s, t, s')
    ensures ServiceInv(s')
  {
    OneMovesKeepsCoupled(s, t, s');
    OneMovesKeepsTickets(s, t, s');
    OneMovesKeepsOwners(s, t, s');
    forall u <- s.prog | u != t && Owner(s.prog[u])
      ensures s'.boxes[s.prog[u].req.ctx.value] == s.boxes[s.prog[u].req.ctx.value]
    {
      assert OwnedCtx(s, u) != OwnedCtx(s, t);
    }
    OneMovesKeepsBoxes(s, t, s');
  }

  lemma {:induction false} ClientMovesAlone(s: State, l: Label, s': State)
    requires ClientStep(s, l, s')
    ensures OneMoves(s, l.t, s')
  {
  }

  lemma {:induction false} WorkerMovesAlone(s: State, l: Label, s': State)
    requires WorkerStep(s, l, s') && !l.Dispatch? && !l.Callback?
    ensures OneMoves(s, l.t, s')
  {
  }

  lemma {:induction false} CallPushIsSound(s: State, t: Tid, job: Job, s': State)
    requires Coupled(s) && OneMoves(s, t, s')
    requires ClientStep(s, Submit(t, job), s') || ClientStep(s, Request(t, job), s')
    ensures MoveIsSound(s, t, s')
  {
  }

  lemma {:induction false} PushReturnedIsSound(s: State, t: Tid, s': State)
    requires Coupled(s) && ContextsOwned(s) && BoxesMatch(s)
    requires OneMoves(s, t, s') && ClientStep(s, PushReturned(t), s')
    ensures MoveIsSound(s, t, s')
  {
    assert CallMatches(s.cache, s.prog[t], s.cache.threads[t]);
    assert Owner(s.prog[t]) ==> BoxMatches(s, t);
  }

  lemma {:induction false} WaitReplyIsSound(s: State, t: Tid, s': State)
    requires Coupled(s) && ContextsOwned(s) && BoxesMatch(s) && OneMoves(s, t, s')
    requires ClientStep(s, WaitReply(t), s') || ClientStep(s, SpuriousReply(t), s')
    ensures MoveIsSound(s, t, s')
  {
    assert BoxMatches(s, t);
  }

  lemma {:induction false} FinishRequestIsSound(s: State, t: Tid, s': State)
    requires Coupled(s) && ContextsOwned(s) && OneMoves(s, t, s') && ClientStep(s, FinishRequest(t), s')
    ensures MoveIsSound(s, t, s')
  {
  }

  lemma {:induction false} LoopEntersIsSound(s: State, t: Tid, s': State)
    requires Coupled(s) && OneMoves(s, t, s') && WorkerStep(s, LoopTest(t), s') && s.pool.running
    ensures MoveIsSound(s, t, s')
  {
    assert s'.cache.threads[t] == Cache.Popping(Cache.Timed) && s'.prog[t] == Fetching;
  }

  lemma {:induction false} LoopLeavesIsSound(s: State, t: Tid, s': State)
    requires Coupled(s) && OneMoves(s, t, s') && WorkerStep(s, LoopTest(t), s') && !s.pool.running
    ensures MoveIsSound(s, t, s')
  {
    assert s'.prog[t] == Exited && s'.cache == s.cache;
  }

  lemma {:induction false} LoopTestIsSound(s: State, t: Tid, s': State)
    requires Coupled(s) && OneMoves(s, t, s') && WorkerStep(s, LoopTest(t), s')
    ensures MoveIsSound(s, t, s')
  {
    if s.pool.running {
      LoopEntersIsSound(s, t, s');
    } else {
      LoopLeavesIsSound(s, t, s');
    }
  }

  /** A worker is back from jobcache_pop, with what it held inside. */
  lemma {:induction false} PopReturnedIsSound(s: State, t: Tid, s': State)
    requires OneMoves(s, t, s') && t in s.prog && s.prog[t].Fetching? && s'.boxes == s.boxes
    requires t in s'.prog && (s'.prog[t].AtLoop? || s'.prog[t].Exited? || s'.prog[t].Working?)
    requires t !in s'.cache.threads && Held(s', t) == Held(s, t)
    ensures MoveIsSound(s, t, s')
  {
    assert OwnedCtx(s, t) == None && Expects(s, t) == None == Expects(s', t);
  }

  lemma {:induction false} FetchedIsSound(s: State, t: Tid, s': State)
    requires OneMoves(s, t, s') && t in s.prog && s.prog[t].Fetching? && s'.boxes == s.boxes
    requires t in s.cache.threads && s.cache.threads[t].PopDone? && t !in s'.cache.threads
    requires t in s'.prog && s'.prog[t] == Working(s.cache.threads[t].ticket)
    ensures MoveIsSound(s, t, s')
  {
    assert Held(s, t) == Some(s.cache.threads[t].ticket) == Held(s', t);
    PopReturnedIsSound(s, t, s');
  }

  lemma {:induction false} FetchFailedIsSound(s: State, t: Tid, s': State)
    requires OneMoves(s, t, s') && t in s.prog && s.prog[t].Fetching? && s'.boxes == s.boxes
    requires t in s.cache.threads && s.cache.threads[t].PopEmpty? && t !in s'.cache.threads
    requires t in s'.prog && (s'.prog[t].AtLoop? || s'.prog[t].Exited?)
    ensures MoveIsSound(s, t, s')
  {
    assert Held(s, t) == None == Held(s', t);
    PopReturnedIsSound(s, t, s');
  }

  lemma {:induction false} ClientStepKeeps(s: State, l: Label, s': State)
    requires ServiceInv(s) && ClientStep(s, l, s')
    ensures ServiceInv(s')
  {
    ClientMovesAlone(s, l, s');
    match l {
      case Submit(t, job) =>
        Cache.StepKeepsSound(s.cache, Cache.CallPush(t, job), s'.cache);
        CallPushIsSound(s, t, job, s');
      case Request(t, job) =>
        Cache.StepKeepsSound(s.cache, Cache.CallPush(t, job), s'.cache);
        CallPushIsSound(s, t, job, s');
      case PushReturned(t) =>
        Cache.StepKeepsSound(s.cache, Cache.Return(t), s'.cache);
        PushReturnedIsSound(s, t, s');
      case WaitReply(t) => WaitReplyIsSound(s, t, s');
      case SpuriousReply(t) => WaitReplyIsSound(s, t, s');
      case FinishRequest(t) => FinishRequestIsSound(s, t, s');
    }
    OneMovesKeeps(s, l.t, s');
  }

  // ---------------------------------------------------------------- dispatch and callback

  lemma {:induction false} DispatchFrame(s: State, t: Tid, res: Outcome, s': State)
    requires WorkerStep(s, Dispatch(t, res), s')
    ensures SameHeld(s, s') && SameExpects(s, s') && !IsReplying(s, t)
  {
  }

  lemma {:induction false} DispatchKeepsBoxes(s: State, t: Tid, k: nat, res: Outcome, s': State)
    requires Coupled(s) && ContextsOwned(s) && BoxesMatch(s) && WaitersPresent(s) && SameExpects(s, s')
    requires t in s.prog && s.prog[t] == Working(k) && k !in s.replied
    requires s' ==
             s.(prog := s.prog[t := Replying(k, res)], results := s.results[k := res], dispatcher := s'.dispatcher)
    ensures Coupled(s') && ContextsOwned(s') && BoxesMatch(s') && WaitersPresent(s')
  {
    BoxesFrame(s, t, s');
    WaitersFrame(s, s');
  }

  lemma {:induction false} OthersHoldOther(s: State, t: Tid, k: nat)
    requires TicketsAccounted(s) && Held(s, t) == Some(k)
    ensures forall u <- s.prog | u != t && s.prog[u].Replying? :: s.prog[u].k != k
    ensures forall u | u != t && Held(s, u).Some? :: Held(s, u).value != k
  {
    forall u <- s.prog | u != t && s.prog[u].Replying?
      ensures s.prog[u].k != k
    {
      assert Held(s, u) == Some(s.prog[u].k);
    }
  }

  /** What a dispatch writes. */
  ghost predicate Recorded(s: State, t: Tid, k: nat, res: Outcome, s': State) {
    && t in s.prog && s.prog[t] == Working(k)
    && s' == s.(prog := s.prog[t := Replying(k, res)], results := s.results[k := res],
        dispatcher := s.dispatcher[k := t])
  }

  lemma {:induction false} RepliesStayRecorded(s: State, t: Tid, k: nat, res: Outcome, s': State)
    requires ResultsAccounted(s) && Recorded(s, t, k, res, s')
    requires forall u <- s.prog | u != t && s.prog[u].Replying? :: s.prog[u].k != k
    ensures forall u <- s'.prog :: s'.prog[u].Replying? ==>
              s'.prog[u].k in s'.results && s'.results[s'.prog[u].k] == s'.prog[u].res &&
                  s'.dispatcher[s'.prog[u].k] == u
  {
    forall u <- s'.prog | s'.prog[u].Replying?
      ensures s'.prog[u].k in s'.results && s'.results[s'.prog[u].k] == s'.prog[u].res &&
              s'.dispatcher[s'.prog[u].k] == u
    {
      if u != t {
        assert s'.prog[u] == s.prog[u];
      }
    }
  }

  lemma {:induction false} DispatchKeepsResults(s: State, t: Tid, k: nat, res: Outcome, s': State)
    requires ResultsAccounted(s) && SameHeld(s, s') && Recorded(s, t, k, res, s')
    requires k < |s.cache.popped| && k < |s.cache.pushed| && DispatchAllows(s.cache.pushed[k], res)
    requires forall u <- s.prog | u != t && s.prog[u].Replying? :: s.prog[u].k != k
    requires forall u | u != t && Held(s, u).Some? :: Held(s, u).value != k
    ensures ResultsAccounted(s')
  {
    RepliesStayRecorded(s, t, k, res, s');
    forall u | Held(s', u).Some? && !IsReplying(s', u)
      ensures Held(s', u).value !in s'.results
    {
      assert u != t && !IsReplying(s, u);
    }
  }

  lemma {:induction false} DispatchKeeps(s: State, t: Tid, res: Outcome, s': State)
    requires ServiceInv(s) && WorkerStep(s, Dispatch(t, res), s')
    ensures ServiceInv(s')
  {
    var k := s.prog[t].k;
    assert Held(s, t) == Some(k);
    DispatchFrame(s, t, res, s');
    TicketsFrame(s, s');
    OthersHoldOther(s, t, k);
    DispatchKeepsResults(s, t, k, res, s');
    DispatchKeepsBoxes(s, t, k, res, s');
  }

  /** A worker finishes its ticket. */
  lemma {:induction false} TicketsFinish(s: State, t: Tid, k: nat, s': State)
    requires TicketsAccounted(s) && Held(s, t) == Some(k) && Held(s', t) == None
    requires forall u :: u != t ==> Held(s', u) == Held(s, u)
    requires s'.cache.popped == s.cache.popped && s'.replied == s.replied + {k}
    ensures TicketsAccounted(s')
  {
    forall j | 0 <= j < |s'.cache.popped|
      ensures j in s'.replied || exists u :: Held(s', u) == Some(j)
    {
      if j !in s'.replied {
        var u :| Held(s, u) == Some(j);
        assert Held(s', u) == Some(j);
      }
    }
  }

  lemma {:induction false} ResultsFinish(s: State, t: Tid, k: nat, s': State)
    requires ResultsAccounted(s) && IsReplying(s, t) && s.prog[t].k == k
    requires Held(s', t) == None && !IsReplying(s', t)
    requires forall u :: u != t ==> Held(s', u) == Held(s, u) && IsReplying(s', u) == IsReplying(s, u)
    requires forall u <- s'.prog :: s'.prog[u].Replying? ==> u in s.prog && s'.prog[u] == s.prog[u]
    requires s'.cache == s.cache && s'.results == s.results && s'.dispatcher == s.dispatcher
    requires s'.replied == s.replied + {k}
    ensures ResultsAccounted(s')
  {
  }

  /** The context that a callback writes is alive and belongs to the thread that expects this ticket. */
  lemma {:induction false} CallbackFindsOwner(s: State, t: Tid) returns (w: Tid)
    requires ServiceInv(s) && IsReplying(s, t) && s.prog[t].k < |s.cache.pushed|
    requires s.cache.pushed[s.prog[t].k].ctx.Some?
    ensures w != t && w in s.prog && Owner(s.prog[w]) && Expects(s, w) == Some(s.prog[t].k)
    ensures s.prog[w].req.ctx == s.cache.pushed[s.prog[t].k].ctx
    ensures s.prog[w].req.ctx.value in s.boxes
  {
    var k := s.prog[t].k;
    assert Held(s, t) == Some(k);
    w :| Expects(s, w) == Some(k);
    assert BoxMatches(s, w);
  }

  ghost predicate Woke(s: State, t: Tid, woken: set<Tid>, s': State) {
    && s'.prog.Keys == s.prog.Keys && t in s.prog && s'.prog[t] == AtLoop
    && forall u <- s.prog | u != t :: s'.prog[u] == if u in woken then AwakeReply(s.prog[u]) else s.prog[u]
  }

  lemma {:induction false} CallbackWakes(s: State, t: Tid, woken: set<Tid>, s': State)
    requires StepCallback(s, t, woken, s')
    ensures Woke(s, t, if s.cache.pushed[s.prog[t].k].ctx == None then {} else woken, s')
  {
  }

  lemma {:induction false} WokeFrame(s: State, t: Tid, woken: set<Tid>, s': State)
    requires IsReplying(s, t) && Woke(s, t, woken, s') && s'.cache == s.cache
    ensures forall u :: u != t ==> Held(s', u) == Held(s, u) && IsReplying(s', u) == IsReplying(s, u)
    ensures Held(s', t) == None && SameExpects(s, s')
    ensures forall u <- s'.prog :: s'.prog[u].Replying? ==> u in s.prog && s'.prog[u] == s.prog[u]
    ensures forall u <- s'.prog :: Owner(s'.prog[u]) <==> Owner(s.prog[u])
    ensures forall u <- s'.prog :: Owner(s'.prog[u]) ==> s'.prog[u].req == s.prog[u].req
    ensures forall u <- s'.prog :: InCall(s'.prog[u]) <==> InCall(s.prog[u])
    ensures forall u <- s'.prog :: InCall(s'.prog[u]) ==> s'.prog[u] == s.prog[u]
  {
  }

  lemma {:induction false} CallbackKeepsWaiters(s: State, k: nat, s': State)
    requires WaitersPresent(s) && SameExpects(s, s') && s'.cache == s.cache && s'.replied == s.replied + {k}
    ensures WaitersPresent(s')
  {
    forall j | 0 <= j < |s'.cache.pushed| && j !in s'.replied && s'.cache.pushed[j].ctx.Some?
      ensures exists u :: Expects(s', u) == Some(j)
    {
      var u :| Expects(s, u) == Some(j);
      assert Expects(s', u) == Some(j);
    }
  }

  lemma {:induction false} SilentCallbackKeepsBoxes(s: State, t: Tid, k: nat, s': State)
    requires ContextsOwned(s) && BoxesMatch(s) && Woke(s, t, {}, s') && SameExpects(s, s') && IsReplying(s, t)
    requires k < |s.cache.pushed| && s.cache.pushed[k].ctx == None
    requires s' == s.(prog := s'.prog, replied := s.replied + {k})
    ensures ContextsOwned(s') && BoxesMatch(s')
  {
    forall u <- s'.prog | Owner(s'.prog[u])
      ensures BoxMatches(s', u)
    {
      assert u != t && BoxMatches(s, u);
    }
  }

  lemma {:induction false} CallbackKeepsBoxes(s: State, t: Tid, w: Tid, woken: set<Tid>, s': State)
    requires ContextsOwned(s) && BoxesMatch(s) && ResultsAccounted(s) && IsReplying(s, t)
    requires ContextsOwned(s') && SameExpects(s, s') && Woke(s, t, woken, s')
    requires w != t && w in s.prog && Owner(s.prog[w]) && Expects(s, w) == Some(s.prog[t].k)
    requires s.prog[t].k < |s.cache.pushed|
    requires s.prog[w].req.ctx == s.cache.pushed[s.prog[t].k].ctx
    requires s.prog[w].ReplyAsleep? ==> w in woken
    requires forall u <- woken :: u in s.prog && s.prog[u].ReplyAsleep?
    requires s' == s.(prog := s'.prog, replied := s.replied + {s.prog[t].k}, fault := s'.fault,
                      boxes := s.boxes[s.prog[w].req.ctx.value := Box(true, ReplyText(s.prog[t].res))])
    ensures BoxesMatch(s')
  {
    forall u <- s'.prog | Owner(s'.prog[u])
      ensures BoxMatches(s', u)
    {
      assert u != t && BoxMatches(s, u);
      if u != w {
        assert s.prog[u].req.ctx != s.prog[w].req.ctx;
      }
    }
  }

  /** The only sleeper on a context is its owner, so the signal reaches it. */
  lemma {:induction false} SignalReachesOwner(s: State, w: Tid, woken: set<Tid>)
    requires ContextsOwned(s) && w in s.prog && Owner(s.prog[w])
    requires Cache.Signals(ReplySleepers(s, s.prog[w].req.ctx.value), woken)
    ensures s.prog[w].ReplyAsleep? ==> w in woken
  {
    if s.prog[w].ReplyAsleep? {
      assert w in ReplySleepers(s, s.prog[w].req.ctx.value);
      var x :| x in woken;
      assert x == w;
    }
  }

  lemma {:induction false} WokeKeepsOwners(s: State, t: Tid, woken: set<Tid>, s': State)
    requires ContextsOwned(s) && IsReplying(s, t) && Woke(s, t, woken, s') && s.boxes.Keys <= s'.boxes.Keys
    ensures ContextsOwned(s')
  {
    forall u <- s'.prog | Owner(s'.prog[u])
      ensures u != t && Owner(s.prog[u]) && s'.prog[u].req == s.prog[u].req
    {
    }
  }

  lemma {:induction false} LoudCallbackKeepsClients(s: State, t: Tid, w: Tid, woken: set<Tid>, s': State)
    requires ContextsOwned(s) && BoxesMatch(s) && ResultsAccounted(s) && !s.fault
    requires StepCallback(s, t, woken, s') && SameExpects(s, s') && Woke(s, t, woken, s')
    requires s.cache.pushed[s.prog[t].k].ctx.Some?
    requires w != t && w in s.prog && Owner(s.prog[w]) && Expects(s, w) == Some(s.prog[t].k)
    requires s.prog[w].req.ctx == s.cache.pushed[s.prog[t].k].ctx && s.prog[w].req.ctx.value in s.boxes
    ensures ContextsOwned(s') && BoxesMatch(s') && !s'.fault
  {
    SignalReachesOwner(s, w, woken);
    WokeKeepsOwners(s, t, woken, s');
    CallbackKeepsBoxes(s, t, w, woken, s');
  }

  lemma {:induction false} CallbackKeepsClients(s: State, t: Tid, woken: set<Tid>, s': State)
    requires ServiceInv(s) && StepCallback(s, t, woken, s') && SameExpects(s, s')
    requires Woke(s, t, if s.cache.pushed[s.prog[t].k].ctx == None then {} else woken, s')
    ensures ContextsOwned(s') && BoxesMatch(s') && !s'.fault
  {
    if s.cache.pushed[s.prog[t].k].ctx == None {
      SilentCallbackKeepsBoxes(s, t, s.prog[t].k, s');
    } else {
      var w := CallbackFindsOwner(s, t);
      LoudCallbackKeepsClients(s, t, w, woken, s');
    }
  }

  lemma {:induction false} CallbackKeeps(s: State, t: Tid, woken: set<Tid>, s': State)
    requires ServiceInv(s) && StepCallback(s, t, woken, s')
    ensures ServiceInv(s')
  {
    var k := s.prog[t].k;
    assert Held(s, t) == Some(k);
    CallbackWakes(s, t, woken, s');
    WokeFrame(s, t, if s.cache.pushed[k].ctx == None then {} else woken, s');
    CallbackKeepsClients(s, t, woken, s');
    TicketsFinish(s, t, k, s');
    ResultsFinish(s, t, k, s');
    CallbackKeepsWaiters(s, k, s');
  }

  lemma {:induction false} WorkerStepKeeps(s: State, l: Label, s': State)
    requires ServiceInv(s) && WorkerStep(s, l, s')
    ensures ServiceInv(s')
  {
    match l {
      case Dispatch(t, res) => DispatchKeeps(s, t, res, s');
      case Callback(t, woken) => CallbackKeeps(s, t, woken, s');
      case LoopTest(t) =>
        WorkerMovesAlone(s, l, s');
        if s.pool.running {
          Cache.StepKeepsSound(s.cache, Cache.CallPop(t, Cache.Timed), s'.cache);
        }
        LoopTestIsSound(s, t, s');
        OneMovesKeeps(s, t, s');
      case Fetched(t) =>
        WorkerMovesAlone(s, l, s');
        Cache.StepKeepsSound(s.cache, Cache.Return(t), s'.cache);
        FetchedIsSound(s, t, s');
        OneMovesKeeps(s, t, s');
      case FetchFailed(t) =>
        WorkerMovesAlone(s, l, s');
        Cache.StepKeepsSound(s.cache, Cache.Return(t), s'.cache);
        FetchFailedIsSound(s, t, s');
        OneMovesKeeps(s, t, s');
    }
  }

  lemma {:induction false} SpawnKeeps(s: State, t: Tid, s': State)
    requires ServiceInv(s) && FreshThread(s, t) && s' == Spawned(s, t).(pool := s'.pool)
    ensures ServiceInv(s')
  {
    assert OneMoves(s, t, s');
    assert MoveIsSound(s, t, s') by {
      assert Coupled(s);
    }
    OneMovesKeeps(s, t, s');
  }
}
