/**
 * What a task is at any point of a run of the scheduler, told from the calls that concern it: texts, flag,
 * counters and last run, over restarts through the file (src/cron/cron.c).
 */
module CronLife {
  import opened Basics
  import opened CText
  import opened Cron
  import opened CronFile
  import opened CronSched

  /** A task but for its next run. */
  datatype Life = Life(expr: string, cmd: string, enabled: bool, lastRun: nat, runs: nat, fails: nat)

  function LifeIn(t: Task): Life {
    Life(t.expr, t.cmd, t.enabled, t.lastRun, t.runs, t.fails)
  }

  /** How the call ran the task of that id, if it did: true is a success. An enqueued job counts as one. */
  function RanBy(s: Sched, c: Call, id: string): Option<bool> {
    match IndexOf(s.tasks, id)
    case None => None
    case Some(i) =>
      if c.op.RunNow? && c.op.id == id then Some(c.op.code == 0)
      else if c.op.Tick? && s.tasks[i].enabled && s.tasks[i].nextRun <= c.now then
        Some(c.op.cache || c.op.codes(i) == 0)
      else None
  }

  /** The call adds a task of that id. */
  predicate Adds(s: Sched, c: Call, id: string) {
    c.op.Add? && c.op.id == id && IndexOf(s.tasks, id).None? && |s.tasks| < MAX_TASKS
  }

  /** What the call makes of the task of that id. */
  function LifeStep(l: Life, s: Sched, c: Call, id: string): Life {
    if Adds(s, c, id) then Life(c.op.expr, c.op.cmd, true, 0, 0, 0)
    else if c.op.Enable? && c.op.id == id then l.(enabled := c.op.on)
    else match RanBy(s, c, id)
      case None => l
      case Some(true) => l.(lastRun := c.now, runs := l.runs + 1)
      case Some(false) => l.(lastRun := c.now, fails := l.fails + 1)
  }

  function LifeOf(calls: seq<Call>, id: string): Life {
    if calls == [] then Life("", "", false, 0, 0, 0)
    else
      var n := |calls| - 1;
      LifeStep(LifeOf(calls[..n], id), Exec(EMPTY, calls[..n]), calls[n], id)
  }

  ghost predicate AllLive(ts: seq<Task>, calls: seq<Call>) {
    forall t <- ts :: LifeIn(t) == LifeOf(calls, t.id)
  }

  /** Each task of `us` is one of `ts` with what the call made of it, or newly added. */
  ghost predicate LivesOn(s: Sched, c: Call, ts: seq<Task>, us: seq<Task>) {
    forall u <- us :: LivesFrom(s, c, ts, u)
  }

  ghost predicate LivesFrom(s: Sched, c: Call, ts: seq<Task>, u: Task) {
    if Adds(s, c, u.id) then LifeIn(u) == Life(c.op.expr, c.op.cmd, true, 0, 0, 0)
    else exists t :: t in ts && t.id == u.id && LifeIn(u) == LifeStep(LifeIn(t), s, c, u.id)
  }

  // ---------------------------------------------------------------- one call

  ghost predicate Unique(ts: seq<Task>) {
    forall a, b :: 0 <= a < b < |ts| ==> ts[a].id != ts[b].id
  }

  lemma {:induction false} IndexIs(ts: seq<Task>, i: nat)
    requires i < |ts| && Unique(ts)
    ensures IndexOf(ts, ts[i].id) == Some(i)
  {
    assert ts[i] in ts;
  }

  lemma {:induction false} TickOne(s: Sched, c: Call, i: nat)
    requires Unique(s.tasks) && c.op.Tick? && i < |s.tasks|
    ensures LivesFrom(s, c, s.tasks, Apply(s, c.op, c.now).tasks[i])
  {
    var t, u := s.tasks[i], Apply(s, c.op, c.now).tasks[i];
    IndexIs(s.tasks, i);
    assert t in s.tasks && t.id == u.id && LifeIn(u) == LifeStep(LifeIn(t), s, c, u.id);
  }

  lemma {:induction false} UpdateOne(s: Sched, c: Call, i: nat)
    requires Unique(s.tasks) && (c.op.Enable? || c.op.RunNow?) && IndexOf(s.tasks, c.op.id).Some? && i < |s.tasks|
    ensures LivesFrom(s, c, s.tasks, Apply(s, c.op, c.now).tasks[i])
  {
    var t, u := s.tasks[i], Apply(s, c.op, c.now).tasks[i];
    IndexIs(s.tasks, i);
    assert t in s.tasks && t.id == u.id && LifeIn(u) == LifeStep(LifeIn(t), s, c, u.id);
  }

  lemma {:induction false} EachLives(s: Sched, c: Call, ts: seq<Task>, us: seq<Task>)
    requires forall i :: 0 <= i < |us| ==> LivesFrom(s, c, ts, us[i])
    ensures LivesOn(s, c, ts, us)
  {
  }

  /** Nothing of that id is added, enabled, disabled or run. */
  predicate Spares(s: Sched, c: Call, id: string) {
    !Adds(s, c, id) && !(c.op.Enable? && c.op.id == id) && RanBy(s, c, id) == None
  }

  lemma {:induction false} SparedLive(s: Sched, c: Call, ts: seq<Task>, us: seq<Task>)
    requires forall u <- us :: Spares(s, c, u.id) && exists t :: t in ts && t.id == u.id && LifeIn(t) == LifeIn(u)
    ensures LivesOn(s, c, ts, us)
  {
    forall u <- us
      ensures LivesFrom(s, c, ts, u)
    {
      var t :| t in ts && t.id == u.id && LifeIn(t) == LifeIn(u);
      assert LifeIn(u) == LifeStep(LifeIn(t), s, c, u.id);
    }
  }

  lemma {:induction false} AddLives(s: Sched, c: Call)
    requires c.op.Add? && GoodCall(c)
    ensures LivesOn(s, c, s.tasks, Apply(s, c.op, c.now).tasks)
  {
    forall u <- Apply(s, c.op, c.now).tasks
      ensures LivesFrom(s, c, s.tasks, u)
    {
      if u in s.tasks {
        assert !Adds(s, c, u.id);
        assert LifeIn(u) == LifeStep(LifeIn(u), s, c, u.id);
      }
    }
  }

  lemma {:induction false} RemoveLives(s: Sched, c: Call)
    requires c.op.Remove?
    ensures LivesOn(s, c, s.tasks, Apply(s, c.op, c.now).tasks)
  {
    assert forall u <- Apply(s, c.op, c.now).tasks :: u in s.tasks;
    SparedLive(s, c, s.tasks, Apply(s, c.op, c.now).tasks);
  }

  predicate Refused(s: Sched, c: Call) {
    match c.op
    case Add(id, _, _) => |s.tasks| >= MAX_TASKS || IndexOf(s.tasks, id).Some?
    case Remove(id) => IndexOf(s.tasks, id).None?
    case Enable(id, _) => IndexOf(s.tasks, id).None?
    case RunNow(id, _) => IndexOf(s.tasks, id).None?
    case _ => false
  }

  /** A refused call changes nothing; any other but a restart saves the table. */
  lemma {:induction false} SavedOrSame(s: Sched, c: Call)
    requires !c.op.Restart?
    ensures if Refused(s, c) then Apply(s, c.op, c.now) == s
            else Apply(s, c.op, c.now).stored == Apply(s, c.op, c.now).tasks
  {
  }

  /** A refused call leaves every task alone that the table knows. */
  lemma {:induction false} RefusedLives(s: Sched, c: Call, ts: seq<Task>)
    requires Refused(s, c) && forall t <- ts :: IndexOf(s.tasks, t.id).Some?
    ensures LivesOn(s, c, ts, ts)
  {
    SparedLive(s, c, ts, ts);
  }

  lemma {:induction false} UpdateLives(s: Sched, c: Call)
    requires Unique(s.tasks) && (c.op.Tick? || ((c.op.Enable? || c.op.RunNow?) && IndexOf(s.tasks, c.op.id).Some?))
    ensures LivesOn(s, c, s.tasks, Apply(s, c.op, c.now).tasks)
  {
    var us := Apply(s, c.op, c.now).tasks;
    forall i | 0 <= i < |us|
      ensures LivesFrom(s, c, s.tasks, us[i])
    {
      if c.op.Tick? {
        TickOne(s, c, i);
      } else {
        UpdateOne(s, c, i);
      }
    }
    EachLives(s, c, s.tasks, us);
  }

  lemma {:induction false} KnownOf(ts: seq<Task>, us: seq<Task>)
    requires |us| == |ts| && forall i :: 0 <= i < |ts| ==> us[i].id == ts[i].id
    ensures forall t <- ts :: IndexOf(us, t.id).Some?
  {
    forall t <- ts
      ensures IndexOf(us, t.id).Some?
    {
      var i :| 0 <= i < |ts| && ts[i] == t;
      assert us[i] in us;
    }
  }

  /** An edit, a tick or an explicit run goes by what the table held. */
  lemma {:induction false} CallLives(s: Sched, c: Call)
    requires Unique(s.tasks) && GoodCall(c) && !c.op.Restart?
    ensures LivesOn(s, c, s.tasks, Apply(s, c.op, c.now).tasks)
  {
    if c.op.Add? {
      AddLives(s, c);
    } else if c.op.Remove? {
      RemoveLives(s, c);
    } else if Refused(s, c) {
      KnownOf(s.tasks, s.tasks);
      RefusedLives(s, c, s.tasks);
    } else {
      UpdateLives(s, c);
    }
  }

  /** A restart goes by what the file held. */
  lemma {:induction false} RestartLives(s: Sched, c: Call)
    requires c.op.Restart?
    ensures LivesOn(s, c, s.stored, RefreshedAll(s.stored, c.now)) && LivesOn(s, c, s.stored, s.stored)
  {
    var us := RefreshedAll(s.stored, c.now);
    forall u <- us
      ensures exists t :: t in s.stored && t.id == u.id && LifeIn(t) == LifeIn(u)
    {
      var i :| 0 <= i < |us| && us[i] == u;
      assert s.stored[i] in s.stored;
    }
    SparedLive(s, c, s.stored, us);
    SparedLive(s, c, s.stored, s.stored);
  }

  // ---------------------------------------------------------------- whole runs

  lemma {:induction false} LivesAreLive(calls: seq<Call>, ts: seq<Task>, us: seq<Task>)
    requires calls != [] && AllLive(ts, calls[..|calls| - 1])
    requires LivesOn(Exec(EMPTY, calls[..|calls| - 1]), calls[|calls| - 1], ts, us)
    ensures AllLive(us, calls)
  {
    forall u <- us
      ensures LifeIn(u) == LifeOf(calls, u.id)
    {
      assert LivesFrom(Exec(EMPTY, calls[..|calls| - 1]), calls[|calls| - 1], ts, u);
    }
  }

  /** Table and file hold the same tasks, and each is what its calls made it. */
  ghost predicate Told(s: Sched, calls: seq<Call>) {
    && AllLive(s.tasks, calls) && AllLive(s.stored, calls)
    && (forall t <- s.stored :: IndexOf(s.tasks, t.id).Some?)
  }

  lemma {:induction false} RestartReads(calls: seq<Call>)
    requires GoodRun(calls) && calls != [] && calls[|calls| - 1].op.Restart?
    ensures var s := Exec(EMPTY, calls[..|calls| - 1]);
      && Exec(EMPTY, calls).tasks == RefreshedAll(s.stored, calls[|calls| - 1].now)
      && Exec(EMPTY, calls).stored == s.stored
  {
    PriorRun(calls);
    RestartLoads(Exec(EMPTY, calls[..|calls| - 1]), calls[|calls| - 1].now, |calls| - 1);
  }

  lemma {:induction false} RestartTold(calls: seq<Call>)
    requires GoodRun(calls) && calls != [] && calls[|calls| - 1].op.Restart?
    requires Told(Exec(EMPTY, calls[..|calls| - 1]), calls[..|calls| - 1])
    ensures Told(Exec(EMPTY, calls), calls)
  {
    var n := |calls| - 1;
    var s, c := Exec(EMPTY, calls[..n]), calls[n];
    RestartReads(calls);
    RestartLives(s, c);
    LivesAreLive(calls, s.stored, RefreshedAll(s.stored, c.now));
    LivesAreLive(calls, s.stored, s.stored);
    KnownOf(s.stored, RefreshedAll(s.stored, c.now));
  }

  lemma {:induction false} CallTold(calls: seq<Call>)
    requires GoodRun(calls) && calls != [] && !calls[|calls| - 1].op.Restart?
    requires Told(Exec(EMPTY, calls[..|calls| - 1]), calls[..|calls| - 1])
    ensures Told(Exec(EMPTY, calls), calls)
  {
    PriorRun(calls);
    var n := |calls| - 1;
    var s, c := Exec(EMPTY, calls[..n]), calls[n];
    CallLives(s, c);
    SavedOrSame(s, c);
    LivesAreLive(calls, s.tasks, Apply(s, c.op, c.now).tasks);
    if Refused(s, c) {
      RefusedLives(s, c, s.stored);
      LivesAreLive(calls, s.stored, s.stored);
    } else {
      KnownOf(Apply(s, c.op, c.now).tasks, Apply(s, c.op, c.now).tasks);
    }
  }

  /**
   * Over every run, restarts through the file included, a task has the texts it was last added with, the flag it
   * was last given, and since that addition its run count is the number of its runs that ended well, its fail
   * count the number of those that did not, and its last run the time of the last.
   */
  lemma {:induction false} TasksAreTold(calls: seq<Call>)
    requires GoodRun(calls)
    ensures Told(Exec(EMPTY, calls), calls)
    decreases |calls|
  {
    if calls != [] {
      PriorRun(calls);
      TasksAreTold(calls[..|calls| - 1]);
      if calls[|calls| - 1].op.Restart? {
        RestartTold(calls);
      } else {
        CallTold(calls);
      }
    }
  }
}
