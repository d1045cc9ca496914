/** What the scheduler owes each task: due ones are dispatched, disabled and removed ones never are. */
module CronService {
  import opened Basics
  import opened CText
  import opened Cron
  import opened CronFile
  import opened CronSched

  // ---------------------------------------------------------------- what one tick does

  /** A tick dispatches a task exactly when it is due. */
  lemma {:induction false} TickDispatchesDue(ts: seq<Task>, now: nat, e: Event)
    ensures e in DueEvents(ts, now) <==>
            e.time == now && exists t <- ts :: Due(t, now) && t.id == e.id && t.expr == e.expr
    decreases ts
  {
    if ts != [] {
      var n := |ts| - 1;
      TickDispatchesDue(ts[..n], now, e);
      assert ts == ts[..n] + [ts[n]];
    }
  }

  /** Afterwards no task is due at that time. */
  lemma {:induction false} TickClears(s: Sched, cache: bool, codes: nat -> int, now: nat, t: Task)
    requires t in Apply(s, Tick(cache, codes), now).tasks
    ensures !Due(t, now)
  {
    var us := TickAll(s.tasks, now, cache, codes);
    var i :| 0 <= i < |us| && us[i] == t;
    NextRunIsAhead(s.tasks[i].expr, now);
  }

  /** After any run, an enabled task is dispatched by every tick that comes an hour or more after the last call. */
  lemma {:induction false} DueWithinTheHour(calls: seq<Call>, t: Task, cache: bool, codes: nat -> int, now: nat)
    requires GoodRun(calls) && t in Exec(EMPTY, calls).tasks && t.enabled && ClockOf(calls) + 3600 <= now
    ensures Event(t.id, t.expr, now) in Apply(Exec(EMPTY, calls), Tick(cache, codes), now).log
  {
    RunKeepsInv(calls);
    var s := Exec(EMPTY, calls);
    assert TaskOk(t, ClockOf(calls), |calls|);
    TickDispatchesDue(s.tasks, now, Event(t.id, t.expr, now));
  }

  // ---------------------------------------------------------------- enabled and added tasks

  /** The task at place `i` is enabled and next runs after `now`, within the hour. */
  ghost predicate Armed(s: Sched, i: nat, id: string, now: nat) {
    && i < |s.tasks| && s.tasks[i].id == id && s.tasks[i].enabled
    && now < s.tasks[i].nextRun <= now + 3600 && s.tasks[i].nextRun == NextRun(s.tasks[i].expr, now)
  }

  /** Enabling a known task arms it, also one that was disabled. */
  lemma {:induction false} EnablingArms(s: Sched, id: string, now: nat, i: nat)
    requires IndexOf(s.tasks, id) == Some(i)
    ensures Armed(Apply(s, Enable(id, true), now), i, id, now)
  {
    NextRunIsAhead(s.tasks[i].expr, now);
  }

  /** So does adding one. */
  lemma {:induction false} AddingArms(s: Sched, id: string, expr: string, cmd: string, now: nat)
    requires IndexOf(s.tasks, id).None? && |s.tasks| < MAX_TASKS && |id| < ID_SIZE && |expr| < EXPR_SIZE
    ensures Armed(Apply(s, Add(id, expr, cmd), now), |s.tasks|, id, now)
  {
    NextRunIsAhead(expr, now);
  }

  /** An armed task is dispatched by a tick exactly from its next run on. */
  lemma {:induction false} ArmedRuns(s: Sched, i: nat, id: string, now: nat, cache: bool, codes: nat -> int, later: nat)
    requires Armed(s, i, id, now) && forall a, b :: 0 <= a < b < |s.tasks| ==> s.tasks[a].id != s.tasks[b].id
    ensures var added := Apply(s, Tick(cache, codes), later).log[|s.log|..];
      && (later >= s.tasks[i].nextRun ==> Event(id, s.tasks[i].expr, later) in added)
      && (later < s.tasks[i].nextRun ==> forall e <- added :: e.id != id)
  {
    var t, es := s.tasks[i], DueEvents(s.tasks, later);
    assert Apply(s, Tick(cache, codes), later).log[|s.log|..] == es;
    TickDispatchesDue(s.tasks, later, Event(id, t.expr, later));
    assert t in s.tasks;
    forall e <- es | later < t.nextRun
      ensures e.id != id
    {
      TickDispatchesDue(s.tasks, later, e);
      var u :| u in s.tasks && Due(u, later) && u.id == e.id;
      var k :| 0 <= k < |s.tasks| && s.tasks[k] == u;
      assert k != i;
    }
  }

  // ---------------------------------------------------------------- disabled and removed tasks

  /** Neither in memory nor in the file is there an enabled task of that id. */
  ghost predicate Quiet(s: Sched, id: string) {
    Off(s.tasks, id) && Off(s.stored, id)
  }

  ghost predicate Off(ts: seq<Task>, id: string) {
    forall t <- ts :: t.id == id ==> !t.enabled
  }

  /** Only these calls can bring a task back to life. */
  predicate Revives(op: Op, id: string) {
    (op.Add? && Bounded(op.id, ID_SIZE) == id) || (op.Enable? && op.id == id && op.on)
  }

  /** No dispatch of `id` from position `from` on. */
  ghost predicate SilentFrom(log: seq<Event>, from: nat, id: string) {
    forall i :: from <= i < |log| ==> log[i].id != id
  }

  lemma {:induction false} DisablingIsQuiet(s: Sched, id: string, now: nat, n: nat)
    requires Inv(s, now, n) && IndexOf(s.tasks, id).Some?
    ensures Quiet(Apply(s, Enable(id, false), now), id)
  {
    var s' := Apply(s, Enable(id, false), now);
    var i := IndexOf(s.tasks, id).value;
    forall t <- s'.tasks | t.id == id
      ensures !t.enabled
    {
      var k :| 0 <= k < |s'.tasks| && s'.tasks[k] == t;
      assert k != i ==> s.tasks[k].id != s.tasks[i].id;
    }
  }

  lemma {:induction false} RemovingIsQuiet(s: Sched, id: string, now: nat, n: nat)
    requires Inv(s, now, n) && IndexOf(s.tasks, id).Some?
    ensures Quiet(Apply(s, Remove(id), now), id)
  {
    var i := IndexOf(s.tasks, id).value;
    forall t <- s.tasks[..i] + s.tasks[i + 1..]
      ensures t.id != id
    {
      var k :| 0 <= k < |s.tasks| && k != i && s.tasks[k] == t;
      assert s.tasks[i].id == id && (if k < i then s.tasks[k].id != s.tasks[i].id else s.tasks[i].id != s.tasks[k].id);
    }
  }

  lemma {:induction false} TickStaysQuiet(s: Sched, id: string, cache: bool, codes: nat -> int, now: nat)
    requires Off(s.tasks, id)
    ensures Off(TickAll(s.tasks, now, cache, codes), id) && SilentFrom(DueEvents(s.tasks, now), 0, id)
  {
    forall e <- DueEvents(s.tasks, now)
      ensures e.id != id
    {
      TickDispatchesDue(s.tasks, now, e);
    }
  }

  lemma {:induction false} UpdateStaysQuiet(ts: seq<Task>, i: nat, u: Task, id: string)
    requires Off(ts, id) && i < |ts| && (u.id == id ==> !u.enabled)
    ensures Off(ts[i := u], id)
  {
  }

  lemma {:induction false} RestartStaysQuiet(s: Sched, id: string, now: nat, n: nat)
    requires Inv(s, now, n) && now + 3600 < Pow10(CLOCK_DIGITS) && n < Pow10(CLOCK_DIGITS) && Quiet(s, id)
    ensures Off(Apply(s, Restart, now).tasks, id)
  {
    RestartLoads(s, now, n);
    RefreshStaysQuiet(s.stored, now, id);
  }

  lemma {:induction false} RefreshStaysQuiet(ts: seq<Task>, now: nat, id: string)
    requires Off(ts, id)
    ensures Off(RefreshedAll(ts, now), id)
  {
    var us := RefreshedAll(ts, now);
    forall t <- us | t.id == id
      ensures !t.enabled
    {
      var k :| 0 <= k < |us| && us[k] == t;
      assert ts[k] in ts;
    }
  }

  lemma {:induction false} EditStaysQuiet(s: Sched, c: Call, id: string)
    requires Quiet(s, id) && !Revives(c.op, id) && !c.op.Tick? && !c.op.Restart?
    ensures Quiet(Apply(s, c.op, c.now), id) && Apply(s, c.op, c.now).log == s.log
  {
    if (c.op.Enable? || c.op.RunNow?) && IndexOf(s.tasks, c.op.id).Some? {
      var i := IndexOf(s.tasks, c.op.id).value;
      assert s.tasks[i] in s.tasks;
      UpdateStaysQuiet(s.tasks, i, Apply(s, c.op, c.now).tasks[i], id);
    }
  }

  lemma {:induction false} StepStaysQuiet(s: Sched, c: Call, n: nat, id: string)
    requires Inv(s, c.now, n) && GoodCall(c) && n < Pow10(CLOCK_DIGITS) && Quiet(s, id) && !Revives(c.op, id)
    ensures Quiet(Apply(s, c.op, c.now), id)
    ensures s.log <= Apply(s, c.op, c.now).log && SilentFrom(Apply(s, c.op, c.now).log, |s.log|, id)
  {
    if c.op.Tick? {
      TickStaysQuiet(s, id, c.op.cache, c.op.codes, c.now);
    } else if c.op.Restart? {
      RestartStaysQuiet(s, id, c.now, n);
    } else {
      EditStaysQuiet(s, c, id);
    }
  }

  lemma {:induction false} LastStaysQuiet(calls: seq<Call>, id: string)
    requires GoodRun(calls) && calls != [] && !Revives(calls[|calls| - 1].op, id)
    requires Quiet(Exec(EMPTY, calls[..|calls| - 1]), id)
    ensures Quiet(Exec(EMPTY, calls), id) && Exec(EMPTY, calls[..|calls| - 1]).log <= Exec(EMPTY, calls).log
    ensures SilentFrom(Exec(EMPTY, calls).log, |Exec(EMPTY, calls[..|calls| - 1]).log|, id)
  {
    var n := |calls| - 1;
    PriorRun(calls);
    StepStaysQuiet(Exec(EMPTY, calls[..n]), calls[n], n, id);
  }

  lemma {:induction false} SilenceJoins(log: seq<Event>, log': seq<Event>, from: nat, id: string)
    requires log <= log' && SilentFrom(log, from, id) && SilentFrom(log', |log|, id)
    ensures SilentFrom(log', from, id)
  {
  }

  /**
   * Once a task is disabled or removed, no tick dispatches it again, over any further run and any number
   * of restarts through the file, until it is added or enabled anew.
   */
  lemma {:induction false} SilencedStaysSilent(calls: seq<Call>, k: nat, id: string)
    requires GoodRun(calls) && k <= |calls| && Quiet(Exec(EMPTY, calls[..k]), id)
    requires forall i :: k <= i < |calls| ==> !Revives(calls[i].op, id)
    ensures Quiet(Exec(EMPTY, calls), id)
    ensures SilentFrom(Exec(EMPTY, calls).log, |Exec(EMPTY, calls[..k]).log|, id)
    decreases calls
  {
    if k == |calls| {
      assert calls[..k] == calls;
    } else {
      var prior := calls[..|calls| - 1];
      assert prior[..k] == calls[..k];
      PriorRun(calls);
      SilencedStaysSilent(prior, k, id);
      LastStaysQuiet(calls, id);
      SilenceJoins(Exec(EMPTY, prior).log, Exec(EMPTY, calls).log, |Exec(EMPTY, calls[..k]).log|, id);
    }
  }
}
