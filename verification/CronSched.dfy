/** The scheduler's operations, with restarts through the saved file, and its dispatch guarantee. */
module CronSched {
  import opened Basics
  import opened CText
  import opened Cron
  import opened CronFile

  /** One dispatch by cron_run_pending. */
  datatype Event = Event(id: string, expr: string, time: nat)

  /** `stored` is the table as last written to `disk`; `log` records every dispatch. */
  datatype Sched = Sched(tasks: seq<Task>, disk: string, stored: seq<Task>, log: seq<Event>)

  datatype Op =
    | Add(id: string, expr: string, cmd: string)
    | Remove(id: string)
    | Enable(id: string, on: bool)
    | RunNow(id: string, code: int)
    | Tick(cache: bool, codes: nat -> int)    // cron_run_pending; exit codes when there is no job cache
    | Restart                                 // cron_init

  const EMPTY := Sched([], "", [], [])

  function IndexOf(ts: seq<Task>, id: string): (r: Option<nat>)
    ensures r.Some? ==> r.value < |ts| && ts[r.value].id == id && forall i :: 0 <= i < r.value ==> ts[i].id != id
    ensures r.None? ==> forall t <- ts :: t.id != id
  {
    if ts == [] then None
    else if ts[0].id == id then Some(0)
    else match IndexOf(ts[1..], id)
      case None => None
      case Some(i) => Some(i + 1)
  }

  function NewTask(id: string, expr: string, cmd: string, now: nat): Task {
    Task(Bounded(id, ID_SIZE), Bounded(expr, EXPR_SIZE), Bounded(cmd, CMD_SIZE), true, 0, NextRun(expr, now), 0, 0)
  }

  predicate Due(t: Task, now: nat) {
    t.enabled && t.nextRun <= now
  }

  function Dispatched(t: Task, now: nat, ok: bool): Task {
    t.(lastRun := now, nextRun := NextRun(t.expr, now),
       runs := t.runs + (if ok then 1 else 0), fails := t.fails + (if ok then 0 else 1))
  }

  function Ticked(t: Task, now: nat, ok: bool): Task {
    if Due(t, now) then Dispatched(t, now, ok) else t
  }

  function TickAll(ts: seq<Task>, now: nat, cache: bool, codes: nat -> int): (r: seq<Task>)
    ensures |r| == |ts|
    ensures forall i :: 0 <= i < |ts| ==> r[i] == Ticked(ts[i], now, cache || codes(i) == 0)
  {
    seq(|ts|, i requires 0 <= i < |ts| => Ticked(ts[i], now, cache || codes(i) == 0))
  }

  function DueEvents(ts: seq<Task>, now: nat): seq<Event> {
    if ts == [] then []
    else
      var t := ts[|ts| - 1];
      DueEvents(ts[..|ts| - 1], now) + if Due(t, now) then [Event(t.id, t.expr, now)] else []
  }

  function Saved(s: Sched, ts: seq<Task>): Sched {
    s.(tasks := ts, disk := Save(ts), stored := ts)
  }

  function Apply(s: Sched, op: Op, now: nat): Sched {
    match op
    case Add(id, expr, cmd) =>
      if |s.tasks| >= MAX_TASKS || IndexOf(s.tasks, id).Some? then s
      else Saved(s, s.tasks + [NewTask(id, expr, cmd, now)])
    case Remove(id) =>
      (match IndexOf(s.tasks, id)
       case None => s
       case Some(i) => Saved(s, s.tasks[..i] + s.tasks[i + 1..]))
    case Enable(id, on) =>
      (match IndexOf(s.tasks, id)
       case None => s
       case Some(i) =>
         var t := s.tasks[i];
         Saved(s, s.tasks[i := t.(enabled := on, nextRun := if on then NextRun(t.expr, now) else t.nextRun)]))
    case RunNow(id, code) =>
      (match IndexOf(s.tasks, id)
       case None => s
       case Some(i) => Saved(s, s.tasks[i := Dispatched(s.tasks[i], now, code == 0)]))
    case Tick(cache, codes) =>
      Saved(s, TickAll(s.tasks, now, cache, codes)).(log := s.log + DueEvents(s.tasks, now))
    case Restart =>
      s.(tasks := Load(s.disk, now))
  }

  datatype Call = Call(op: Op, now: nat)

  /** A whole run, from first call to last. */
  function Exec(s: Sched, calls: seq<Call>): Sched {
    if calls == [] then s
    else
      var n := |calls| - 1;
      Apply(Exec(s, calls[..n]), calls[n].op, calls[n].now)
  }

  // ---------------------------------------------------------------- invariant

  const CLOCK_DIGITS := 19

  /** Text that survives the file, a forward clock, and numbers of machine size. */
  ghost predicate GoodCall(c: Call) {
    && c.now + 3600 < Pow10(CLOCK_DIGITS)
    && (c.op.Add? ==>
        TextOk(c.op.id, ID_SIZE) && c.op.id[0] != '#' && TextOk(c.op.expr, EXPR_SIZE) && TextOk(c.op.cmd, CMD_SIZE))
  }

  ghost predicate GoodRun(calls: seq<Call>) {
    && |calls| < Pow10(CLOCK_DIGITS)
    && (forall c <- calls :: GoodCall(c))
    && (forall i, j :: 0 <= i < j < |calls| ==> calls[i].now <= calls[j].now)
  }

  ghost predicate TaskOk(t: Task, clock: nat, n: nat) {
    && TextOk(t.id, ID_SIZE) && t.id[0] != '#' && TextOk(t.expr, EXPR_SIZE) && TextOk(t.cmd, CMD_SIZE)
    && t.lastRun <= clock && t.nextRun <= clock + 3600
    && t.runs <= n && t.fails <= n
  }

  ghost predicate TableOk(ts: seq<Task>, clock: nat, n: nat) {
    && |ts| <= MAX_TASKS
    && (forall t <- ts :: TaskOk(t, clock, n))
    && (forall i, j :: 0 <= i < j < |ts| ==> ts[i].id != ts[j].id)
  }

  /** Every dispatch so far lies in an earlier period than the task's next run. */
  ghost predicate LogBehind(log: seq<Event>, ts: seq<Task>) {
    forall e <- log, t <- ts | e.id == t.id :: Earlier(t.expr, e.time, t.nextRun)
  }

  ghost predicate LogPast(log: seq<Event>, clock: nat) {
    forall e <- log :: e.time <= clock
  }

  /** Two dispatches of one task never share a period. */
  ghost predicate LogApart(log: seq<Event>) {
    forall i, j :: 0 <= i < j < |log| && log[i].id == log[j].id ==> Earlier(log[j].expr, log[i].time, log[j].time)
  }

  ghost predicate OnDisk(s: Sched) {
    s.disk == Save(s.stored) || (s.disk == "" && s.stored == [])
  }

  ghost predicate Inv(s: Sched, clock: nat, n: nat) {
    && TableOk(s.tasks, clock, n) && TableOk(s.stored, clock, n)
    && LogBehind(s.log, s.tasks) && LogBehind(s.log, s.stored)
    && LogPast(s.log, clock) && LogApart(s.log)
    && OnDisk(s)
  }

  // ---------------------------------------------------------------- preservation

  lemma {:induction false} TableLater(ts: seq<Task>, clock: nat, n: nat, clock': nat, n': nat)
    requires TableOk(ts, clock, n) && clock <= clock' && n <= n'
    ensures TableOk(ts, clock', n')
  {
  }

  /** Replacing tasks one by one by versions of the same identity whose next run is later keeps the log behind. */
  ghost predicate Reworked(t: Task, u: Task, now: nat) {
    && u.id == t.id && u.expr == t.expr && u.cmd == t.cmd
    && (u.nextRun == t.nextRun || u.nextRun == NextRun(t.expr, now))
  }

  lemma {:induction false} ReworkedKeepsLog(log: seq<Event>, ts: seq<Task>, us: seq<Task>, now: nat)
    requires LogBehind(log, ts) && LogPast(log, now) && |us| == |ts|
    requires forall i :: 0 <= i < |ts| ==> Reworked(ts[i], us[i], now)
    ensures LogBehind(log, us)
  {
    forall e <- log, u <- us | e.id == u.id
      ensures Earlier(u.expr, e.time, u.nextRun)
    {
      var i :| 0 <= i < |us| && us[i] == u;
      assert Reworked(ts[i], us[i], now);
      NextRunIsAhead(u.expr, now);
    }
  }

  lemma {:induction false} ReworkedKeepsTable(ts: seq<Task>, us: seq<Task>, now: nat, n: nat)
    requires TableOk(ts, now, n) && |us| == |ts|
    requires forall i :: 0 <= i < |ts| ==> Reworked(ts[i], us[i], now)
    requires forall i :: 0 <= i < |ts| ==> us[i].lastRun <= now && us[i].runs <= n + 1 && us[i].fails <= n + 1
    ensures TableOk(us, now, n + 1)
  {
    forall u <- us
      ensures TaskOk(u, now, n + 1)
    {
      var i :| 0 <= i < |us| && us[i] == u;
      assert TaskOk(ts[i], now, n);
      NextRunIsAhead(ts[i].expr, now);
    }
  }

  lemma {:induction false} AddKeeps(s: Sched, c: Call, n: nat)
    requires Inv(s, c.now, n) && GoodCall(c) && c.op.Add?
    ensures Inv(Apply(s, c.op, c.now), c.now, n)
  {
    var s' := Apply(s, c.op, c.now);
    if s' != s {
      var t := NewTask(c.op.id, c.op.expr, c.op.cmd, c.now);
      NextRunIsAhead(c.op.expr, c.now);
      assert TaskOk(t, c.now, n);
      assert forall u <- s'.tasks :: u in s.tasks || u == t;
    }
  }

  lemma {:induction false} RemoveKeeps(s: Sched, id: string, now: nat, n: nat)
    requires Inv(s, now, n)
    ensures Inv(Apply(s, Remove(id), now), now, n)
  {
    var s' := Apply(s, Remove(id), now);
    if IndexOf(s.tasks, id).Some? {
      var i := IndexOf(s.tasks, id).value;
      assert forall u <- s'.tasks :: u in s.tasks;
      forall a, b | 0 <= a < b < |s'.tasks|
        ensures s'.tasks[a].id != s'.tasks[b].id
      {
        assert s'.tasks[a] == s.tasks[if a < i then a else a + 1];
        assert s'.tasks[b] == s.tasks[if b < i then b else b + 1];
      }
    }
  }

  lemma {:induction false} UpdateKeeps(s: Sched, i: nat, u: Task, now: nat, n: nat)
    requires Inv(s, now, n) && i < |s.tasks|
    requires Reworked(s.tasks[i], u, now) && u.lastRun <= now && u.runs <= n + 1 && u.fails <= n + 1
    ensures Inv(Saved(s, s.tasks[i := u]), now, n + 1)
  {
    var us := s.tasks[i := u];
    forall k | 0 <= k < |us|
      ensures Reworked(s.tasks[k], us[k], now) && us[k].lastRun <= now && us[k].runs <= n + 1 && us[k].fails <= n + 1
    {
      assert TaskOk(s.tasks[k], now, n);
    }
    ReworkedKeepsLog(s.log, s.tasks, us, now);
    ReworkedKeepsTable(s.tasks, us, now, n);
  }

  /** A task's line fits the file. */
  lemma {:induction false} OkIsStorable(ts: seq<Task>, clock: nat, n: nat)
    requires TableOk(ts, clock, n) && clock + 3600 < Pow10(CLOCK_DIGITS) && n < Pow10(CLOCK_DIGITS)
    ensures forall t <- ts :: Storable(t)
  {
    forall t <- ts
      ensures Storable(t)
    {
      assert TaskOk(t, clock, n);
      DigitsLength(t.lastRun, CLOCK_DIGITS);
      DigitsLength(t.nextRun, CLOCK_DIGITS);
      DigitsLength(t.runs, CLOCK_DIGITS);
      DigitsLength(t.fails, CLOCK_DIGITS);
    }
  }

  /** A restart finds the last saved table, with overdue tasks moved ahead. */
  lemma {:induction false} RestartLoads(s: Sched, now: nat, n: nat)
    requires Inv(s, now, n) && now + 3600 < Pow10(CLOCK_DIGITS) && n < Pow10(CLOCK_DIGITS)
    ensures Apply(s, Restart, now).tasks == RefreshedAll(s.stored, now)
  {
    if s.disk == Save(s.stored) {
      OkIsStorable(s.stored, now, n);
      FileRoundTrip(s.stored, now);
    } else {
      assert RefreshedAll([], now) == [];
    }
  }

  lemma {:induction false} RefreshKeeps(s: Sched, now: nat, n: nat)
    requires Inv(s, now, n)
    ensures Inv(s.(tasks := RefreshedAll(s.stored, now)), now, n + 1)
  {
    var us := RefreshedAll(s.stored, now);
    forall k | 0 <= k < |us|
      ensures Reworked(s.stored[k], us[k], now) && us[k].lastRun <= now && us[k].runs <= n + 1 && us[k].fails <= n + 1
    {
      assert TaskOk(s.stored[k], now, n);
    }
    ReworkedKeepsLog(s.log, s.stored, us, now);
    ReworkedKeepsTable(s.stored, us, now, n);
    TableLater(s.stored, now, n, now, n + 1);
  }

  lemma {:induction false} RestartKeeps(s: Sched, now: nat, n: nat)
    requires Inv(s, now, n) && now + 3600 < Pow10(CLOCK_DIGITS) && n < Pow10(CLOCK_DIGITS)
    ensures Inv(Apply(s, Restart, now), now, n + 1)
  {
    RestartLoads(s, now, n);
    RefreshKeeps(s, now, n);
  }

  lemma {:induction false} DueEventsFrom(ts: seq<Task>, now: nat, e: Event)
    requires e in DueEvents(ts, now)
    ensures e.time == now && exists i :: 0 <= i < |ts| && Due(ts[i], now) && ts[i].id == e.id && ts[i].expr == e.expr
    decreases ts
  {
    var n := |ts| - 1;
    if e in DueEvents(ts[..n], now) {
      DueEventsFrom(ts[..n], now, e);
      var i :| 0 <= i < n && Due(ts[..n][i], now) && ts[..n][i].id == e.id && ts[..n][i].expr == e.expr;
      assert ts[i] == ts[..n][i];
    } else {
      assert ts[n].id == e.id;
    }
  }

  lemma {:induction false} DueEventsApart(ts: seq<Task>, now: nat)
    requires forall i, j :: 0 <= i < j < |ts| ==> ts[i].id != ts[j].id
    ensures forall i, j :: 0 <= i < j < |DueEvents(ts, now)| ==> DueEvents(ts, now)[i].id != DueEvents(ts, now)[j].id
    decreases ts
  {
    if ts != [] {
      var n := |ts| - 1;
      DueEventsApart(ts[..n], now);
      var es := DueEvents(ts[..n], now);
      forall i | 0 <= i < |es|
        ensures es[i].id != ts[n].id
      {
        DueEventsFrom(ts[..n], now, es[i]);
      }
    }
  }

  lemma {:induction false} TickLogApart(s: Sched, now: nat, n: nat)
    requires Inv(s, now, n)
    ensures LogApart(s.log + DueEvents(s.tasks, now)) && LogPast(s.log + DueEvents(s.tasks, now), now)
  {
    var es := DueEvents(s.tasks, now);
    var log := s.log + es;
    DueEventsApart(s.tasks, now);
    forall e <- es
      ensures e.time == now
    {
      DueEventsFrom(s.tasks, now, e);
    }
    forall i, j | 0 <= i < j < |log| && log[i].id == log[j].id
      ensures Earlier(log[j].expr, log[i].time, log[j].time)
    {
      if j >= |s.log| {
        assert i < |s.log|;
        DueEventsFrom(s.tasks, now, log[j]);
        var k :| 0 <= k < |s.tasks| && Due(s.tasks[k], now) && s.tasks[k].id == log[j].id &&
            s.tasks[k].expr == log[j].expr;
        assert log[i] in s.log && s.tasks[k] in s.tasks;
        EarlierExtends(log[j].expr, log[i].time, s.tasks[k].nextRun, now);
      }
    }
  }

  lemma {:induction false} TickLogBehind(s: Sched, us: seq<Task>, now: nat, n: nat)
    requires Inv(s, now, n) && |us| == |s.tasks|
    requires forall i :: 0 <= i < |us| ==> Reworked(s.tasks[i], us[i], now)
    requires forall i :: 0 <= i < |us| && Due(s.tasks[i], now) ==> us[i].nextRun == NextRun(s.tasks[i].expr, now)
    ensures LogBehind(s.log + DueEvents(s.tasks, now), us)
  {
    ReworkedKeepsLog(s.log, s.tasks, us, now);
    var es := DueEvents(s.tasks, now);
    forall e <- s.log + es, u <- us | e.id == u.id
      ensures Earlier(u.expr, e.time, u.nextRun)
    {
      if e !in s.log {
        assert e in es;
        DueEventsFrom(s.tasks, now, e);
        var k :| 0 <= k < |us| && us[k] == u;
        var i :| 0 <= i < |s.tasks| && Due(s.tasks[i], now) && s.tasks[i].id == e.id && s.tasks[i].expr == e.expr;
        assert Reworked(s.tasks[k], us[k], now);
        assert i == k;
        NextRunIsAhead(u.expr, now);
      }
    }
  }

  lemma {:induction false} TickKeeps(s: Sched, cache: bool, codes: nat -> int, now: nat, n: nat)
    requires Inv(s, now, n)
    ensures Inv(Apply(s, Tick(cache, codes), now), now, n + 1)
  {
    var us := TickAll(s.tasks, now, cache, codes);
    forall k | 0 <= k < |us|
      ensures Reworked(s.tasks[k], us[k], now) && us[k].lastRun <= now && us[k].runs <= n + 1 && us[k].fails <= n + 1
    {
      assert TaskOk(s.tasks[k], now, n);
    }
    ReworkedKeepsTable(s.tasks, us, now, n);
    TickLogApart(s, now, n);
    TickLogBehind(s, us, now, n);
  }

  lemma {:induction false} InvLater(s: Sched, clock: nat, n: nat, clock': nat, n': nat)
    requires Inv(s, clock, n) && clock <= clock' && n <= n'
    ensures Inv(s, clock', n')
  {
    TableLater(s.tasks, clock, n, clock', n');
    TableLater(s.stored, clock, n, clock', n');
  }

  lemma {:induction false} EnableKeeps(s: Sched, id: string, on: bool, now: nat, n: nat)
    requires Inv(s, now, n)
    ensures Inv(Apply(s, Enable(id, on), now), now, n + 1)
  {
    if IndexOf(s.tasks, id).Some? {
      var i := IndexOf(s.tasks, id).value;
      assert TaskOk(s.tasks[i], now, n);
      var t := s.tasks[i];
      UpdateKeeps(s, i, t.(enabled := on, nextRun := if on then NextRun(t.expr, now) else t.nextRun), now, n);
    } else {
      InvLater(s, now, n, now, n + 1);
    }
  }

  lemma {:induction false} RunNowKeeps(s: Sched, id: string, code: int, now: nat, n: nat)
    requires Inv(s, now, n)
    ensures Inv(Apply(s, RunNow(id, code), now), now, n + 1)
  {
    if IndexOf(s.tasks, id).Some? {
      var i := IndexOf(s.tasks, id).value;
      assert TaskOk(s.tasks[i], now, n);
      UpdateKeeps(s, i, Dispatched(s.tasks[i], now, code == 0), now, n);
    } else {
      InvLater(s, now, n, now, n + 1);
    }
  }

  lemma {:induction false} ApplyKeeps(s: Sched, c: Call, n: nat)
    requires Inv(s, c.now, n) && GoodCall(c) && n < Pow10(CLOCK_DIGITS)
    ensures Inv(Apply(s, c.op, c.now), c.now, n + 1)
  {
    match c.op {
      case Add(_, _, _) =>
        AddKeeps(s, c, n);
        InvLater(Apply(s, c.op, c.now), c.now, n, c.now, n + 1);
      case Remove(id) =>
        RemoveKeeps(s, id, c.now, n);
        InvLater(Apply(s, c.op, c.now), c.now, n, c.now, n + 1);
      case Enable(id, on) => EnableKeeps(s, id, on, c.now, n);
      case RunNow(id, code) => RunNowKeeps(s, id, code, c.now, n);
      case Tick(cache, codes) => TickKeeps(s, cache, codes, c.now, n);
      case Restart => RestartKeeps(s, c.now, n);
    }
  }

  // ---------------------------------------------------------------- whole runs

  function ClockOf(calls: seq<Call>): nat {
    if calls == [] then 0 else calls[|calls| - 1].now
  }

  lemma {:induction false} RunKeepsInv(calls: seq<Call>)
    requires GoodRun(calls)
    ensures Inv(Exec(EMPTY, calls), ClockOf(calls), |calls|)
    decreases calls
  {
    if calls != [] {
      var n := |calls| - 1;
      var prior := calls[..n];
      assert forall c <- prior :: c in calls;
      RunKeepsInv(prior);
      var s := Exec(EMPTY, prior);
      InvLater(s, ClockOf(prior), n, calls[n].now, n);
      ApplyKeeps(s, calls[n], n);
    }
  }

  /**
   * At most one dispatch per period, by clock reading: over any run of adds, removes, enables, manual runs,
   * ticks and restarts, two dispatches of one task are decided in different minutes (or hours, by the later
   * expression). `CronDelay` tells when they take effect.
   */
  lemma {:induction false} OncePerPeriod(calls: seq<Call>, i: nat, j: nat)
    requires GoodRun(calls)
    requires i < j < |Exec(EMPTY, calls).log|
    requires Exec(EMPTY, calls).log[i].id == Exec(EMPTY, calls).log[j].id
    ensures var log := Exec(EMPTY, calls).log; Earlier(log[j].expr, log[i].time, log[j].time)
  {
    RunKeepsInv(calls);
  }

  /** A restart right after any run brings back every saved task with its history. */
  lemma {:induction false} RestartRestores(calls: seq<Call>, now: nat)
    requires GoodRun(calls) && ClockOf(calls) <= now && now + 3600 < Pow10(CLOCK_DIGITS)
    ensures var s := Exec(EMPTY, calls);
            Apply(s, Restart, now).tasks == RefreshedAll(s.stored, now)
  {
    RunKeepsInv(calls);
    InvLater(Exec(EMPTY, calls), ClockOf(calls), |calls|, now, |calls|);
    RestartLoads(Exec(EMPTY, calls), now, |calls|);
  }

  // ---------------------------------------------------------------- how many dispatches fit a time span

  /** Dispatches of `id` at or after `from`, up to `until`. */
  function InSpan(log: seq<Event>, id: string, from: nat, until: nat): seq<nat> {
    if log == [] then []
    else
      var e := log[|log| - 1];
      InSpan(log[..|log| - 1], id, from, until) + if e.id == id && from <= e.time <= until then [e.time] else []
  }

  lemma {:induction false} InSpanFrom(log: seq<Event>, id: string, from: nat, until: nat, k: nat) returns (i: nat)
    requires k < |InSpan(log, id, from, until)|
    ensures i < |log| && log[i].id == id && log[i].time == InSpan(log, id, from, until)[k] &&
            from <= log[i].time <= until
    decreases log
  {
    var n := |log| - 1;
    if k < |InSpan(log[..n], id, from, until)| {
      i := InSpanFrom(log[..n], id, from, until, k);
    } else {
      i := n;
    }
  }

  predicate Before(t: nat, u: nat, p: nat)
    requires p > 0
  {
    t / p < u / p
  }

  ghost predicate Rising(ts: seq<nat>, p: nat)
    requires p > 0
  {
    forall a, b :: 0 <= a < b < |ts| ==> Before(ts[a], ts[b], p)
  }

  lemma {:induction false} InSpanRises(log: seq<Event>, id: string, expr: string, from: nat, until: nat, p: nat)
    requires LogApart(log) && Period(expr) == Some(p)
    requires forall e <- log :: e.id == id ==> e.expr == expr
    ensures Rising(InSpan(log, id, from, until), p)
    decreases log
  {
    if log != [] {
      var n := |log| - 1;
      var ts := InSpan(log[..n], id, from, until);
      assert forall e <- log[..n] :: e in log;
      InSpanRises(log[..n], id, expr, from, until, p);
      forall a | 0 <= a < |ts| && log[n].id == id
        ensures Before(ts[a], log[n].time, p)
      {
        var i := InSpanFrom(log[..n], id, from, until, a);
        assert log[i] == log[..n][i];
        assert log[n] in log;
        assert Earlier(log[n].expr, log[i].time, log[n].time);
      }
      var all := InSpan(log, id, from, until);
      forall a, b | 0 <= a < b < |all|
        ensures Before(all[a], all[b], p)
      {
        if b < |ts| {
          assert Before(ts[a], ts[b], p);
        }
      }
    }
  }

  lemma {:induction false} RisingFits(ts: seq<nat>, p: nat, lo: nat, hi: nat)
    requires p > 0 && lo <= hi + 1
    requires Rising(ts, p)
    requires forall a :: 0 <= a < |ts| ==> lo <= ts[a] / p <= hi
    ensures |ts| <= hi + 1 - lo
    decreases ts
  {
    if ts != [] {
      var n := |ts| - 1;
      var top := ts[n] / p;
      if n > 0 {
        assert Before(ts[0], ts[n], p);
        forall a | 0 <= a < n
          ensures lo <= ts[..n][a] / p <= top - 1
        {
          assert Before(ts[a], ts[n], p);
        }
        RisingFits(ts[..n], p, lo, top - 1);
      }
    }
  }

  lemma {:induction false} SpanBuckets(from: nat, span: nat, p: nat)
    requires p == 60 || p == 3600
    ensures from / p <= (from + span) / p <= from / p + span / p + 1
  {
    if p == 60 {
    } else {
    }
  }

  /** The tasks of that id all carry the expression, and so do their dispatches. */
  ghost predicate Carries(s: Sched, id: string, expr: string) {
    && AllCarry(s.tasks, id, expr) && AllCarry(s.stored, id, expr)
    && forall e <- s.log :: e.id == id ==> e.expr == expr
  }

  ghost predicate AllCarry(ts: seq<Task>, id: string, expr: string) {
    forall t <- ts :: t.id == id ==> t.expr == expr
  }

  lemma {:induction false} UpdateCarries(ts: seq<Task>, i: nat, u: Task, id: string, expr: string)
    requires AllCarry(ts, id, expr) && i < |ts| && u.id == ts[i].id && u.expr == ts[i].expr
    ensures AllCarry(ts[i := u], id, expr)
  {
    assert ts[i] in ts;
  }

  lemma {:induction false} TickCarries(s: Sched, id: string, expr: string, cache: bool, codes: nat -> int, now: nat)
    requires AllCarry(s.tasks, id, expr)
    ensures AllCarry(TickAll(s.tasks, now, cache, codes), id, expr)
    ensures forall e <- DueEvents(s.tasks, now) :: e.id == id ==> e.expr == expr
  {
    var us := TickAll(s.tasks, now, cache, codes);
    forall t <- us | t.id == id
      ensures t.expr == expr
    {
      var i :| 0 <= i < |us| && us[i] == t;
      assert s.tasks[i] in s.tasks;
    }
    forall e <- DueEvents(s.tasks, now) | e.id == id
      ensures e.expr == expr
    {
      DueEventsFrom(s.tasks, now, e);
      var i :| 0 <= i < |s.tasks| && Due(s.tasks[i], now) && s.tasks[i].id == e.id && s.tasks[i].expr == e.expr;
      assert s.tasks[i] in s.tasks;
    }
  }

  lemma {:induction false} RefreshCarries(ts: seq<Task>, now: nat, id: string, expr: string)
    requires AllCarry(ts, id, expr)
    ensures AllCarry(RefreshedAll(ts, now), id, expr)
  {
    var us := RefreshedAll(ts, now);
    forall t <- us | t.id == id
      ensures t.expr == expr
    {
      var i :| 0 <= i < |us| && us[i] == t;
      assert ts[i] in ts;
    }
  }

  /** Every call that adds a task of that id gives it the expression. */
  predicate AddsOnly(op: Op, id: string, expr: string) {
    op.Add? && op.id == id ==> op.expr == expr
  }

  lemma {:induction false} EditCarries(s: Sched, c: Call, id: string, expr: string)
    requires Carries(s, id, expr) && GoodCall(c) && AddsOnly(c.op, id, expr) && !c.op.Tick? && !c.op.Restart?
    ensures Carries(Apply(s, c.op, c.now), id, expr)
  {
    if (c.op.Enable? || c.op.RunNow?) && IndexOf(s.tasks, c.op.id).Some? {
      var i := IndexOf(s.tasks, c.op.id).value;
      UpdateCarries(s.tasks, i, Apply(s, c.op, c.now).tasks[i], id, expr);
    }
  }

  lemma {:induction false} StepCarries(s: Sched, c: Call, n: nat, id: string, expr: string)
    requires Inv(s, c.now, n) && GoodCall(c) && n < Pow10(CLOCK_DIGITS)
    requires Carries(s, id, expr) && AddsOnly(c.op, id, expr)
    ensures Carries(Apply(s, c.op, c.now), id, expr)
  {
    if c.op.Tick? {
      TickCarries(s, id, expr, c.op.cache, c.op.codes, c.now);
    } else if c.op.Restart? {
      RestartLoads(s, c.now, n);
      RefreshCarries(s.stored, c.now, id, expr);
    } else {
      EditCarries(s, c, id, expr);
    }
  }

  lemma {:induction false} PriorRun(calls: seq<Call>)
    requires GoodRun(calls) && calls != []
    ensures GoodRun(calls[..|calls| - 1])
    ensures Inv(Exec(EMPTY, calls[..|calls| - 1]), calls[|calls| - 1].now, |calls| - 1) && GoodCall(calls[|calls| - 1])
  {
    var n := |calls| - 1;
    assert forall c <- calls[..n] :: c in calls;
    RunKeepsInv(calls[..n]);
    InvLater(Exec(EMPTY, calls[..n]), ClockOf(calls[..n]), n, calls[n].now, n);
  }

  lemma {:induction false} RunCarries(calls: seq<Call>, id: string, expr: string)
    requires GoodRun(calls) && forall c <- calls :: AddsOnly(c.op, id, expr)
    ensures Carries(Exec(EMPTY, calls), id, expr)
    decreases calls
  {
    if calls != [] {
      var n := |calls| - 1;
      PriorRun(calls);
      RunCarries(calls[..n], id, expr);
      StepCarries(Exec(EMPTY, calls[..n]), calls[n], n, id, expr);
    }
  }

  lemma {:induction false} SpanHolds(log: seq<Event>, id: string, from: nat, span: nat, p: nat, a: nat)
    requires (p == 60 || p == 3600) && a < |InSpan(log, id, from, from + span)|
    ensures from / p <= InSpan(log, id, from, from + span)[a] / p <= (from + span) / p
  {
    var i := InSpanFrom(log, id, from, from + span, a);
  }

  /**
   * By clock reading, a task added with one periodic expression is dispatched at most T / interval + 2 times
   * in any span of T seconds.
   */
  lemma {:induction false} DispatchRate(calls: seq<Call>, id: string, expr: string, p: nat, from: nat, span: nat)
    requires GoodRun(calls) && Period(expr) == Some(p) && forall c <- calls :: AddsOnly(c.op, id, expr)
    ensures |InSpan(Exec(EMPTY, calls).log, id, from, from + span)| <= span / p + 2
  {
    RunKeepsInv(calls);
    RunCarries(calls, id, expr);
    RateFits(Exec(EMPTY, calls).log, id, expr, p, from, span);
  }

  lemma {:induction false} RateFits(log: seq<Event>, id: string, expr: string, p: nat, from: nat, span: nat)
    requires LogApart(log) && Period(expr) == Some(p) && forall e <- log :: e.id == id ==> e.expr == expr
    ensures |InSpan(log, id, from, from + span)| <= span / p + 2
  {
    var ts := InSpan(log, id, from, from + span);
    InSpanRises(log, id, expr, from, from + span, p);
    forall a | 0 <= a < |ts|
      ensures from / p <= ts[a] / p <= (from + span) / p
    {
      SpanHolds(log, id, from, span, p, a);
    }
    var lo, hi := from / p, (from + span) / p;
    SpanBuckets(from, span, p);
    RisingFits(ts, p, lo, hi);
  }
}
