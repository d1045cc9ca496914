/** The scheduler as it runs: a fixed array of tasks, a count, and a file rewritten after each change. */
module CronScheduler {
  import opened Basics
  import opened CText
  import opened Cron
  import opened CronFile
  import opened CronSched

  /** The payloads that one tick pushes to the job cache, in table order. */
  function DueCommands(ts: seq<Task>, now: nat): seq<string> {
    if ts == [] then []
    else
      var t := ts[|ts| - 1];
      DueCommands(ts[..|ts| - 1], now) + if Due(t, now) then [t.cmd] else []
  }

  lemma {:induction false} DueSnoc(ts: seq<Task>, i: nat, now: nat)
    requires i < |ts|
    ensures DueCommands(ts[..i + 1], now) == DueCommands(ts[..i], now) + (if Due(ts[i], now) then [ts[i].cmd] else [])
  {
    assert ts[..i + 1][..i] == ts[..i];
  }

  /** `at` lists, in order, exactly the positions of the tasks that are enabled and whose time has come. */
  ghost predicate DuePositions(ts: seq<Task>, now: nat, at: seq<nat>) {
    && (forall k :: 0 <= k < |at| ==> at[k] < |ts| && ts[at[k]].enabled && ts[at[k]].nextRun <= now)
    && (forall k, m :: 0 <= k < m < |at| ==> at[k] < at[m])
    && (forall i :: 0 <= i < |ts| && ts[i].enabled && ts[i].nextRun <= now ==> i in at)
  }

  lemma {:induction false} DuePositionsSnoc(ts: seq<Task>, now: nat, at: seq<nat>)
    requires ts != [] && DuePositions(ts[..|ts| - 1], now, at)
    ensures var n := |ts| - 1;
            DuePositions(ts, now, at + if ts[n].enabled && ts[n].nextRun <= now then [n] else [])
  {
    var n := |ts| - 1;
    var all := at + if ts[n].enabled && ts[n].nextRun <= now then [n] else [];
    forall i | 0 <= i < |ts| && ts[i].enabled && ts[i].nextRun <= now
      ensures i in all
    {
      if i < n {
        assert ts[..n][i] == ts[i];
      } else {
        assert all[|at|] == n;
      }
    }
    assert forall k :: 0 <= k < |at| ==> ts[..n][at[k]] == ts[at[k]];
  }

  /** A tick dispatches each due task once, in table order, and enqueues its command. */
  lemma {:induction false} DueInOrder(ts: seq<Task>, now: nat) returns (at: seq<nat>)
    ensures DuePositions(ts, now, at)
    ensures |DueEvents(ts, now)| == |DueCommands(ts, now)| == |at|
    ensures forall k :: 0 <= k < |at| ==>
              DueEvents(ts, now)[k] == Event(ts[at[k]].id, ts[at[k]].expr, now) &&
                  DueCommands(ts, now)[k] == ts[at[k]].cmd
    decreases ts
  {
    if ts == [] {
      at := [];
    } else {
      var n := |ts| - 1;
      var before := DueInOrder(ts[..n], now);
      DuePositionsSnoc(ts, now, before);
      at := before + if ts[n].enabled && ts[n].nextRun <= now then [n] else [];
      assert forall k :: 0 <= k < |before| ==> ts[..n][before[k]] == ts[before[k]];
    }
  }

  /** The bookkeeping after one run of a task. */
  method Book(t: Task, ok: bool, now: nat) returns (u: Task)
    ensures u == Dispatched(t, now, ok)
  {
    u := t.(lastRun := now);
    if ok {
      u := u.(runs := u.runs + 1);
    } else {
      u := u.(fails := u.fails + 1);
    }
    var next := CalculateNextRun(u.expr, now);
    u := u.(nextRun := next);
  }

  class Scheduler {
    const slots: array<Task>
    var count: nat
    var disk: string
    ghost var stored: seq<Task>
    ghost var log: seq<Event>

    ghost predicate Valid()
      reads this
    {
      slots.Length == MAX_TASKS && count <= MAX_TASKS
    }

    ghost function View(): Sched
      requires Valid()
      reads this, slots
    {
      Sched(slots[..count], disk, stored, log)
    }

    constructor (blank: Task)
      ensures Valid() && fresh(slots) && View() == EMPTY
    {
      slots := new Task[MAX_TASKS](_ => blank);
      count, disk, stored, log := 0, "", [], [];
    }

    /** The strcmp loop that opens most operations. */
    method Find(id: string) returns (found: bool, at: nat)
      requires Valid()
      ensures found ==> at < count && IndexOf(slots[..count], id) == Some(at)
      ensures !found ==> IndexOf(slots[..count], id) == None
    {
      at := 0;
      while at < count
        invariant at <= count
        invariant forall i :: 0 <= i < at ==> slots[i].id != id
      {
        if slots[at].id == id {
          assert slots[..count][at].id == id;
          return true, at;
        }
        at := at + 1;
      }
      found := false;
    }

    method Store()
      requires Valid()
      modifies this`disk, this`stored
      ensures View() == Saved(old(View()), slots[..count])
    {
      disk := SaveTasks(slots[..count]);
      stored := slots[..count];
    }

    method Add(id: string, expr: string, cmd: string, now: nat) returns (ok: bool)
      requires Valid()
      modifies this, slots
      ensures Valid() && View() == Apply(old(View()), CronSched.Add(id, expr, cmd), now)
      ensures ok <==> old(count) < MAX_TASKS && IndexOf(old(slots[..count]), id) == None
    {
      if count >= MAX_TASKS {
        return false;
      }
      var found, _ := Find(id);
      if found {
        return false;
      }
      var next := CalculateNextRun(expr, now);
      slots[count] := Task(Bounded(id, ID_SIZE), Bounded(expr, EXPR_SIZE), Bounded(cmd, CMD_SIZE), true, 0, next, 0, 0);
      count := count + 1;
      assert slots[..count] == old(slots[..count]) + [NewTask(id, expr, cmd, now)];
      Store();
      ok := true;
    }

    /** Close the gap that a removed task leaves. */
    method ShiftDown(at: nat)
      requires Valid() && at < count
      modifies slots
      ensures slots[..count - 1] == old(slots[..count])[..at] + old(slots[..count])[at + 1..]
    {
      ghost var before := slots[..count];
      var j := at;
      while j < count - 1
        invariant at <= j <= count - 1
        invariant forall k :: 0 <= k < at ==> slots[k] == before[k]
        invariant forall k :: at <= k < j ==> slots[k] == before[k + 1]
        invariant forall k :: j <= k < count ==> slots[k] == before[k]
      {
        slots[j] := slots[j + 1];
        j := j + 1;
      }
    }

    method Remove(id: string, now: nat) returns (ok: bool)
      requires Valid()
      modifies this, slots
      ensures Valid() && View() == Apply(old(View()), CronSched.Remove(id), now)
      ensures ok <==> IndexOf(old(slots[..count]), id).Some?
    {
      var found, at := Find(id);
      if !found {
        return false;
      }
      ShiftDown(at);
      count := count - 1;
      Store();
      ok := true;
    }

    method Enable(id: string, on: bool, now: nat) returns (ok: bool)
      requires Valid()
      modifies this, slots
      ensures Valid() && View() == Apply(old(View()), CronSched.Enable(id, on), now)
      ensures ok <==> IndexOf(old(slots[..count]), id).Some?
    {
      var found, at := Find(id);
      if !found {
        return false;
      }
      ghost var before := slots[..count];
      var t := slots[at].(enabled := on);
      if on {
        var next := CalculateNextRun(t.expr, now);
        t := t.(nextRun := next);
      }
      slots[at] := t;
      assert slots[..count] == before[at := t];
      Store();
      ok := true;
    }

    /** cron_run_task_now; `code` is the exit status of the command. */
    method RunNow(id: string, code: int, now: nat) returns (ok: bool)
      requires Valid()
      modifies this, slots
      ensures Valid() && View() == Apply(old(View()), CronSched.RunNow(id, code), now)
      ensures ok <==> IndexOf(old(slots[..count]), id).Some?
    {
      var found, at := Find(id);
      if !found {
        return false;
      }
      ghost var before := slots[..count];
      var t := Book(slots[at], code == 0, now);
      slots[at] := t;
      assert slots[..count] == before[at := t];
      Store();
      ok := true;
    }

    /** The body of the due-task loop. */
    method DispatchOne(i: nat, cache: bool, ok: bool, now: nat) returns (pushed: seq<string>)
      requires Valid() && i < count
      modifies slots
      ensures slots[i] == Ticked(old(slots[i]), now, ok)
      ensures forall k :: 0 <= k < slots.Length && k != i ==> slots[k] == old(slots[k])
      ensures pushed == if cache && Due(old(slots[i]), now) then [old(slots[i]).cmd] else []
    {
      pushed := [];
      var t := slots[i];
      if t.enabled && t.nextRun <= now {
        if cache {
          pushed := [t.cmd];
        }
        slots[i] := Book(t, ok, now);
      }
    }

    /** The due-task loop of cron_run_pending. */
    method DispatchDue(cache: bool, codes: nat -> int, now: nat) returns (enqueued: seq<string>)
      requires Valid()
      modifies slots
      ensures slots[..count] == TickAll(old(slots[..count]), now, cache, codes)
      ensures enqueued == if cache then DueCommands(old(slots[..count]), now) else []
    {
      enqueued := [];
      ghost var before := slots[..count];
      ghost var after := TickAll(before, now, cache, codes);
      var i := 0;
      while i < count
        invariant i <= count == |before|
        invariant forall k :: 0 <= k < i ==> slots[k] == after[k]
        invariant forall k :: i <= k < count ==> slots[k] == before[k]
        invariant enqueued == if cache then DueCommands(before[..i], now) else []
      {
        DueSnoc(before, i, now);
        var pushed := DispatchOne(i, cache, cache || codes(i) == 0, now);
        enqueued := enqueued + pushed;
        i := i + 1;
      }
      assert before[..count] == before;
    }

    /** cron_run_pending: `enqueued` is what went to the job cache. */
    method RunPending(cache: bool, codes: nat -> int, now: nat) returns (enqueued: seq<string>)
      requires Valid()
      modifies this, slots
      ensures Valid() && View() == Apply(old(View()), Tick(cache, codes), now)
      ensures enqueued == if cache then DueCommands(old(slots[..count]), now) else []
    {
      log := log + DueEvents(slots[..count], now);
      enqueued := DispatchDue(cache, codes, now);
      Store();
    }

    /** Fill the table from the front. */
    method Fill(tasks: seq<Task>)
      requires Valid() && |tasks| <= MAX_TASKS
      modifies this`count, slots
      ensures Valid() && slots[..count] == tasks
    {
      count := 0;
      while count < |tasks|
        invariant count <= |tasks| && slots[..count] == tasks[..count]
      {
        slots[count] := tasks[count];
        count := count + 1;
      }
    }

    /** cron_init: forget the table and read the file. */
    method Init(now: nat)
      requires Valid()
      modifies this, slots
      ensures Valid() && View() == Apply(old(View()), Restart, now)
    {
      var tasks := LoadTasks(disk, now);
      assert |tasks| <= MAX_TASKS by {
        LoadBounded(disk, [], now);
      }
      Fill(tasks);
    }
  }

  lemma {:induction false} LoadBounded(s: string, acc: seq<Task>, now: nat)
    requires |acc| <= MAX_TASKS
    ensures |LoadFrom(s, acc, now)| <= MAX_TASKS
    decreases |s|
  {
    if s != "" && |acc| < MAX_TASKS {
      var n := LineLen(s, LINE_ROOM);
      var t := ParseLine(s[..n], now);
      LoadBounded(s[n..], acc, now);
      if t.Some? {
        LoadBounded(s[n..], acc + [t.value], now);
      }
    }
  }
}
