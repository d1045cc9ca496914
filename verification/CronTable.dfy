/** Which tasks the scheduler's table holds, and in what order, told from the calls alone (src/cron/cron.c). */
module CronTable {
  import opened Basics
  import opened CText
  import opened Cron
  import opened CronFile
  import opened CronSched
  import opened CronLife

  function Ids(ts: seq<Task>): (ids: seq<string>)
    ensures |ids| == |ts| && forall i :: 0 <= i < |ts| ==> ids[i] == ts[i].id
  {
    seq(|ts|, i requires 0 <= i < |ts| => ts[i].id)
  }

  function Without(ids: seq<string>, id: string): seq<string> {
    if ids == [] then []
    else
      var n := |ids| - 1;
      Without(ids[..n], id) + if ids[n] == id then [] else [ids[n]]
  }

  /** An id is appended when it is new and there is room among 64, and taken out when it is removed. */
  function IdsOf(calls: seq<Call>): seq<string> {
    if calls == [] then []
    else
      var n := |calls| - 1;
      var ids := IdsOf(calls[..n]);
      match calls[n].op
      case Add(id, _, _) => if |ids| < 64 && id !in ids then ids + [id] else ids
      case Remove(id) => Without(ids, id)
      case _ => ids
  }

  lemma {:induction false} WithoutAbsent(ids: seq<string>, id: string)
    requires id !in ids
    ensures Without(ids, id) == ids
    decreases ids
  {
    if ids != [] {
      var n := |ids| - 1;
      assert ids[n] in ids;
      WithoutAbsent(ids[..n], id);
    }
  }

  lemma {:induction false} WithoutAt(ids: seq<string>, i: nat)
    requires i < |ids| && forall k :: 0 <= k < |ids| && k != i ==> ids[k] != ids[i]
    ensures Without(ids, ids[i]) == ids[..i] + ids[i + 1..]
    decreases ids
  {
    var n := |ids| - 1;
    if i == n {
      WithoutAbsent(ids[..n], ids[i]);
    } else {
      WithoutAt(ids[..n], i);
      assert ids[..n][..i] == ids[..i];
    }
  }

  lemma {:induction false} DropIds(ts: seq<Task>, i: nat)
    requires i < |ts| && Unique(ts)
    ensures Ids(ts[..i] + ts[i + 1..]) == Without(Ids(ts), ts[i].id)
  {
    WithoutAt(Ids(ts), i);
  }

  lemma {:induction false} RemoveIds(s: Sched, id: string, now: nat)
    requires Unique(s.tasks)
    ensures Ids(Apply(s, Remove(id), now).tasks) == Without(Ids(s.tasks), id)
  {
    match IndexOf(s.tasks, id)
    case None =>
      IdsKnown(s.tasks, id);
      WithoutAbsent(Ids(s.tasks), id);
    case Some(i) => DropIds(s.tasks, i);
  }

  lemma {:induction false} IdsKnown(ts: seq<Task>, id: string)
    ensures id in Ids(ts) <==> IndexOf(ts, id).Some?
  {
    match IndexOf(ts, id)
    case None => assert forall i :: 0 <= i < |ts| ==> ts[i] in ts;
    case Some(i) => assert Ids(ts)[i] == id;
  }

  lemma {:induction false} AddIds(s: Sched, c: Call)
    requires c.op.Add? && GoodCall(c)
    ensures var ids := Ids(s.tasks);
            Ids(Apply(s, c.op, c.now).tasks) ==
            if |ids| < 64 && c.op.id !in ids then ids + [c.op.id] else ids
  {
    IdsKnown(s.tasks, c.op.id);
  }

  lemma {:induction false} CallIds(s: Sched, c: Call)
    requires Unique(s.tasks) && GoodCall(c) && !c.op.Restart?
    ensures var ids, ids' := Ids(s.tasks), Ids(Apply(s, c.op, c.now).tasks);
            ids' == match c.op
                    case Add(id, _, _) => if |ids| < 64 && id !in ids then ids + [id] else ids
                    case Remove(id) => Without(ids, id)
                    case _ => ids
  {
    if c.op.Add? {
      AddIds(s, c);
    } else if c.op.Remove? {
      RemoveIds(s, c.op.id, c.now);
    }
  }

  /** Table and file list the same ids. */
  ghost predicate Lists(s: Sched, ids: seq<string>) {
    Ids(s.tasks) == ids && Ids(s.stored) == ids
  }

  lemma {:induction false} LastCallLists(calls: seq<Call>)
    requires GoodRun(calls) && calls != [] && Lists(Exec(EMPTY, calls[..|calls| - 1]), IdsOf(calls[..|calls| - 1]))
    ensures Lists(Exec(EMPTY, calls), IdsOf(calls))
  {
    PriorRun(calls);
    var n := |calls| - 1;
    var s, c := Exec(EMPTY, calls[..n]), calls[n];
    if c.op.Restart? {
      RestartReads(calls);
    } else {
      CallIds(s, c);
      SavedOrSame(s, c);
    }
  }

  /**
   * Over every run, restarts included, table and file hold exactly the tasks that were added and not removed since,
   * in the order of their addition, at most 64: no call loses, duplicates or reorders any other task.
   */
  lemma {:induction false} TableIs(calls: seq<Call>)
    requires GoodRun(calls)
    ensures Lists(Exec(EMPTY, calls), IdsOf(calls))
    decreases |calls|
  {
    if calls != [] {
      PriorRun(calls);
      TableIs(calls[..|calls| - 1]);
      LastCallLists(calls);
    }
  }
}
