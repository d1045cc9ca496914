/** The table rate limiter (src/util/util.c) and its unbounded specification. */
module RateLimiter {
  import opened Requests

  const TABLE_SIZE := 256

  datatype Entry = Entry(ip: string, count: nat, first: nat, last: nat)

  /** What is remembered about one address: the window's start, the count in it, the last request. */
  datatype Usage = Usage(first: nat, count: nat, last: nat)

  // ---------------------------------------------------------------- specification: a map that never forgets

  datatype Spec = Spec(window: nat, limit: nat, uses: map<string, Usage>)

  function Bumped(u: Usage, window: nat, now: nat): Usage {
    if now - u.first > window then Usage(now, 1, now) else Usage(u.first, u.count + 1, now)
  }

  function SpecNext(s: Spec, ip: string, now: nat): (r: (Spec, bool)) {
    var u := if ip in s.uses then Bumped(s.uses[ip], s.window, now) else Usage(now, 1, now);
    (s.(uses := s.uses[ip := u]), u.count <= s.limit)
  }

  // ---------------------------------------------------------------- the table on values

  datatype Table = Table(window: nat, limit: nat, entries: seq<Entry>)

  function Find(es: seq<Entry>, ip: string): (i: nat)
    ensures i <= |es|
    ensures i < |es| ==> es[i].ip == ip
    ensures forall k :: 0 <= k < i ==> es[k].ip != ip
  {
    if es == [] || es[0].ip == ip then 0 else 1 + Find(es[1..], ip)
  }

  lemma {:induction false} FindIs(es: seq<Entry>, ip: string, i: nat)
    requires i <= |es| && (i < |es| ==> es[i].ip == ip)
    requires forall k :: 0 <= k < i ==> es[k].ip != ip
    ensures Find(es, ip) == i
  {
  }

  predicate Fresh(e: Entry, window: nat, now: nat) {
    now - e.last < window * 2
  }

  /** rate_limiter_cleanup keeps the entries seen within two windows, in order. */
  function Compact(es: seq<Entry>, window: nat, now: nat): (r: seq<Entry>)
    ensures |r| <= |es|
  {
    if es == [] then []
    else
      var n := |es| - 1;
      Compact(es[..n], window, now) + if Fresh(es[n], window, now) then [es[n]] else []
  }

  function Touched(e: Entry, window: nat, now: nat): Entry {
    var u := Bumped(Usage(e.first, e.count, e.last), window, now);
    Entry(e.ip, u.count, u.first, u.last)
  }

  function TableNext(t: Table, ip: string, now: nat): (r: (Table, bool)) {
    var i := Find(t.entries, ip);
    if i < |t.entries| then
      var e := Touched(t.entries[i], t.window, now);
      (t.(entries := t.entries[i := e]), e.count <= t.limit)
    else
      var es := if |t.entries| >= TABLE_SIZE then Compact(t.entries, t.window, now) else t.entries;
      if |es| >= TABLE_SIZE then (t.(entries := es), true)
      else (t.(entries := es + [Entry(ip, 1, now, now)]), true)
  }

  // ---------------------------------------------------------------- the table in place

  /** rate_limiter_t: 256 slots of which the first `count` are in use. */
  class Limiter {
    const slots: array<Entry>
    const window: nat
    const limit: nat
    var count: nat

    ghost predicate Valid()
      reads this
    {
      slots.Length == TABLE_SIZE && count <= TABLE_SIZE
    }

    ghost function View(): Table
      requires Valid()
      reads this, slots
    {
      Table(window, limit, slots[..count])
    }

    constructor (window: nat, limit: nat)
      ensures Valid() && fresh(slots) && View() == Table(window, limit, [])
    {
      slots := new Entry[TABLE_SIZE](_ => Entry("", 0, 0, 0));
      this.window, this.limit, count := window, limit, 0;
    }

    /** rate_limiter_cleanup: compaction with a read and a write index. */
    method Cleanup(now: nat)
      requires Valid()
      modifies this, slots
      ensures Valid() && View() == old(View()).(entries := Compact(old(slots[..count]), window, now))
    {
      ghost var before := slots[..count];
      var w := 0;
      var i := 0;
      while i < count
        invariant 0 <= w <= i <= count == old(count)
        invariant slots[..w] == Compact(before[..i], window, now)
        invariant forall k :: i <= k < count ==> slots[k] == before[k]
      {
        assert before[..i + 1][..i] == before[..i];
        if now - slots[i].last < window * 2 {
          if w != i {
            slots[w] := slots[i];
          }
          w := w + 1;
        }
        i := i + 1;
      }
      assert before[..count] == before;
      count := w;
    }

    /** rate_limiter_check: true is the source's 0. */
    method Check(ip: string, now: nat) returns (ok: bool)
      requires Valid()
      modifies this, slots
      ensures Valid() && (View(), ok) == TableNext(old(View()), ip, now)
    {
      var i := 0;
      while i < count && slots[i].ip != ip
        invariant i <= count
        invariant forall k :: 0 <= k < i ==> slots[k].ip != ip
      {
        i := i + 1;
      }
      FindIs(slots[..count], ip, i);
      if i < count {
        var e := slots[i];
        if now - e.first > window {
          e := e.(count := 0, first := now);
        }
        e := e.(count := e.count + 1, last := now);
        slots[i] := e;
        assert slots[..count] == old(slots[..count])[i := e];
        return e.count <= limit;
      }
      if count >= TABLE_SIZE {
        Cleanup(now);
        if count >= TABLE_SIZE {
          return true;
        }
      }
      ghost var kept := slots[..count];
      slots[count] := Entry(ip, 1, now, now);
      count := count + 1;
      assert slots[..count] == kept + [Entry(ip, 1, now, now)];
      ok := true;
    }
  }

  // ---------------------------------------------------------------- refinement

  function SpecVerdicts(s: Spec, reqs: seq<Req>): (v: seq<bool>)
    ensures |v| == |reqs|
    decreases reqs
  {
    if reqs == [] then []
    else
      var (s', ok) := SpecNext(s, reqs[0].ip, reqs[0].now);
      [ok] + SpecVerdicts(s', reqs[1..])
  }

  function TableVerdicts(t: Table, reqs: seq<Req>): (v: seq<bool>)
    ensures |v| == |reqs|
    decreases reqs
  {
    if reqs == [] then []
    else
      var (t', ok) := TableNext(t, reqs[0].ip, reqs[0].now);
      [ok] + TableVerdicts(t', reqs[1..])
  }

  ghost predicate Live(s: Spec, ip: string, now: nat) {
    ip in s.uses && now - s.uses[ip].last < s.window * 2
  }

  ghost function LiveSet(s: Spec, now: nat): set<string> {
    set ip | ip in s.uses && Live(s, ip, now)
  }

  /** A request finds room when its address is live already or fewer than 256 addresses are. */
  ghost predicate HasRoom(s: Spec, ip: string, now: nat) {
    Live(s, ip, now) || |LiveSet(s, now)| < TABLE_SIZE
  }

  ghost predicate RoomThroughout(s: Spec, reqs: seq<Req>)
    decreases reqs
  {
    reqs == [] || (HasRoom(s, reqs[0].ip, reqs[0].now)
                   && RoomThroughout(SpecNext(s, reqs[0].ip, reqs[0].now).0, reqs[1..]))
  }

  ghost predicate Distinct(es: seq<Entry>) {
    forall i, j :: 0 <= i < j < |es| ==> es[i].ip != es[j].ip
  }

  /** The table holds everything that is still live and nothing wrong. */
  ghost predicate Agrees(t: Table, s: Spec, clock: nat) {
    && t.window == s.window && t.limit == s.limit
    && Distinct(t.entries)
    && (forall e <- t.entries :: e.ip in s.uses && s.uses[e.ip] == Usage(e.first, e.count, e.last))
    && (forall ip <- s.uses :: Held(t, ip) || !Live(s, ip, clock))
    && (forall ip <- s.uses :: s.uses[ip].first <= s.uses[ip].last <= clock)
  }

  ghost predicate Held(t: Table, ip: string) {
    exists e :: e in t.entries && e.ip == ip
  }

  lemma {:induction false} AgreesLater(t: Table, s: Spec, clock: nat, clock': nat)
    requires Agrees(t, s, clock) && clock <= clock'
    ensures Agrees(t, s, clock')
  {
  }

  lemma {:induction false} CompactMembers(es: seq<Entry>, window: nat, now: nat)
    ensures forall e :: e in Compact(es, window, now) <==> e in es && Fresh(e, window, now)
    decreases es
  {
    if es != [] {
      var n := |es| - 1;
      CompactMembers(es[..n], window, now);
      assert es == es[..n] + [es[n]];
    }
  }

  lemma {:induction false} CompactKeepsDistinct(es: seq<Entry>, window: nat, now: nat)
    requires Distinct(es)
    ensures Distinct(Compact(es, window, now))
    decreases es
  {
    if es != [] {
      var n := |es| - 1;
      CompactKeepsDistinct(es[..n], window, now);
      CompactMembers(es[..n], window, now);
      var r := Compact(es[..n], window, now);
      forall i | 0 <= i < |r|
        ensures r[i].ip != es[n].ip
      {
        assert r[i] in es[..n];
      }
    }
  }

  lemma {:induction false} CompactAgrees(t: Table, s: Spec, now: nat)
    requires Agrees(t, s, now)
    ensures Agrees(t.(entries := Compact(t.entries, t.window, now)), s, now)
  {
    CompactKeepsDistinct(t.entries, t.window, now);
    CompactMembers(t.entries, t.window, now);
    var t' := t.(entries := Compact(t.entries, t.window, now));
    forall ip <- s.uses
      ensures Held(t', ip) || !Live(s, ip, now)
    {
      if Live(s, ip, now) {
        var e :| e in t.entries && e.ip == ip;
        assert Fresh(e, t.window, now);
        assert e in t'.entries;
      }
    }
  }

  lemma {:induction false} DistinctFit(es: seq<Entry>, ips: set<string>)
    requires Distinct(es)
    requires forall e <- es :: e.ip in ips
    ensures |es| <= |ips|
    decreases es
  {
    if es != [] {
      var n := |es| - 1;
      forall e <- es[..n]
        ensures e.ip in ips - {es[n].ip}
      {
        assert e in es;
      }
      DistinctFit(es[..n], ips - {es[n].ip});
    }
  }

  lemma {:induction false} CompactLeavesRoom(t: Table, s: Spec, now: nat)
    requires Agrees(t, s, now) && |LiveSet(s, now)| < TABLE_SIZE
    ensures |Compact(t.entries, t.window, now)| < TABLE_SIZE
  {
    var r := Compact(t.entries, t.window, now);
    CompactKeepsDistinct(t.entries, t.window, now);
    CompactMembers(t.entries, t.window, now);
    forall e <- r
      ensures e.ip in LiveSet(s, now)
    {
      assert e in t.entries && Fresh(e, t.window, now);
    }
    DistinctFit(r, LiveSet(s, now));
  }

  /** An entry already in the table is updated exactly as in the map. */
  lemma {:induction false} HitStep(t: Table, s: Spec, ip: string, now: nat)
    requires Agrees(t, s, now) && Find(t.entries, ip) < |t.entries|
    ensures Agrees(TableNext(t, ip, now).0, SpecNext(s, ip, now).0, now)
    ensures TableNext(t, ip, now).1 == SpecNext(s, ip, now).1
  {
    var i := Find(t.entries, ip);
    var t', s' := TableNext(t, ip, now).0, SpecNext(s, ip, now).0;
    assert t.entries[i] in t.entries;
    assert t'.entries[i] in t'.entries && t'.entries[i].ip == ip;
    forall e <- t'.entries
      ensures e.ip in s'.uses && s'.uses[e.ip] == Usage(e.first, e.count, e.last)
    {
      var k :| 0 <= k < |t'.entries| && t'.entries[k] == e;
      if k != i {
        assert e == t.entries[k] && t.entries[k] in t.entries;
        assert e.ip != ip;
      }
    }
    forall x <- s'.uses
      ensures Held(t', x) || !Live(s', x, now)
    {
      if x != ip && Held(t, x) {
        var e :| e in t.entries && e.ip == x;
        var k :| 0 <= k < |t.entries| && t.entries[k] == e;
        assert t'.entries[k] == e;
      }
    }
  }

  /** A new or long-forgotten address starts a window in both. */
  lemma {:induction false} MissStep(t: Table, s: Spec, ip: string, now: nat)
    requires Agrees(t, s, now) && s.window >= 1 && s.limit >= 1
    requires (forall e <- t.entries :: e.ip != ip) && !Live(s, ip, now)
    ensures SpecNext(s, ip, now).1
    ensures Agrees(t.(entries := t.entries + [Entry(ip, 1, now, now)]), SpecNext(s, ip, now).0, now)
  {
    var s' := SpecNext(s, ip, now).0;
    assert s'.uses == s.uses[ip := Usage(now, 1, now)];
    var t' := t.(entries := t.entries + [Entry(ip, 1, now, now)]);
    assert t'.entries[|t.entries|].ip == ip;
    forall x <- s'.uses
      ensures Held(t', x) || !Live(s', x, now)
    {
      if x != ip && Held(t, x) {
        var e :| e in t.entries && e.ip == x;
        assert e in t'.entries;
      }
    }
  }

  lemma {:induction false} StepRefines(t: Table, s: Spec, ip: string, now: nat)
    requires Agrees(t, s, now) && s.window >= 1 && s.limit >= 1 && HasRoom(s, ip, now)
    ensures Agrees(TableNext(t, ip, now).0, SpecNext(s, ip, now).0, now)
    ensures TableNext(t, ip, now).1 == SpecNext(s, ip, now).1
  {
    var i := Find(t.entries, ip);
    if i < |t.entries| {
      HitStep(t, s, ip, now);
    } else {
      assert !Live(s, ip, now);
      if |t.entries| >= TABLE_SIZE {
        CompactLeavesRoom(t, s, now);
        CompactAgrees(t, s, now);
        CompactMembers(t.entries, t.window, now);
        MissStep(t.(entries := Compact(t.entries, t.window, now)), s, ip, now);
      } else {
        MissStep(t, s, ip, now);
      }
    }
  }

  /**
   * Compaction is never observable: as long as no more than 256 addresses are live at once, the
   * 256-entry table gives on every request trace the verdicts of the map that never forgets.
   */
  lemma {:induction false} TableRefinesMap(t: Table, s: Spec, clock: nat, reqs: seq<Req>)
    requires Agrees(t, s, clock) && s.window >= 1 && s.limit >= 1
    requires Forward(reqs, clock) && RoomThroughout(s, reqs)
    ensures TableVerdicts(t, reqs) == SpecVerdicts(s, reqs)
    decreases reqs
  {
    if reqs != [] {
      var ip, now := reqs[0].ip, reqs[0].now;
      AgreesLater(t, s, clock, now);
      StepRefines(t, s, ip, now);
      TableRefinesMap(TableNext(t, ip, now).0, SpecNext(s, ip, now).0, now, reqs[1..]);
    }
  }

  /** Why the limit has to be positive: the table lets every new address through unchecked. */
  lemma {:induction false} FirstVerdict(window: nat, limit: nat, ip: string, now: nat)
    ensures TableNext(Table(window, limit, []), ip, now).1 == SpecNext(Spec(window, limit, map[]), ip, now).1
            <==> limit >= 1
  {
    assert Find([], ip) == 0;
  }

  // ---------------------------------------------------------------- what happens without room

  ghost predicate FullWithout(t: Table, ip: string, now: nat) {
    && |t.entries| == TABLE_SIZE
    && (forall e <- t.entries :: e.ip != ip && Fresh(e, t.window, now))
  }

  lemma {:induction false} CompactAllFresh(es: seq<Entry>, window: nat, now: nat)
    requires forall k :: 0 <= k < |es| ==> Fresh(es[k], window, now)
    ensures Compact(es, window, now) == es
    decreases es
  {
    if es != [] {
      var n := |es| - 1;
      CompactAllFresh(es[..n], window, now);
      assert es == es[..n] + [es[n]];
    }
  }

  /** With 256 other live addresses the limiter stops limiting: any number of requests passes. */
  lemma {:induction false} FullTableAdmitsAll(t: Table, ip: string, now: nat, n: nat)
    requires FullWithout(t, ip, now)
    ensures forall v <- TableVerdicts(t, Repeated(ip, now, n)) :: v
    decreases n
  {
    if n > 0 {
      CompactAllFresh(t.entries, t.window, now);
      assert forall k :: 0 <= k < |t.entries| ==> t.entries[k] in t.entries;
      FindIs(t.entries, ip, |t.entries|);
      FullTableAdmitsAll(t, ip, now, n - 1);
      assert Repeated(ip, now, n)[1..] == Repeated(ip, now, n - 1);
    }
  }

  // ---------------------------------------------------------------- the sliding-window bound

  /** How often `ip` is admitted between `a` and `b`. */
  function Admitted(reqs: seq<Req>, v: seq<bool>, ip: string, a: nat, b: nat): nat
    requires |v| == |reqs|
  {
    if reqs == [] then 0
    else
      (if v[0] && reqs[0].ip == ip && a <= reqs[0].now <= b then 1 else 0)
      + Admitted(reqs[1..], v[1..], ip, a, b)
  }

  /** The most that can still be admitted in [a, a + window] once the clock has reached `a`. */
  function Budget(s: Spec, ip: string, a: nat): nat {
    if ip !in s.uses then s.limit
    else Left(s.uses[ip].count, s.limit) + if s.uses[ip].first < a then s.limit else 0
  }

  lemma {:induction false} NoneAfter(reqs: seq<Req>, v: seq<bool>, ip: string, a: nat, b: nat)
    requires |v| == |reqs| && forall r <- reqs :: b < r.now
    ensures Admitted(reqs, v, ip, a, b) == 0
    decreases reqs
  {
    if reqs != [] {
      assert reqs[0] in reqs;
      NoneAfter(reqs[1..], v[1..], ip, a, b);
    }
  }

  ghost predicate SpecOk(s: Spec, clock: nat) {
    forall ip <- s.uses :: s.uses[ip].first <= s.uses[ip].last <= clock && s.uses[ip].count >= 1
  }

  /** Inside the span, one admission costs at least one unit of the budget. */
  lemma {:induction false} BudgetStep(s: Spec, clock: nat, r: Req, ip: string, a: nat)
    requires SpecOk(s, clock) && a <= clock <= r.now <= a + s.window
    ensures var (s', ok) := SpecNext(s, r.ip, r.now);
            (if ok && r.ip == ip then 1 else 0) + Budget(s', ip, a) <= Budget(s, ip, a)
  {
  }

  lemma {:induction false} WithinBudget(s: Spec, clock: nat, reqs: seq<Req>, ip: string, a: nat)
    requires SpecOk(s, clock) && Forward(reqs, clock) && a <= clock
    ensures Admitted(reqs, SpecVerdicts(s, reqs), ip, a, a + s.window) <= Budget(s, ip, a)
    decreases reqs
  {
    if reqs != [] {
      var r := reqs[0];
      if r.now > a + s.window {
        NoneAfter(reqs, SpecVerdicts(s, reqs), ip, a, a + s.window);
      } else {
        BudgetStep(s, clock, r, ip, a);
        WithinBudget(SpecNext(s, r.ip, r.now).0, r.now, reqs[1..], ip, a);
      }
    }
  }

  /** In any span of one window length an address is admitted at most twice the limit. */
  lemma {:induction false} SlidingBound(s: Spec, clock: nat, reqs: seq<Req>, ip: string, a: nat)
    requires SpecOk(s, clock) && Forward(reqs, clock)
    ensures Admitted(reqs, SpecVerdicts(s, reqs), ip, a, a + s.window) <= 2 * s.limit
    decreases reqs
  {
    if reqs != [] {
      var r := reqs[0];
      if r.now < a {
        SlidingBound(SpecNext(s, r.ip, r.now).0, r.now, reqs[1..], ip, a);
      } else {
        WithinBudget(s, r.now, reqs, ip, a);
      }
    }
  }

  /** The same for the real table, started empty. */
  lemma {:induction false} TableSlidingBound(window: nat, limit: nat, reqs: seq<Req>, ip: string, a: nat)
    requires window >= 1 && limit >= 1 && Forward(reqs, 0) && RoomThroughout(Spec(window, limit, map[]), reqs)
    ensures Admitted(reqs, TableVerdicts(Table(window, limit, []), reqs), ip, a, a + window) <= 2 * limit
  {
    TableRefinesMap(Table(window, limit, []), Spec(window, limit, map[]), 0, reqs);
    SlidingBound(Spec(window, limit, map[]), 0, reqs, ip, a);
  }
}
