/** What the table limiter does when more than 256 addresses are live (src/util/util.c). */
module RateLimiterRoom {
  import opened CText
  import opened Requests
  import opened RateLimiter

  function TableAfter(t: Table, reqs: seq<Req>): Table
    decreases reqs
  {
    if reqs == [] then t else TableAfter(TableNext(t, reqs[0].ip, reqs[0].now).0, reqs[1..])
  }

  function SpecAfter(s: Spec, reqs: seq<Req>): Spec
    decreases reqs
  {
    if reqs == [] then s else SpecAfter(SpecNext(s, reqs[0].ip, reqs[0].now).0, reqs[1..])
  }

  lemma {:induction false} TableSplit(t: Table, a: seq<Req>, b: seq<Req>)
    ensures TableVerdicts(t, a + b) == TableVerdicts(t, a) + TableVerdicts(TableAfter(t, a), b)
    decreases a
  {
    if a == [] {
      assert a + b == b;
    } else {
      assert (a + b)[1..] == a[1..] + b;
      TableSplit(TableNext(t, a[0].ip, a[0].now).0, a[1..], b);
    }
  }

  lemma {:induction false} SpecSplit(s: Spec, a: seq<Req>, b: seq<Req>)
    ensures SpecVerdicts(s, a + b) == SpecVerdicts(s, a) + SpecVerdicts(SpecAfter(s, a), b)
    decreases a
  {
    if a == [] {
      assert a + b == b;
    } else {
      assert (a + b)[1..] == a[1..] + b;
      SpecSplit(SpecNext(s, a[0].ip, a[0].now).0, a[1..], b);
    }
  }

  // ---------------------------------------------------------------- filling the table

  ghost predicate Apart(ips: seq<string>) {
    forall i, j :: 0 <= i < j < |ips| ==> ips[i] != ips[j]
  }

  /** One request of each address, all at one time. */
  function Round(ips: seq<string>, now: nat): seq<Req> {
    if ips == [] then [] else [Req(ips[0], now)] + Round(ips[1..], now)
  }

  function NewEntries(ips: seq<string>, now: nat): (es: seq<Entry>)
    ensures |es| == |ips| && forall i :: 0 <= i < |ips| ==> es[i] == Entry(ips[i], 1, now, now)
  {
    if ips == [] then [] else [Entry(ips[0], 1, now, now)] + NewEntries(ips[1..], now)
  }

  lemma {:induction false} NotFound(es: seq<Entry>, ip: string)
    requires forall e <- es :: e.ip != ip
    ensures Find(es, ip) == |es|
  {
    assert forall k :: 0 <= k < |es| ==> es[k] in es;
    FindIs(es, ip, |es|);
  }

  lemma {:induction false} FillsOne(t: Table, ip: string, now: nat)
    requires |t.entries| < TABLE_SIZE && forall e <- t.entries :: e.ip != ip
    ensures TableNext(t, ip, now) == (t.(entries := t.entries + [Entry(ip, 1, now, now)]), true)
  {
    NotFound(t.entries, ip);
  }

  /** New addresses that find room are all admitted and entered in order. */
  lemma {:induction false} Fills(t: Table, ips: seq<string>, now: nat)
    requires Apart(ips) && |t.entries| + |ips| <= TABLE_SIZE
    requires forall e <- t.entries :: e.ip !in ips
    ensures TableAfter(t, Round(ips, now)).entries == t.entries + NewEntries(ips, now)
    ensures TableAfter(t, Round(ips, now)).window == t.window
    ensures forall v <- TableVerdicts(t, Round(ips, now)) :: v
    decreases ips
  {
    if ips != [] {
      var e := Entry(ips[0], 1, now, now);
      var t' := t.(entries := t.entries + [e]);
      assert ips[0] in ips;
      FillsOne(t, ips[0], now);
      assert Round(ips, now)[1..] == Round(ips[1..], now);
      assert ips[0] !in ips[1..];
      Fills(t', ips[1..], now);
      Cons(t.entries, e, NewEntries(ips[1..], now));
    }
  }

  lemma {:induction false} Cons(a: seq<Entry>, e: Entry, b: seq<Entry>)
    ensures a + [e] + b == a + ([e] + b)
  {
  }

  /**
   * From the empty table, 256 other addresses with one request each switch the limiter off for everybody
   * else: any number of requests of any further address passes.
   */
  lemma {:induction false} FloodSwitchesOff(window: nat, limit: nat, ips: seq<string>, ip: string, now: nat, n: nat)
    requires window >= 1 && Apart(ips) && |ips| == TABLE_SIZE && ip !in ips
    ensures var reqs := Round(ips, now) + Repeated(ip, now, n);
      forall v <- TableVerdicts(Table(window, limit, []), reqs) :: v
  {
    var t := Table(window, limit, []);
    Fills(t, ips, now);
    var full := TableAfter(t, Round(ips, now));
    assert full.entries == NewEntries(ips, now);
    forall e <- full.entries
      ensures e.ip != ip && Fresh(e, window, now)
    {
      var i :| 0 <= i < |ips| && full.entries[i] == e;
      assert ips[i] in ips;
    }
    FullTableAdmitsAll(full, ip, now, n);
    TableSplit(t, Round(ips, now), Repeated(ip, now, n));
  }

  /** There are such addresses. */
  lemma {:induction false} ManyAddresses() returns (ips: seq<string>)
    ensures Apart(ips) && |ips| == TABLE_SIZE && "x" !in ips
  {
    ips := seq(TABLE_SIZE, i requires 0 <= i < TABLE_SIZE => Digits(i));
    forall i, j | 0 <= i < j < TABLE_SIZE
      ensures ips[i] != ips[j]
    {
      AtoiDigits(i);
      AtoiDigits(j);
    }
    forall i | 0 <= i < TABLE_SIZE
      ensures ips[i] != "x"
    {
      assert IsDigit(Digits(i)[0]);
    }
  }

  // ---------------------------------------------------------------- room is needed

  ghost function EntryIps(es: seq<Entry>): set<string> {
    set e <- es :: e.ip
  }

  lemma {:induction false} EntryIpsFit(es: seq<Entry>)
    ensures |EntryIps(es)| <= |es|
    decreases es
  {
    if es != [] {
      var n := |es| - 1;
      EntryIpsFit(es[..n]);
      assert EntryIps(es) == EntryIps(es[..n]) + {es[n].ip};
    }
  }

  lemma {:induction false} SameSize(a: set<string>, b: set<string>)
    requires a <= b && |a| >= |b|
    ensures a == b
  {
    if x :| x in b && x !in a {
      assert a + {x} <= b;
      Smaller(a + {x}, b);
    }
  }

  lemma {:induction false} Smaller(a: set<string>, b: set<string>)
    requires a <= b
    ensures |a| <= |b|
  {
    assert b == a + (b - a);
  }

  /** A request without room finds the table full of other live addresses. */
  lemma {:induction false} NoRoomIsFull(t: Table, s: Spec, ip: string, now: nat)
    requires Agrees(t, s, now) && |t.entries| <= TABLE_SIZE && !HasRoom(s, ip, now)
    ensures FullWithout(t, ip, now)
  {
    var live, held := LiveSet(s, now), EntryIps(t.entries);
    forall a <- live
      ensures a in held
    {
      assert Held(t, a);
    }
    EntryIpsFit(t.entries);
    Smaller(live, held);
    SameSize(live, held);
    forall e <- t.entries
      ensures e.ip != ip && Fresh(e, t.window, now)
    {
      assert e.ip in held && Live(s, e.ip, now);
    }
  }

  /** The map counts on within the window. */
  lemma {:induction false} MapLimits(s: Spec, ip: string, now: nat, u: nat, n: nat, i: nat)
    requires ip in s.uses && s.uses[ip] == Usage(now, u, now) && i < n
    ensures SpecVerdicts(s, Repeated(ip, now, n))[i] == (u + i < s.limit)
    decreases n
  {
    assert Repeated(ip, now, n)[1..] == Repeated(ip, now, n - 1);
    if i > 0 {
      MapLimits(SpecNext(s, ip, now).0, ip, now, u + 1, n - 1, i - 1);
    }
  }

  lemma {:induction false} MapStartsOver(s: Spec, ip: string, now: nat)
    requires s.window >= 1 && !Live(s, ip, now) && (ip in s.uses ==> s.uses[ip].first <= s.uses[ip].last <= now)
    ensures SpecNext(s, ip, now).0.uses[ip] == Usage(now, 1, now)
  {
  }

  /** At a request without room, `limit` more of the same address tell the table from the map. */
  lemma {:induction false} NoRoomDisagrees(t: Table, s: Spec, ip: string, now: nat)
    requires Agrees(t, s, now) && s.window >= 1 && |t.entries| <= TABLE_SIZE && !HasRoom(s, ip, now)
    ensures var reqs := Repeated(ip, now, s.limit + 1);
      TableVerdicts(t, reqs)[s.limit] && !SpecVerdicts(s, reqs)[s.limit]
    ensures TableVerdicts(t, Repeated(ip, now, s.limit + 1)) != SpecVerdicts(s, Repeated(ip, now, s.limit + 1))
  {
    var reqs := Repeated(ip, now, s.limit + 1);
    NoRoomIsFull(t, s, ip, now);
    FullTableAdmitsAll(t, ip, now, s.limit + 1);
    assert TableVerdicts(t, reqs)[s.limit] in TableVerdicts(t, reqs);
    MapStartsOver(s, ip, now);
    assert reqs[1..] == Repeated(ip, now, s.limit);
    if s.limit > 0 {
      MapLimits(SpecNext(s, ip, now).0, ip, now, 1, s.limit, s.limit - 1);
    }
  }

  lemma {:induction false} StepFits(t: Table, ip: string, now: nat)
    requires |t.entries| <= TABLE_SIZE
    ensures |TableNext(t, ip, now).0.entries| <= TABLE_SIZE
  {
  }

  lemma {:induction false} AgreesAfter(t: Table, s: Spec, clock: nat, reqs: seq<Req>)
    requires Agrees(t, s, clock) && s.window >= 1 && s.limit >= 1 && |t.entries| <= TABLE_SIZE
    requires Forward(reqs, clock) && RoomThroughout(s, reqs)
    ensures Agrees(TableAfter(t, reqs), SpecAfter(s, reqs), if reqs == [] then clock else reqs[|reqs| - 1].now)
    ensures |TableAfter(t, reqs).entries| <= TABLE_SIZE && SpecAfter(s, reqs).window == s.window
    ensures SpecAfter(s, reqs).limit == s.limit
    decreases reqs
  {
    if reqs != [] {
      var r := reqs[0];
      AgreesLater(t, s, clock, r.now);
      StepRefines(t, s, r.ip, r.now);
      StepFits(t, r.ip, r.now);
      AgreesAfter(TableNext(t, r.ip, r.now).0, SpecNext(s, r.ip, r.now).0, r.now, reqs[1..]);
    }
  }

  lemma {:induction false} RoomStays(s: Spec, ip: string, now: nat, n: nat)
    requires HasRoom(s, ip, now) && s.window >= 1
    ensures RoomThroughout(s, Repeated(ip, now, n))
    decreases n
  {
    if n > 0 {
      assert Repeated(ip, now, n)[1..] == Repeated(ip, now, n - 1);
      RoomStays(SpecNext(s, ip, now).0, ip, now, n - 1);
    }
  }

  /** Table and map agree on `reqs` followed by `n` requests of `ip`, both started empty. */
  ghost predicate SameVerdicts(window: nat, limit: nat, reqs: seq<Req>, ip: string, now: nat, n: nat) {
    TableVerdicts(Table(window, limit, []), reqs + Repeated(ip, now, n)) ==
    SpecVerdicts(Spec(window, limit, map[]), reqs + Repeated(ip, now, n))
  }

  lemma {:induction false} VerdictsAfter(window: nat, limit: nat, reqs: seq<Req>, ip: string, now: nat, n: nat)
    requires window >= 1 && limit >= 1 && Forward(reqs, 0) && RoomThroughout(Spec(window, limit, map[]), reqs)
    ensures SameVerdicts(window, limit, reqs, ip, now, n) <==>
            TableVerdicts(TableAfter(Table(window, limit, []), reqs), Repeated(ip, now, n)) ==
            SpecVerdicts(SpecAfter(Spec(window, limit, map[]), reqs), Repeated(ip, now, n))
  {
    var t, s, more := Table(window, limit, []), Spec(window, limit, map[]), Repeated(ip, now, n);
    TableRefinesMap(t, s, 0, reqs);
    TableSplit(t, reqs, more);
    SpecSplit(s, reqs, more);
    SameTails(SpecVerdicts(s, reqs), TableVerdicts(TableAfter(t, reqs), more), SpecVerdicts(SpecAfter(s, reqs), more));
  }

  lemma {:induction false} SameTails(a: seq<bool>, b: seq<bool>, c: seq<bool>)
    ensures a + b == a + c <==> b == c
  {
    assert (a + b)[|a|..] == b && (a + c)[|a|..] == c;
  }

  lemma {:induction false} AgreesAt(window: nat, limit: nat, reqs: seq<Req>, now: nat)
    requires window >= 1 && limit >= 1 && Forward(reqs, 0) && RoomThroughout(Spec(window, limit, map[]), reqs)
    requires reqs == [] || reqs[|reqs| - 1].now <= now
    ensures var t, s := TableAfter(Table(window, limit, []), reqs), SpecAfter(Spec(window, limit, map[]), reqs);
      Agrees(t, s, now) && |t.entries| <= TABLE_SIZE && s.window == window && s.limit == limit
  {
    var t, s := Table(window, limit, []), Spec(window, limit, map[]);
    AgreesAfter(t, s, 0, reqs);
    AgreesLater(TableAfter(t, reqs), SpecAfter(s, reqs), if reqs == [] then 0 else reqs[|reqs| - 1].now, now);
  }

  lemma {:induction false} RoomAgrees(window: nat, limit: nat, reqs: seq<Req>, ip: string, now: nat, n: nat)
    requires window >= 1 && limit >= 1 && Forward(reqs, 0) && RoomThroughout(Spec(window, limit, map[]), reqs)
    requires reqs == [] || reqs[|reqs| - 1].now <= now
    requires HasRoom(SpecAfter(Spec(window, limit, map[]), reqs), ip, now)
    ensures SameVerdicts(window, limit, reqs, ip, now, n)
  {
    var t, s := TableAfter(Table(window, limit, []), reqs), SpecAfter(Spec(window, limit, map[]), reqs);
    AgreesAt(window, limit, reqs, now);
    RoomStays(s, ip, now, n);
    TableRefinesMap(t, s, now, Repeated(ip, now, n));
    VerdictsAfter(window, limit, reqs, ip, now, n);
  }

  lemma {:induction false} NoRoomTells(window: nat, limit: nat, reqs: seq<Req>, ip: string, now: nat)
    requires window >= 1 && limit >= 1 && Forward(reqs, 0) && RoomThroughout(Spec(window, limit, map[]), reqs)
    requires reqs == [] || reqs[|reqs| - 1].now <= now
    requires !HasRoom(SpecAfter(Spec(window, limit, map[]), reqs), ip, now)
    ensures !SameVerdicts(window, limit, reqs, ip, now, limit + 1)
  {
    AgreesAt(window, limit, reqs, now);
    NoRoomDisagrees(TableAfter(Table(window, limit, []), reqs), SpecAfter(Spec(window, limit, map[]), reqs), ip, now);
    VerdictsAfter(window, limit, reqs, ip, now, limit + 1);
  }

  /**
   * Room is exactly what the refinement needs: after any trace with room throughout, a request of `ip` has
   * room if and only if no number of requests of `ip` at that time tells the table from the map.
   */
  lemma {:induction false} RoomIsExact(window: nat, limit: nat, reqs: seq<Req>, ip: string, now: nat)
    requires window >= 1 && limit >= 1 && Forward(reqs, 0) && RoomThroughout(Spec(window, limit, map[]), reqs)
    requires reqs == [] || reqs[|reqs| - 1].now <= now
    ensures HasRoom(SpecAfter(Spec(window, limit, map[]), reqs), ip, now) <==>
            forall n: nat :: SameVerdicts(window, limit, reqs, ip, now, n)
  {
    if HasRoom(SpecAfter(Spec(window, limit, map[]), reqs), ip, now) {
      forall n: nat
        ensures SameVerdicts(window, limit, reqs, ip, now, n)
      {
        RoomAgrees(window, limit, reqs, ip, now, n);
      }
    } else {
      NoRoomTells(window, limit, reqs, ip, now);
    }
  }
}
