/** The verdicts of the table limiter (src/util/util.c), told from the times of the requests alone. */
module RateLimiterExact {
  import opened Requests
  import opened RateLimiter
  import opened RateLimiterRoom

  // ---------------------------------------------------------------- what is remembered

  function Empty(window: nat, limit: nat): Spec {
    Spec(window, limit, map[])
  }

  /** A window is over once more than `window` has passed since it opened. */
  function Gap(window: nat): nat {
    window + 1
  }

  /** What the map remembers of an address that made requests at these times. */
  ghost predicate Remembers(s: Spec, ip: string, ts: seq<nat>) {
    if ts == [] then ip !in s.uses
    else
      && ip in s.uses
      && s.uses[ip] == Usage(ts[Opening(ts, Gap(s.window))], InWindow(ts, Gap(s.window)), ts[|ts| - 1])
  }

  lemma {:induction false} StepRemembers(s: Spec, r: Req, ip: string, ts: seq<nat>)
    requires Remembers(s, ip, ts)
    ensures Remembers(SpecNext(s, r.ip, r.now).0, ip, ts + if r.ip == ip then [r.now] else [])
    ensures r.ip == ip ==> (SpecNext(s, ip, r.now).1 <==> InWindow(ts + [r.now], Gap(s.window)) <= s.limit)
  {
    if r.ip == ip {
      InWindowSnoc(ts, r.now, Gap(s.window));
    } else {
      assert ts + [] == ts;
    }
  }

  lemma {:induction false} AfterSnoc(s: Spec, reqs: seq<Req>, r: Req)
    ensures SpecAfter(s, reqs + [r]) == SpecNext(SpecAfter(s, reqs), r.ip, r.now).0
    ensures SpecAfter(s, reqs).window == s.window && SpecAfter(s, reqs).limit == s.limit
    decreases reqs
  {
    if reqs == [] {
      assert reqs + [r] == [r] && [r][1..] == [];
      assert SpecAfter(s, [r]) == SpecAfter(SpecNext(s, r.ip, r.now).0, []);
    } else {
      assert (reqs + [r])[1..] == reqs[1..] + [r];
      AfterSnoc(SpecNext(s, reqs[0].ip, reqs[0].now).0, reqs[1..], r);
    }
  }

  /** After any trace the map remembers each address by its own times. */
  lemma {:induction false} TraceRemembers(window: nat, limit: nat, reqs: seq<Req>, ip: string)
    ensures Remembers(SpecAfter(Empty(window, limit), reqs), ip, TimesOf(reqs, ip))
    ensures SpecAfter(Empty(window, limit), reqs).window == window
    ensures SpecAfter(Empty(window, limit), reqs).limit == limit
    decreases |reqs|
  {
    if reqs != [] {
      var n := |reqs| - 1;
      assert reqs == reqs[..n] + [reqs[n]];
      TraceRemembers(window, limit, reqs[..n], ip);
      AfterSnoc(Empty(window, limit), reqs[..n], reqs[n]);
      StepRemembers(SpecAfter(Empty(window, limit), reqs[..n]), reqs[n], ip, TimesOf(reqs[..n], ip));
    }
  }

  // ---------------------------------------------------------------- room, from the times

  predicate LiveAt(reqs: seq<Req>, ip: string, window: nat, now: nat) {
    var ts := TimesOf(reqs, ip);
    ts != [] && now - ts[|ts| - 1] < 2 * window
  }

  function Addresses(reqs: seq<Req>): set<string> {
    set r <- reqs :: r.ip
  }

  function LiveAddresses(reqs: seq<Req>, window: nat, now: nat): set<string> {
    set ip | ip in Addresses(reqs) && LiveAt(reqs, ip, window, now)
  }

  /** Request `k` finds its address live, or fewer than 256 others. */
  predicate RoomAt(reqs: seq<Req>, window: nat, k: nat)
    requires k < |reqs|
  {
    || LiveAt(reqs[..k], reqs[k].ip, window, reqs[k].now)
    || |LiveAddresses(reqs[..k], window, reqs[k].now)| < TABLE_SIZE
  }

  predicate Roomy(reqs: seq<Req>, window: nat) {
    forall k :: 0 <= k < |reqs| ==> RoomAt(reqs, window, k)
  }

  lemma {:induction false} OnlyAddresses(reqs: seq<Req>, ip: string)
    ensures TimesOf(reqs, ip) != [] <==> ip in Addresses(reqs)
    decreases |reqs|
  {
    if reqs != [] {
      var n := |reqs| - 1;
      OnlyAddresses(reqs[..n], ip);
      assert reqs == reqs[..n] + [reqs[n]];
    }
  }

  lemma {:induction false} LiveIs(window: nat, limit: nat, reqs: seq<Req>, ip: string, now: nat)
    ensures Live(SpecAfter(Empty(window, limit), reqs), ip, now) <==> LiveAt(reqs, ip, window, now)
  {
    TraceRemembers(window, limit, reqs, ip);
  }

  lemma {:induction false} LiveSetIs(window: nat, limit: nat, reqs: seq<Req>, now: nat)
    ensures LiveSet(SpecAfter(Empty(window, limit), reqs), now) == LiveAddresses(reqs, window, now)
  {
    var s := SpecAfter(Empty(window, limit), reqs);
    forall ip
      ensures ip in LiveSet(s, now) <==> ip in LiveAddresses(reqs, window, now)
    {
      LiveIs(window, limit, reqs, ip, now);
      OnlyAddresses(reqs, ip);
    }
  }

  lemma {:induction false} RoomIs(window: nat, limit: nat, reqs: seq<Req>, k: nat)
    requires k < |reqs|
    ensures HasRoom(SpecAfter(Empty(window, limit), reqs[..k]), reqs[k].ip, reqs[k].now) <==> RoomAt(reqs, window, k)
  {
    LiveIs(window, limit, reqs[..k], reqs[k].ip, reqs[k].now);
    LiveSetIs(window, limit, reqs[..k], reqs[k].now);
  }

  lemma {:induction false} RoomFrom(window: nat, limit: nat, reqs: seq<Req>, k: nat)
    requires Roomy(reqs, window) && k <= |reqs|
    ensures RoomThroughout(SpecAfter(Empty(window, limit), reqs[..k]), reqs[k..])
    decreases |reqs| - k
  {
    if k < |reqs| {
      RoomIs(window, limit, reqs, k);
      assert RoomAt(reqs, window, k);
      RoomFrom(window, limit, reqs, k + 1);
      AfterSnoc(Empty(window, limit), reqs[..k], reqs[k]);
      assert reqs[..k + 1] == reqs[..k] + [reqs[k]] && reqs[k..][1..] == reqs[k + 1..];
    }
  }

  // ---------------------------------------------------------------- the exact verdict

  lemma {:induction false} VerdictAt(window: nat, limit: nat, reqs: seq<Req>, k: nat)
    requires k < |reqs|
    ensures SpecVerdicts(Empty(window, limit), reqs)[k] ==
            SpecNext(SpecAfter(Empty(window, limit), reqs[..k]), reqs[k].ip, reqs[k].now).1
  {
    SpecSplit(Empty(window, limit), reqs[..k], reqs[k..]);
    assert reqs == reqs[..k] + reqs[k..];
    assert reqs[k..][0] == reqs[k];
  }

  /** The map passes a request exactly if it is among the first `limit` of its window. */
  lemma {:induction false} MapVerdict(window: nat, limit: nat, reqs: seq<Req>, k: nat)
    requires k < |reqs|
    ensures SpecVerdicts(Empty(window, limit), reqs)[k] <==>
            InWindow(TimesOf(reqs[..k + 1], reqs[k].ip), Gap(window)) <= limit
  {
    VerdictAt(window, limit, reqs, k);
    TraceRemembers(window, limit, reqs[..k], reqs[k].ip);
    StepRemembers(SpecAfter(Empty(window, limit), reqs[..k]), reqs[k], reqs[k].ip, TimesOf(reqs[..k], reqs[k].ip));
    TimesSnoc(reqs, k, reqs[k].ip);
  }

  /**
   * So does the table from empty, whenever each request finds its address live or fewer than 256 others: the
   * verdict on request `k` is told from the times of the requests alone.
   */
  lemma {:induction false} TableVerdict(window: nat, limit: nat, reqs: seq<Req>, k: nat)
    requires window >= 1 && limit >= 1 && Forward(reqs, 0) && Roomy(reqs, window) && k < |reqs|
    ensures TableVerdicts(Table(window, limit, []), reqs)[k] <==>
            InWindow(TimesOf(reqs[..k + 1], reqs[k].ip), Gap(window)) <= limit
  {
    RoomFrom(window, limit, reqs, 0);
    assert reqs[..0] == [] && reqs[0..] == reqs;
    TableRefinesMap(Table(window, limit, []), Empty(window, limit), 0, reqs);
    MapVerdict(window, limit, reqs, k);
  }

  /** A request that opens a window passes: no address is refused for longer than its window lasts. */
  lemma {:induction false} OpeningPasses(window: nat, limit: nat, reqs: seq<Req>, k: nat)
    requires window >= 1 && limit >= 1 && Forward(reqs, 0) && Roomy(reqs, window) && k < |reqs|
    requires var ts := TimesOf(reqs[..k], reqs[k].ip);
      ts != [] ==> reqs[k].now > ts[Opening(ts, Gap(window))] + window
    ensures TableVerdicts(Table(window, limit, []), reqs)[k]
  {
    TableVerdict(window, limit, reqs, k);
    TimesSnoc(reqs, k, reqs[k].ip);
    InWindowSnoc(TimesOf(reqs[..k], reqs[k].ip), reqs[k].now, Gap(window));
  }
}
