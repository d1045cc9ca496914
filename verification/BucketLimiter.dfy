/** The hash-bucket limiter in front of the gateway (src/security/security_monitor.c). */
module BucketLimiter {
  import opened Requests

  const BUCKETS := 256
  const WORD := 0x1_0000_0000

  /** hash_ip: 32-bit wrap-around at every character. */
  function HashFrom(ip: string, h: nat): (r: nat)
    ensures r < BUCKETS
  {
    if ip == "" then h % BUCKETS
    else HashFrom(ip[1..], (31 * h + ip[0] as int) % WORD)
  }

  function Hash(ip: string): (r: nat)
    ensures r < BUCKETS
  {
    HashFrom(ip, 0)
  }

  /** The polynomial in 31 whose coefficients are the characters, without any wrap-around. */
  function Polynomial(ip: string): nat {
    if ip == "" then 0 else 31 * Polynomial(ip[..|ip| - 1]) + ip[|ip| - 1] as int
  }

  lemma {:induction false} StepsAgree(g: nat, h: nat, c: nat)
    requires g % BUCKETS == h % BUCKETS
    ensures ((31 * g + c) % WORD) % BUCKETS == (31 * h + c) % BUCKETS
  {
    var a, b := g / BUCKETS, h / BUCKETS;
    assert g == BUCKETS * a + g % BUCKETS && h == BUCKETS * b + h % BUCKETS;
    var r := 31 * (g % BUCKETS) + c;
    assert 31 * g + c == BUCKETS * (31 * a) + r && 31 * h + c == BUCKETS * (31 * b) + r;
    WrapThenBucket(31 * g + c);
    MultipleDrops(31 * a, r);
    MultipleDrops(31 * b, r);
  }

  lemma {:induction false} HashSnoc(ip: string, c: char, h: nat)
    ensures HashFrom(ip + [c], h) == (31 * HashFrom(ip, h) + c as int) % BUCKETS
    decreases ip
  {
    if ip == "" {
      assert ip + [c] == [c] && [c][1..] == "";
      assert HashFrom([c], h) == (31 * h + c as int) % WORD % BUCKETS;
      StepsAgree(h, h % BUCKETS, c as int);
      WrapThenBucket(31 * (h % BUCKETS) + c as int);
      StepsAgree(h % BUCKETS, h % BUCKETS, c as int);
    } else {
      assert (ip + [c])[1..] == ip[1..] + [c];
      HashSnoc(ip[1..], c, (31 * h + ip[0] as int) % WORD);
    }
  }

  /** The wrap-around at 32 bits is invisible: the bucket is the polynomial's value modulo 256. */
  lemma {:induction false} HashIsPolynomial(ip: string)
    ensures Hash(ip) == Polynomial(ip) % BUCKETS
    decreases ip
  {
    if ip != "" {
      var n := |ip| - 1;
      HashIsPolynomial(ip[..n]);
      assert ip == ip[..n] + [ip[n]];
      HashSnoc(ip[..n], ip[n], 0);
      StepsAgree(Hash(ip[..n]), Polynomial(ip[..n]), ip[n] as int);
      StepsAgree(Hash(ip[..n]), Hash(ip[..n]), ip[n] as int);
    }
  }

  datatype Bucket = Bucket(ip: string, count: nat, windowEnd: nat)

  /** One request against its bucket; the count is a 32-bit word. */
  function Hit(b: Bucket, ip: string, window: nat, now: nat): Bucket {
    var c := if b.windowEnd <= now || b.ip != ip then Bucket(ip, 0, now + window) else b;
    c.(count := (c.count + 1) % WORD)
  }

  class Monitor {
    const buckets: array<Bucket>
    const window: nat
    const limit: nat
    var hits: nat      // g_rate_limit_hits

    ghost predicate Valid()
      reads this
    {
      buckets.Length == BUCKETS
    }

    constructor (window: nat, limit: nat)
      ensures Valid() && fresh(buckets) && this.window == window && this.limit == limit && hits == 0
      ensures forall i :: 0 <= i < BUCKETS ==> buckets[i] == Bucket("", 0, 0)
    {
      buckets := new Bucket[BUCKETS](_ => Bucket("", 0, 0));
      this.window, this.limit, hits := window, limit, 0;
    }

    /** The rate stage of security_monitor_check_request: true means the request goes on. */
    method Check(ip: string, now: nat) returns (ok: bool)
      requires Valid()
      modifies this, buckets
      ensures Valid()
      ensures buckets[..] == old(buckets[..])[Hash(ip) := Hit(old(buckets[Hash(ip)]), ip, window, now)]
      ensures ok <==> buckets[Hash(ip)].count <= limit
      ensures hits == old(hits) + if ok then 0 else 1
    {
      var h: nat := 0;
      for i := 0 to |ip|
        invariant HashFrom(ip[i..], h) == Hash(ip)
      {
        assert ip[i..][1..] == ip[i + 1..];
        h := (31 * h + ip[i] as int) % WORD;
      }
      assert ip[|ip|..] == "";
      var idx := h % BUCKETS;
      if buckets[idx].windowEnd <= now || buckets[idx].ip != ip {
        buckets[idx] := Bucket(ip, 0, now + window);
      }
      buckets[idx] := buckets[idx].(count := (buckets[idx].count + 1) % WORD);
      var count := buckets[idx].count;
      ok := count <= limit;
      if !ok {
        hits := hits + 1;
      }
    }
  }

  // ---------------------------------------------------------------- one bucket over a trace

  /** How many of the requests that reach one bucket pass between `a` and `b`. */
  function Passed(bk: Bucket, window: nat, limit: nat, reqs: seq<Req>, a: nat, b: nat): nat
    decreases reqs
  {
    if reqs == [] then 0
    else
      var bk' := Hit(bk, reqs[0].ip, window, reqs[0].now);
      (if bk'.count <= limit && a <= reqs[0].now <= b then 1 else 0)
      + Passed(bk', window, limit, reqs[1..], a, b)
  }

  /** What can still pass in [a, a + window] from clock `t` on, if only one address uses the bucket. */
  function Budget(bk: Bucket, limit: nat, window: nat, a: nat, t: nat): nat {
    if bk.windowEnd <= t then (if t <= a then 2 * limit else limit)
    else Left(bk.count, limit) + if bk.windowEnd <= a + window then limit else 0
  }

  /** Nobody else's unfinished window is in the bucket. */
  ghost predicate Mine(bk: Bucket, ip: string, clock: nat) {
    bk.ip == ip || bk.windowEnd <= clock
  }

  lemma {:induction false} NoneAfter(bk: Bucket, window: nat, limit: nat, reqs: seq<Req>, a: nat, b: nat)
    requires forall r <- reqs :: b < r.now
    ensures Passed(bk, window, limit, reqs, a, b) == 0
    decreases reqs
  {
    if reqs != [] {
      assert reqs[0] in reqs;
      NoneAfter(Hit(bk, reqs[0].ip, window, reqs[0].now), window, limit, reqs[1..], a, b);
    }
  }

  lemma {:induction false} BudgetStep(bk: Bucket, ip: string, window: nat, limit: nat, now: nat, a: nat, t: nat)
    requires window >= 1 && Mine(bk, ip, t) && a <= t <= now <= a + window && bk.count + 1 < WORD
    ensures var bk' := Hit(bk, ip, window, now);
            && Budget(bk', limit, window, a, now) + (if bk'.count <= limit then 1 else 0)
               <= Budget(bk, limit, window, a, t)
            && Mine(bk', ip, now) && bk'.count <= bk.count + 1
  {
  }

  lemma {:induction false} WithinBudget(bk: Bucket, ip: string, window: nat, limit: nat, reqs: seq<Req>, a: nat, t: nat)
    requires window >= 1 && Mine(bk, ip, t) && Forward(reqs, t) && a <= t
    requires bk.count + |reqs| < WORD && forall r <- reqs :: r.ip == ip
    ensures Passed(bk, window, limit, reqs, a, a + window) <= Budget(bk, limit, window, a, t)
    decreases reqs
  {
    if reqs != [] {
      var r := reqs[0];
      assert r in reqs;
      if r.now > a + window {
        NoneAfter(bk, window, limit, reqs, a, a + window);
      } else {
        BudgetStep(bk, ip, window, limit, r.now, a, t);
        WithinBudget(Hit(bk, ip, window, r.now), ip, window, limit, reqs[1..], a, r.now);
      }
    }
  }

  /**
   * In any span of one window length one address passes at most twice the limit, as long as no
   * other address hashes to its bucket and the 32-bit counter does not wrap.
   */
  lemma {:induction false} SlidingBound(bk: Bucket, ip: string, window: nat, limit: nat, reqs: seq<Req>, a: nat, t: nat)
    requires window >= 1 && Mine(bk, ip, t) && Forward(reqs, t)
    requires bk.count + |reqs| < WORD && forall r <- reqs :: r.ip == ip
    ensures Passed(bk, window, limit, reqs, a, a + window) <= 2 * limit
    decreases reqs
  {
    if reqs != [] {
      var r := reqs[0];
      assert r in reqs;
      if r.now < a {
        SlidingBound(Hit(bk, ip, window, r.now), ip, window, limit, reqs[1..], a, r.now);
      } else {
        WithinBudget(bk, ip, window, limit, reqs, a, if t < a then a else t);
      }
    }
  }

  /** Between two resets of a bucket at most the limit passes, whatever the clock does. */
  lemma {:induction false} BetweenResets(bk: Bucket, window: nat, limit: nat, reqs: seq<Req>, a: nat, b: nat)
    requires bk.count + |reqs| < WORD && forall r <- reqs :: r.ip == bk.ip && r.now < bk.windowEnd
    ensures Passed(bk, window, limit, reqs, a, b) <= Left(bk.count, limit)
    decreases reqs
  {
    if reqs != [] {
      assert reqs[0] in reqs;
      BetweenResets(Hit(bk, reqs[0].ip, window, reqs[0].now), window, limit, reqs[1..], a, b);
    }
  }

  // ---------------------------------------------------------------- the whole monitor

  /** How often `ip` passes between `a` and `b` when the whole trace runs against all buckets. */
  function PassedOf(bs: seq<Bucket>, window: nat, limit: nat, reqs: seq<Req>, ip: string, a: nat, b: nat): nat
    requires |bs| == BUCKETS
    decreases reqs
  {
    if reqs == [] then 0
    else
      var r := reqs[0];
      var bk := Hit(bs[Hash(r.ip)], r.ip, window, r.now);
      (if bk.count <= limit && r.ip == ip && a <= r.now <= b then 1 else 0)
      + PassedOf(bs[Hash(r.ip) := bk], window, limit, reqs[1..], ip, a, b)
  }

  function Only(reqs: seq<Req>, ip: string): (r: seq<Req>)
    ensures |r| <= |reqs|
  {
    if reqs == [] then []
    else (if reqs[0].ip == ip then [reqs[0]] else []) + Only(reqs[1..], ip)
  }

  lemma {:induction false} OnlyIsForward(reqs: seq<Req>, ip: string, clock: nat)
    requires Forward(reqs, clock)
    ensures Forward(Only(reqs, ip), clock) && forall r <- Only(reqs, ip) :: r.ip == ip
    decreases reqs
  {
    if reqs != [] {
      OnlyIsForward(reqs[1..], ip, reqs[0].now);
    }
  }

  ghost predicate NoCollision(reqs: seq<Req>, ip: string) {
    forall i :: 0 <= i < |reqs| && Hash(reqs[i].ip) == Hash(ip) ==> reqs[i].ip == ip
  }

  /** Other addresses are invisible to a bucket they do not hash to. */
  lemma {:induction false} BucketSeesOnlyItsOwn(bs: seq<Bucket>, window: nat, limit: nat, reqs: seq<Req>, ip: string,
                                                a: nat, b: nat)
    requires |bs| == BUCKETS && NoCollision(reqs, ip)
    ensures PassedOf(bs, window, limit, reqs, ip, a, b) == Passed(bs[Hash(ip)], window, limit, Only(reqs, ip), a, b)
    decreases reqs
  {
    if reqs != [] {
      var r := reqs[0];
      var bk := Hit(bs[Hash(r.ip)], r.ip, window, r.now);
      assert Hash(r.ip) == Hash(ip) ==> r.ip == ip;
      BucketSeesOnlyItsOwn(bs[Hash(r.ip) := bk], window, limit, reqs[1..], ip, a, b);
      if r.ip == ip {
        assert Only(reqs, ip)[1..] == Only(reqs[1..], ip);
      } else {
        assert Only(reqs, ip) == Only(reqs[1..], ip);
      }
    }
  }

  /** The buckets of a fresh monitor. */
  function Fresh(): (bs: seq<Bucket>)
    ensures |bs| == BUCKETS && forall i :: 0 <= i < BUCKETS ==> bs[i] == Bucket("", 0, 0)
  {
    seq(BUCKETS, _ => Bucket("", 0, 0))
  }

  /**
   * A fresh monitor admits an address at most twice the limit in any window-long span of any trace without
   * colliders.
   */
  lemma {:induction false} MonitorSlidingBound(window: nat, limit: nat, reqs: seq<Req>, ip: string, a: nat)
    requires window >= 1 && Forward(reqs, 0) && |reqs| < WORD && NoCollision(reqs, ip)
    ensures PassedOf(Fresh(), window, limit, reqs, ip, a, a + window) <= 2 * limit
  {
    var bs := Fresh();
    BucketSeesOnlyItsOwn(bs, window, limit, reqs, ip, a, a + window);
    OnlyIsForward(reqs, ip, 0);
    SlidingBound(bs[Hash(ip)], ip, window, limit, Only(reqs, ip), a, 0);
  }

  // ---------------------------------------------------------------- the exact verdict

  /** The buckets after a trace. */
  function BucketsAfter(window: nat, reqs: seq<Req>): (bs: seq<Bucket>)
    ensures |bs| == BUCKETS
  {
    if reqs == [] then Fresh()
    else
      var n := |reqs| - 1;
      var bs, r := BucketsAfter(window, reqs[..n]), reqs[n];
      bs[Hash(r.ip) := Hit(bs[Hash(r.ip)], r.ip, window, r.now)]
  }

  /** What a bucket holds after requests of one address at these times. */
  ghost predicate Counts(bk: Bucket, ip: string, window: nat, ts: seq<nat>) {
    if ts == [] then bk == Bucket("", 0, 0)
    else bk == Bucket(ip, InWindow(ts, window), ts[Opening(ts, window)] + window)
  }

  lemma {:induction false} HitCounts(bk: Bucket, ip: string, window: nat, ts: seq<nat>, now: nat)
    requires Counts(bk, ip, window, ts) && |ts| + 1 < WORD
    ensures Counts(Hit(bk, ip, window, now), ip, window, ts + [now])
  {
    InWindowSnoc(ts, now, window);
  }

  lemma {:induction false} RequestCounts(bs: seq<Bucket>, window: nat, ts: seq<nat>, r: Req, ip: string)
    requires |bs| == BUCKETS && Counts(bs[Hash(ip)], ip, window, ts) && |ts| + 1 < WORD
    requires Hash(r.ip) == Hash(ip) ==> r.ip == ip
    ensures var bs' := bs[Hash(r.ip) := Hit(bs[Hash(r.ip)], r.ip, window, r.now)];
      Counts(bs'[Hash(ip)], ip, window, ts + if r.ip == ip then [r.now] else [])
  {
    if r.ip == ip {
      HitCounts(bs[Hash(ip)], ip, window, ts, r.now);
    } else {
      assert ts + [] == ts;
    }
  }

  /** The bucket of `ip` holds the window of its address. */
  ghost predicate Tracks(window: nat, reqs: seq<Req>, ip: string) {
    Counts(BucketsAfter(window, reqs)[Hash(ip)], ip, window, TimesOf(reqs, ip))
  }

  lemma {:induction false} TracksOn(window: nat, reqs: seq<Req>, ip: string)
    requires reqs != [] && |reqs| < WORD && (Hash(reqs[|reqs| - 1].ip) == Hash(ip) ==> reqs[|reqs| - 1].ip == ip)
    ensures Tracks(window, reqs[..|reqs| - 1], ip) ==> Tracks(window, reqs, ip)
  {
    var n := |reqs| - 1;
    var bs, ts := BucketsAfter(window, reqs[..n]), TimesOf(reqs[..n], ip);
    if Counts(bs[Hash(ip)], ip, window, ts) {
      RequestCounts(bs, window, ts, reqs[n], ip);
    }
  }

  /** It does without colliders, after any trace. */
  lemma {:induction false} BucketCounts(window: nat, reqs: seq<Req>, ip: string)
    requires NoCollision(reqs, ip) && |reqs| < WORD
    ensures Tracks(window, reqs, ip)
    decreases |reqs|
  {
    if reqs == [] {
      assert Fresh()[Hash(ip)] == Bucket("", 0, 0);
    } else {
      var n := |reqs| - 1;
      assert forall i :: 0 <= i < n ==> reqs[..n][i] == reqs[i];
      BucketCounts(window, reqs[..n], ip);
      TracksOn(window, reqs, ip);
    }
  }

  /** The request that comes after `reqs` passes. */
  predicate PassesAfter(window: nat, limit: nat, reqs: seq<Req>, r: Req) {
    Hit(BucketsAfter(window, reqs)[Hash(r.ip)], r.ip, window, r.now).count <= limit
  }

  /**
   * The exact verdict, told from the times alone: without colliders a request passes exactly if it is among the
   * first `limit` of its window, and a window lasts from its opening until `window` later.
   */
  lemma {:induction false} VerdictIsExact(window: nat, limit: nat, reqs: seq<Req>, r: Req)
    requires NoCollision(reqs, r.ip) && |reqs| + 1 < WORD
    ensures PassesAfter(window, limit, reqs, r) <==> InWindow(TimesOf(reqs, r.ip) + [r.now], window) <= limit
  {
    BucketCounts(window, reqs, r.ip);
    HitCounts(BucketsAfter(window, reqs)[Hash(r.ip)], r.ip, window, TimesOf(reqs, r.ip), r.now);
  }

  /** So an address is served again as soon as its window is over. */
  lemma {:induction false} PassesAgain(window: nat, limit: nat, reqs: seq<Req>, r: Req)
    requires NoCollision(reqs, r.ip) && |reqs| + 1 < WORD && limit >= 1
    requires var ts := TimesOf(reqs, r.ip); ts != [] ==> r.now >= ts[Opening(ts, window)] + window
    ensures PassesAfter(window, limit, reqs, r)
  {
    VerdictIsExact(window, limit, reqs, r);
    InWindowSnoc(TimesOf(reqs, r.ip), r.now, window);
  }

  // ---------------------------------------------------------------- collisions

  /** Addresses that differ only in a final 11 and 99 always share a bucket. */
  lemma {:induction false} AddressesCollide(prefix: string)
    ensures Hash(prefix + "11") == Hash(prefix + "99")
  {
    HashOfPrefix(prefix, "11", 0);
    HashOfPrefix(prefix, "99", 0);
    var h := Fold(prefix, 0);
    HashOfTwo('1', '1', h);
    HashOfTwo('9', '9', h);
    SameBucket(961 * h + 31 * 49 + 49);
    assert "11" == ['1', '1'] && "99" == ['9', '9'];
  }

  lemma {:induction false} SameBucket(m: nat)
    ensures m % BUCKETS == (m + 256) % BUCKETS
  {
  }

  function Fold(s: string, h: nat): nat {
    if s == "" then h else Fold(s[1..], (31 * h + s[0] as int) % WORD)
  }

  lemma {:induction false} HashOfPrefix(s: string, rest: string, h: nat)
    ensures HashFrom(s + rest, h) == HashFrom(rest, Fold(s, h))
    decreases s
  {
    if s == "" {
      assert s + rest == rest;
    } else {
      assert (s + rest)[1..] == s[1..] + rest;
      HashOfPrefix(s[1..], rest, (31 * h + s[0] as int) % WORD);
    }
  }

  lemma {:induction false} WrapThenBucket(x: nat)
    ensures x % WORD % BUCKETS == x % BUCKETS
  {
    var q, r := x / WORD, x % WORD;
    assert WORD * q == BUCKETS * (0x100_0000 * q);
    MultipleDrops(0x100_0000 * q, r);
  }

  lemma {:induction false} TwoRounds(h: nat, c: nat, d: nat)
    ensures (31 * ((31 * h + c) % WORD) + d) % WORD % BUCKETS == (961 * h + 31 * c + d) % BUCKETS
  {
    var x := 31 * h + c;
    var q := x / WORD;
    var y := 31 * (x % WORD) + d;
    WrapThenBucket(y);
    assert x == WORD * q + x % WORD;
    assert 31 * x + d == BUCKETS * (0x1F00_0000 * q) + y;
    MultipleDrops(0x1F00_0000 * q, y);
  }

  lemma {:induction false} MultipleDrops(k: nat, y: nat)
    ensures (BUCKETS * k + y) % BUCKETS == y % BUCKETS
  {
  }

  lemma {:induction false} HashOfTwo(c: char, d: char, h: nat)
    ensures HashFrom([c, d], h) == (961 * h + 31 * c as int + d as int) % BUCKETS
  {
    assert [c, d][1..] == [d] && [d][1..] == "";
    assert HashFrom([c, d], h) == HashFrom([d], (31 * h + c as int) % WORD);
    assert HashFrom([d], (31 * h + c as int) % WORD) == (31 * ((31 * h + c as int) % WORD) + d as int) % WORD % BUCKETS;
    TwoRounds(h, c as int, d as int);
  }

  function Alternating(n: nat, x: string, y: string, now: nat): seq<Req> {
    if n == 0 then [] else [Req(x, now)] + Alternating(n - 1, y, x, now)
  }

  /** Two addresses that take turns in one bucket are never limited. */
  lemma {:induction false} CollidersNeverLimited(bk: Bucket, n: nat, x: string, y: string, window: nat, limit: nat,
                                                 now: nat,
                                                 a: nat, b: nat)
    requires x != y && limit >= 1 && (bk.ip != x || bk.windowEnd <= now) && a <= now <= b
    ensures Passed(bk, window, limit, Alternating(n, x, y, now), a, b) == n
    decreases n
  {
    if n > 0 {
      assert Alternating(n, x, y, now)[1..] == Alternating(n - 1, y, x, now);
      CollidersNeverLimited(Hit(bk, x, window, now), n - 1, y, x, window, limit, now, a, b);
    }
  }

  /** On the whole monitor, two addresses of one bucket pass as often together as that bucket lets pass. */
  lemma {:induction false} SharedBucket(bs: seq<Bucket>, window: nat, limit: nat, reqs: seq<Req>, x: string,
                                        y: string, a: nat, b: nat)
    requires |bs| == BUCKETS && x != y && Hash(x) == Hash(y) && forall r <- reqs :: r.ip == x || r.ip == y
    ensures PassedOf(bs, window, limit, reqs, x, a, b) + PassedOf(bs, window, limit, reqs, y, a, b) ==
            Passed(bs[Hash(x)], window, limit, reqs, a, b)
    decreases reqs
  {
    if reqs != [] {
      var r := reqs[0];
      assert r in reqs;
      SharedBucket(bs[Hash(x) := Hit(bs[Hash(x)], r.ip, window, r.now)], window, limit, reqs[1..], x, y, a, b);
    }
  }

  lemma {:induction false} AlternatingIps(n: nat, x: string, y: string, now: nat)
    ensures forall r <- Alternating(n, x, y, now) :: r.ip == x || r.ip == y
    decreases n
  {
    if n > 0 {
      AlternatingIps(n - 1, y, x, now);
    }
  }

  /** So on a fresh monitor any two addresses of one bucket evade it together: taking turns, all requests pass. */
  lemma {:induction false} CollidersEvade(x: string, y: string, n: nat, window: nat, limit: nat, now: nat, a: nat,
                                          b: nat)
    requires x != y && Hash(x) == Hash(y) && limit >= 1 && a <= now <= b
    ensures PassedOf(Fresh(), window, limit, Alternating(n, x, y, now), x, a, b)
            + PassedOf(Fresh(), window, limit, Alternating(n, x, y, now), y, a, b) == n
  {
    AlternatingIps(n, x, y, now);
    SharedBucket(Fresh(), window, limit, Alternating(n, x, y, now), x, y, a, b);
    CollidersNeverLimited(Fresh()[Hash(x)], n, x, y, window, limit, now, a, b);
  }

  /** The addresses `prefix`11 and `prefix`99 are such a pair, for every prefix. */
  lemma {:induction false} NeighboursEvade(prefix: string, n: nat, window: nat, limit: nat, now: nat)
    requires limit >= 1
    ensures var x, y, reqs := prefix + "11", prefix + "99", Alternating(n, prefix + "11", prefix + "99", now);
      PassedOf(Fresh(), window, limit, reqs, x, now, now) + PassedOf(Fresh(), window, limit, reqs, y, now, now) == n
  {
    assert (prefix + "11")[|prefix|] != (prefix + "99")[|prefix|];
    AddressesCollide(prefix);
    CollidersEvade(prefix + "11", prefix + "99", n, window, limit, now, now, now);
  }

  lemma {:induction false} PassedAtMost(bs: seq<Bucket>, window: nat, limit: nat, reqs: seq<Req>, ip: string, a: nat,
                                        b: nat)
    requires |bs| == BUCKETS
    ensures PassedOf(bs, window, limit, reqs, ip, a, b) <= |Only(reqs, ip)|
    decreases reqs
  {
    if reqs != [] {
      var r := reqs[0];
      PassedAtMost(bs[Hash(r.ip) := Hit(bs[Hash(r.ip)], r.ip, window, r.now)], window, limit, reqs[1..], ip, a, b);
    }
  }

  lemma {:induction false} AlternatingHalves(n: nat, x: string, y: string, now: nat)
    requires x != y
    ensures |Only(Alternating(n, x, y, now), y)| == n / 2 && |Only(Alternating(n, x, y, now), x)| == (n + 1) / 2
    decreases n
  {
    if n > 0 {
      AlternatingHalves(n - 1, y, x, now);
      assert Alternating(n, x, y, now)[1..] == Alternating(n - 1, y, x, now);
    }
  }

  lemma {:induction false} AlternatingIsForward(n: nat, x: string, y: string, now: nat, clock: nat)
    requires clock <= now
    ensures |Alternating(n, x, y, now)| == n && Forward(Alternating(n, x, y, now), clock)
    decreases n
  {
    if n > 0 {
      AlternatingIsForward(n - 1, y, x, now, now);
      assert Alternating(n, x, y, now)[1..] == Alternating(n - 1, y, x, now);
    }
  }

  ghost predicate TraceOf(reqs: seq<Req>, x: string, y: string) {
    Forward(reqs, 0) && |reqs| < WORD && forall r <- reqs :: r.ip == x || r.ip == y
  }

  ghost predicate HeldFrom(reqs: seq<Req>, ip: string, window: nat, limit: nat, a: nat) {
    PassedOf(Fresh(), window, limit, reqs, ip, a, a + window) <= 2 * limit
  }

  /** Beside `y`, address `x` is held to twice the limit per window, in every trace of the two. */
  ghost predicate HeldBeside(x: string, y: string, window: nat, limit: nat) {
    forall reqs, a: nat :: TraceOf(reqs, x, y) ==> HeldFrom(reqs, x, window, limit, a)
  }

  lemma {:induction false} ColliderBreaksBound(x: string, y: string, window: nat, limit: nat)
    requires x != y && Hash(x) == Hash(y) && 1 <= limit && 4 * limit + 2 < WORD
    ensures !HeldBeside(x, y, window, limit)
  {
    var n := 4 * limit + 2;
    var reqs := Alternating(n, x, y, 0);
    CollidersEvade(x, y, n, window, limit, 0, 0, 0 + window);
    AlternatingHalves(n, x, y, 0);
    AlternatingIsForward(n, x, y, 0, 0);
    AlternatingIps(n, x, y, 0);
    PassedAtMost(Fresh(), window, limit, reqs, y, 0, 0 + window);
    assert TraceOf(reqs, x, y) && !HeldFrom(reqs, x, window, limit, 0);
  }

  /** So exactly the addresses of other buckets leave an address its bound. */
  lemma {:induction false} HeldIffApart(x: string, y: string, window: nat, limit: nat)
    requires x != y && window >= 1 && 1 <= limit && 4 * limit + 2 < WORD
    ensures HeldBeside(x, y, window, limit) <==> Hash(x) != Hash(y)
  {
    if Hash(x) == Hash(y) {
      ColliderBreaksBound(x, y, window, limit);
    } else {
      forall reqs, a: nat | TraceOf(reqs, x, y)
        ensures HeldFrom(reqs, x, window, limit, a)
      {
        assert NoCollision(reqs, x) by {
          assert forall i :: 0 <= i < |reqs| ==> reqs[i] in reqs;
        }
        MonitorSlidingBound(window, limit, reqs, x, a);
      }
    }
  }
}
