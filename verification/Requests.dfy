/** Timed requests, as both limiters see them. */
module Requests {

  datatype Req = Req(ip: string, now: nat)

  /** The clock does not go backwards, from `clock` on. */
  ghost predicate Forward(reqs: seq<Req>, clock: nat) {
    && (forall i :: 0 <= i < |reqs| ==> clock <= reqs[i].now)
    && (forall i, j :: 0 <= i < j < |reqs| ==> reqs[i].now <= reqs[j].now)
  }

  /** When an address made its requests. */
  function TimesOf(reqs: seq<Req>, ip: string): (ts: seq<nat>)
    ensures |ts| <= |reqs|
  {
    if reqs == [] then []
    else
      var n := |reqs| - 1;
      TimesOf(reqs[..n], ip) + if reqs[n].ip == ip then [reqs[n].now] else []
  }

  lemma {:induction false} TimesSnoc(reqs: seq<Req>, k: nat, ip: string)
    requires k < |reqs|
    ensures TimesOf(reqs[..k + 1], ip) == TimesOf(reqs[..k], ip) + if reqs[k].ip == ip then [reqs[k].now] else []
  {
    assert reqs[..k + 1][..k] == reqs[..k];
  }

  /**
   * Windows, told from the times of the requests: the first request opens one, and so does the first request
   * that comes at least `gap` after the last opening. This is the place of the last opening.
   */
  function Opening(ts: seq<nat>, gap: nat): (o: nat)
    requires ts != []
    ensures o < |ts|
  {
    var n := |ts| - 1;
    if n == 0 then 0
    else
      var o := Opening(ts[..n], gap);
      if ts[n] >= ts[o] + gap then n else o
  }

  /** The requests in the window that is open at the last of them, with that one. */
  function InWindow(ts: seq<nat>, gap: nat): (n: nat)
    ensures ts != [] ==> n >= 1
  {
    if ts == [] then 0 else |ts| - Opening(ts, gap)
  }

  lemma {:induction false} InWindowSnoc(ts: seq<nat>, now: nat, gap: nat)
    ensures ts == [] ==> Opening(ts + [now], gap) == 0 && InWindow(ts + [now], gap) == 1
    ensures ts != [] ==>
              var opens := now >= ts[Opening(ts, gap)] + gap;
              && Opening(ts + [now], gap) == (if opens then |ts| else Opening(ts, gap))
              && InWindow(ts + [now], gap) == if opens then 1 else InWindow(ts, gap) + 1
  {
    assert (ts + [now])[..|ts|] == ts;
  }

  /** The same request `n` times. */
  function Repeated(ip: string, now: nat, n: nat): (reqs: seq<Req>)
    ensures |reqs| == n && forall i :: 0 <= i < n ==> reqs[i] == Req(ip, now)
  {
    if n == 0 then [] else [Req(ip, now)] + Repeated(ip, now, n - 1)
  }

  /** What a count leaves of the limit. */
  function Left(count: nat, limit: nat): nat {
    if count < limit then limit - count else 0
  }
}
