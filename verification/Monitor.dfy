/** The event ring and the connection buckets of the runtime monitor (src/runtime_monitor/runtime_monitor.c). */
module Monitor {
  import opened Basics
  import opened CText
  import opened RingIndex

  const EVENTS := 32
  const IPS := 64
  const WINDOW := 60
  const PROBES_AT := 25
  const W64 := 0x1_0000_0000_0000_0000

  datatype Kind = Reject | RateLimit | Injection | PathTraversal | PortProbe | Error | Other

  datatype Event = Event(kind: Kind, source: string, ip: string, details: string, time: nat)

  function Text(s: Option<string>, size: nat): string
    requires size > 0
  {
    if s.Some? then Bounded(s.value, size) else ""
  }

  // ---------------------------------------------------------------- the event ring

  /** The last `n` of `s`. */
  function Latest(s: seq<Event>, n: nat): seq<Event> {
    s[|s| - Min(n, |s|)..]
  }

  lemma {:induction false} LatestSnoc(s: seq<Event>, e: Event, n: nat)
    requires 0 < n
    ensures Latest(s + [e], n) == Latest(s, n - 1) + [e]
  {
  }

  class EventRing {
    const cells: array<Event>
    var head: nat
    var count: nat
    ghost var log: seq<Event>       // every event ever pushed

    ghost predicate Shaped()
      reads this
    {
      cells.Length == EVENTS && head < EVENTS && count <= EVENTS
    }

    ghost predicate Valid()
      reads this, cells
    {
      Shaped() && Window(cells[..], head, count) == Latest(log, EVENTS)
    }

    constructor ()
      ensures Valid() && log == [] && fresh(cells)
    {
      cells := new Event[EVENTS](_ => Event(Other, "", "", "", 0));
      head, count, log := 0, 0, [];
    }

    /** Dropping the oldest event of a full ring; the slot to write was chosen before. */
    method Evict()
      requires Valid()
      modifies this`head, this`count
      ensures Shaped() && count < EVENTS && (head + count) % EVENTS == old((head + count) % EVENTS)
      ensures Window(cells[..], head, count) == Latest(log, EVENTS - 1)
    {
      if count >= EVENTS {
        WindowDrop(cells[..], head, count);
        ModIsWrap(head + 1, EVENTS);
        head := (head + 1) % EVENTS;
        count := count - 1;
        assert Latest(log, EVENTS - 1) == Latest(log, EVENTS)[1..];
      }
    }

    /** Writing the event behind the last one. */
    method Write(idx: nat, e: Event)
      requires Shaped() && count < EVENTS && idx == (head + count) % EVENTS
      requires Window(cells[..], head, count) == Latest(log, EVENTS - 1)
      modifies this`count, this`log, cells
      ensures Valid() && log == old(log) + [e]
    {
      ModIsWrap(head + count, EVENTS);
      WindowAppend(cells[..], head, count, e);
      LatestSnoc(log, e, EVENTS);
      cells[idx] := e;
      count := count + 1;
      log := log + [e];
    }

    /** push_event. */
    method Push(kind: Kind, source: Option<string>, ip: Option<string>, details: Option<string>, now: nat)
      requires Valid()
      modifies this, cells
      ensures Valid()
      ensures log == old(log) + [Event(kind, Text(source, 64), Text(ip, 64), Text(details, 256), now)]
    {
      var idx := (head + count) % EVENTS;
      Evict();
      Write(idx, Event(kind, Text(source, 64), Text(ip, 64), Text(details, 256), now));
    }

    /** runtime_monitor_get_recent_events: the newest first. */
    method GetRecent(max: nat) returns (out: seq<Event>)
      requires Valid()
      ensures |out| == Min(Min(|log|, EVENTS), max)
      ensures forall i :: 0 <= i < |out| ==> out[i] == log[|log| - 1 - i]
    {
      var n := if count < max then count else max;
      ghost var latest := Latest(log, EVENTS);
      assert |latest| == count;
      out := [];
      for i := 0 to n
        invariant |out| == i
        invariant forall k :: 0 <= k < i ==> out[k] == latest[count - 1 - k]
      {
        var idx := (head + count - 1 - i + EVENTS) % EVENTS;
        ModIsWrap(head + (count - 1 - i), EVENTS);
        assert idx == Wrap(head + (count - 1 - i), EVENTS);
        out := out + [cells[idx]];
      }
    }
  }

  // ---------------------------------------------------------------- connection counting

  datatype Bucket = Bucket(ip: string, last: nat, count: nat)

  /** The first bucket of `ip`, or the number of buckets. */
  function Find(bs: seq<Bucket>, ip: string): (i: nat)
    ensures i <= |bs| && (i < |bs| ==> bs[i].ip == ip)
    ensures forall k :: 0 <= k < i ==> bs[k].ip != ip
  {
    if bs == [] || bs[0].ip == ip then 0 else 1 + Find(bs[1..], ip)
  }

  predicate Tracked(bs: seq<Bucket>, ip: string) {
    Find(bs, ip) < |bs|
  }

  predicate Unique(bs: seq<Bucket>) {
    forall i, j :: 0 <= i < j < |bs| ==> bs[i].ip != bs[j].ip
  }

  /** The first bucket seen longest ago, among the first `n`. */
  function Oldest(bs: seq<Bucket>, n: nat): (i: nat)
    requires 0 < n <= |bs|
    ensures i < n && forall k :: 0 <= k < n ==> bs[i].last <= bs[k].last
    ensures forall k :: 0 <= k < i ==> bs[i].last < bs[k].last
  {
    if n == 1 then 0
    else
      var i := Oldest(bs, n - 1);
      if bs[n - 1].last < bs[i].last then n - 1 else i
  }

  /** The count of a bucket after one more connection; the cutoff is computed in 64-bit arithmetic. */
  function Counted(b: Bucket, now: nat): nat {
    (if b.last < (now - WINDOW) % W64 then 0 else b.count) + 1
  }

  /** runtime_monitor_connection on the buckets: the new buckets, and whether a probe is reported. */
  function Connect(bs: seq<Bucket>, ip: string, now: nat): (seq<Bucket>, bool) {
    var i := Find(bs, ip);
    if i < |bs| then
      var c := Counted(bs[i], now);
      (bs[i := Bucket(ip, now, if c >= PROBES_AT then 0 else c)], c >= PROBES_AT)
    else if |bs| < IPS then (bs + [Bucket(ip, now, 1)], false)
    else (bs[Oldest(bs, |bs|) := Bucket(ip, now, 1)], false)
  }

  /** What a new address does: it takes a free bucket, or at 64 the bucket of the address seen longest ago. */
  lemma {:induction false} NewcomerTakes(bs: seq<Bucket>, ip: string, now: nat) returns (i: nat)
    requires (forall b <- bs :: b.ip != ip) && |bs| <= 64
    ensures !Connect(bs, ip, now).1
    ensures |bs| < 64 ==> Connect(bs, ip, now).0 == bs + [Bucket(ip, now, 1)]
    ensures |bs| == 64 ==> i < 64 && Connect(bs, ip, now).0 == bs[i := Bucket(ip, now, 1)]
    ensures |bs| == 64 ==> forall k :: 0 <= k < 64 ==> if k < i then bs[i].last < bs[k].last
                                                       else bs[i].last <= bs[k].last
  {
    i := if |bs| == 64 then Oldest(bs, 64) else 0;
  }

  const DETAILS := "Many connections in short time (possible port scan or probe)"

  class ConnectionMonitor {
    const events: EventRing
    const buckets: array<Bucket>
    var n: nat

    ghost predicate Valid()
      reads this, buckets, events, events.cells
    {
      events.Valid() && buckets.Length == IPS && n <= IPS && Unique(buckets[..n])
    }

    constructor ()
      ensures Valid() && n == 0 && events.log == [] && fresh(buckets) && fresh(events) && fresh(events.cells)
    {
      events := new EventRing();
      buckets := new Bucket[IPS](_ => Bucket("", 0, 0));
      n := 0;
    }

    method FindBucket(ip: string) returns (i: nat)
      requires buckets.Length == IPS && n <= IPS
      ensures i == Find(buckets[..n], ip)
    {
      i := 0;
      while i < n && buckets[i].ip != ip
        invariant 0 <= i <= n
        invariant forall k :: 0 <= k < i ==> buckets[k].ip != ip
      {
        i := i + 1;
      }
    }

    method FindOldest() returns (oldest: nat)
      requires buckets.Length == IPS && 0 < n <= IPS
      ensures oldest == Oldest(buckets[..n], n)
    {
      oldest := 0;
      for j := 1 to n
        invariant oldest == Oldest(buckets[..n], j)
      {
        if buckets[j].last < buckets[oldest].last {
          oldest := j;
        }
      }
    }

    /** One more connection in the bucket of `ip`, and the report when there are enough. */
    method CountHit(i: nat, ip: string, now: nat)
      requires events.Valid() && buckets.Length == IPS && i < n <= IPS
      modifies buckets, events, events.cells
      ensures events.Valid()
      ensures var c := Counted(old(buckets[i]), now);
        buckets[..n] == old(buckets[..n])[i := Bucket(ip, now, if c >= PROBES_AT then 0 else c)]
      ensures events.log == old(events.log) + Reported(Counted(old(buckets[i]), now) >= PROBES_AT, ip, now)
    {
      var c := Counted(buckets[i], now);
      buckets[i] := Bucket(ip, now, c);
      if c >= PROBES_AT {
        events.Push(PortProbe, Some("gateway"), Some(ip), Some(DETAILS), now);
        buckets[i] := Bucket(ip, now, 0);
      }
    }

    /** runtime_monitor_connection for a nonempty address, one call at a time. */
    method Connection(ip: string, now: nat)
      requires Valid()
      modifies this, buckets, events, events.cells
      ensures Valid() && buckets[..n] == Connect(old(buckets[..n]), ip, now).0
      ensures events.log == old(events.log) + Reported(Connect(old(buckets[..n]), ip, now).1, ip, now)
    {
      ConnectKeepsUnique(buckets[..n], ip, now);
      var i := FindBucket(ip);
      if i < n {
        CountHit(i, ip, now);
      } else {
        Track(ip, now);
      }
    }

    /** A bucket for a new address: a free one, or the one seen longest ago. */
    method Track(ip: string, now: nat)
      requires buckets.Length == IPS && n <= IPS
      modifies this`n, buckets
      ensures n <= IPS
      ensures buckets[..n] == if old(n) < IPS then old(buckets[..n]) + [Bucket(ip, now, 1)]
                              else old(buckets[..n])[Oldest(old(buckets[..n]), IPS) := Bucket(ip, now, 1)]
    {
      if n < IPS {
        buckets[n] := Bucket(ip, now, 1);
        n := n + 1;
      } else {
        var oldest := FindOldest();
        buckets[oldest] := Bucket(ip, now, 1);
      }
    }
  }

  function Reported(probe: bool, ip: string, now: nat): (es: seq<Event>)
    ensures if probe then |es| == 1 && es[0].kind == PortProbe && es[0].time == now && es[0].ip <= ip else es == []
    ensures probe && |ip| < 64 ==> es[0].ip == ip
  {
    var details := Text(Some(DETAILS), 256);
    if probe then [Event(PortProbe, Text(Some("gateway"), 64), Text(Some(ip), 64), details, now)] else []
  }

  lemma {:induction false} ConnectKeepsUnique(bs: seq<Bucket>, ip: string, now: nat)
    requires Unique(bs)
    ensures Unique(Connect(bs, ip, now).0)
  {
  }

  // ---------------------------------------------------------------- probes over a run

  datatype Visit = Visit(ip: string, now: nat)

  /** The buckets after a run of connections. */
  function After(bs: seq<Bucket>, vs: seq<Visit>): seq<Bucket> {
    if vs == [] then bs
    else
      var v := vs[|vs| - 1];
      Connect(After(bs, vs[..|vs| - 1]), v.ip, v.now).0
  }

  /** The connections of `ip` in a run. */
  function Mine(vs: seq<Visit>, ip: string): nat {
    if vs == [] then 0 else Mine(vs[..|vs| - 1], ip) + if vs[|vs| - 1].ip == ip then 1 else 0
  }

  /** The probes reported for `ip` in a run. */
  function Probes(bs: seq<Bucket>, vs: seq<Visit>, ip: string): nat {
    if vs == [] then 0
    else
      var v := vs[|vs| - 1];
      Probes(bs, vs[..|vs| - 1], ip) +
      if v.ip == ip && Connect(After(bs, vs[..|vs| - 1]), v.ip, v.now).1 then 1 else 0
  }

  /** The time of the last connection of `ip`. */
  function LastVisit(vs: seq<Visit>, ip: string): nat {
    if vs == [] then 0
    else if vs[|vs| - 1].ip == ip then vs[|vs| - 1].now
    else LastVisit(vs[..|vs| - 1], ip)
  }

  /** `ip` never lets more than a minute pass, on a clock past its first minute. */
  predicate Steady(vs: seq<Visit>, ip: string) {
    vs == [] ||
    var before, v := vs[..|vs| - 1], vs[|vs| - 1];
    && Steady(before, ip)
    && (v.ip == ip ==> WINDOW <= v.now < W64 && (Mine(before, ip) > 0 ==> v.now - LastVisit(before, ip) <= WINDOW))
  }

  /** Once tracked, `ip` is never evicted by the rest of the run. */
  predicate Stays(bs: seq<Bucket>, vs: seq<Visit>, ip: string) {
    vs == [] ||
    var before := vs[..|vs| - 1];
    Stays(bs, before, ip) && (Mine(before, ip) > 0 ==> Tracked(After(bs, vs), ip))
  }

  lemma {:induction false} AfterUnique(bs: seq<Bucket>, vs: seq<Visit>)
    requires Unique(bs)
    ensures Unique(After(bs, vs))
    decreases vs
  {
    if vs != [] {
      AfterUnique(bs, vs[..|vs| - 1]);
      ConnectKeepsUnique(After(bs, vs[..|vs| - 1]), vs[|vs| - 1].ip, vs[|vs| - 1].now);
    }
  }

  lemma {:induction false} FindIs(bs: seq<Bucket>, i: nat)
    requires Unique(bs) && i < |bs|
    ensures Find(bs, bs[i].ip) == i
  {
  }

  /** Another address's connection leaves the bucket of `ip` as it is, unless it takes it. */
  lemma {:induction false} OthersLeaveBucket(bs: seq<Bucket>, ip: string, v: Visit)
    requires Unique(bs) && v.ip != ip
    requires Tracked(bs, ip) && Tracked(Connect(bs, v.ip, v.now).0, ip)
    ensures var bs' := Connect(bs, v.ip, v.now).0; bs'[Find(bs', ip)] == bs[Find(bs, ip)]
  {
    var bs', i := Connect(bs, v.ip, v.now).0, Find(bs, ip);
    ConnectKeepsUnique(bs, v.ip, v.now);
    var j := Find(bs', ip);
    assert j < |bs| && bs[j] == bs'[j];
    FindIs(bs, j);
  }

  lemma {:induction false} OthersDoNotTrack(bs: seq<Bucket>, ip: string, v: Visit)
    requires Unique(bs) && v.ip != ip && !Tracked(bs, ip)
    ensures !Tracked(Connect(bs, v.ip, v.now).0, ip)
  {
    var bs' := Connect(bs, v.ip, v.now).0;
    assert forall k :: 0 <= k < |bs| ==> bs[k].ip != ip;
    assert forall k :: 0 <= k < |bs'| ==> bs'[k].ip != ip;
  }

  /** Its own connection counts one more in its bucket, or opens one. */
  lemma {:induction false} OwnVisit(bs: seq<Bucket>, v: Visit)
    requires Unique(bs)
    ensures var bs' := Connect(bs, v.ip, v.now).0; Tracked(bs', v.ip) && bs'[Find(bs', v.ip)].last == v.now
    ensures var (bs', probe) := Connect(bs, v.ip, v.now);
      var c := if Tracked(bs, v.ip) then Counted(bs[Find(bs, v.ip)], v.now) else 1;
      bs'[Find(bs', v.ip)].count == (if c >= PROBES_AT then 0 else c) && probe == (c >= PROBES_AT)
  {
    var bs' := Connect(bs, v.ip, v.now).0;
    ConnectKeepsUnique(bs, v.ip, v.now);
    var i := if Tracked(bs, v.ip) then Find(bs, v.ip) else if |bs| < IPS then |bs| else Oldest(bs, |bs|);
    FindIs(bs', i);
  }

  // ---------------------------------------------------------------- the exact probes

  /** The connection comes too late to go on counting, or within the first minute of the clock. */
  predicate Breaks(last: nat, now: nat) {
    now < 60 || now - last > 60
  }

  /** Connections of `ip` counted towards the next probe: since the last probe, and the last gap over a minute. */
  function Streak(vs: seq<Visit>, ip: string): (k: nat)
    ensures k < 25
  {
    if vs == [] then 0
    else
      var before, v := vs[..|vs| - 1], vs[|vs| - 1];
      if v.ip != ip then Streak(before, ip)
      else
        var k := (if Mine(before, ip) == 0 || Breaks(LastVisit(before, ip), v.now) then 0 else Streak(before, ip)) + 1;
        if k == 25 then 0 else k
  }

  /** How often a streak of `ip` reached twenty-five. */
  function Streaks(vs: seq<Visit>, ip: string): nat {
    if vs == [] then 0
    else
      var before, v := vs[..|vs| - 1], vs[|vs| - 1];
      Streaks(before, ip) + if v.ip == ip && Streak(vs, ip) == 0 then 1 else 0
  }

  /** The clock does not go backwards. */
  predicate Onward(vs: seq<Visit>) {
    vs == [] ||
    var n := |vs| - 1;
    Onward(vs[..n]) && vs[n].now < W64 && (n > 0 ==> vs[n - 1].now <= vs[n].now)
  }

  lemma {:induction false} LastIsPast(vs: seq<Visit>, ip: string)
    requires Onward(vs) && vs != []
    ensures LastVisit(vs, ip) <= vs[|vs| - 1].now
    decreases vs
  {
    var n := |vs| - 1;
    if n > 0 && vs[n].ip != ip {
      LastIsPast(vs[..n], ip);
    }
  }

  lemma {:induction false} CountedIs(b: Bucket, now: nat)
    requires b.last <= now < W64
    ensures Counted(b, now) == (if Breaks(b.last, now) then 0 else b.count) + 1
  {
  }

  /** The bucket of `ip` holds its streak and the time of its last connection. */
  ghost predicate Follows(bs: seq<Bucket>, vs: seq<Visit>, ip: string) {
    && (Tracked(bs, ip) <==> Mine(vs, ip) > 0)
    && (Tracked(bs, ip) ==> bs[Find(bs, ip)].count == Streak(vs, ip) && bs[Find(bs, ip)].last == LastVisit(vs, ip))
  }

  lemma {:induction false} OwnFollows(bs: seq<Bucket>, vs: seq<Visit>, v: Visit)
    requires Unique(bs) && Follows(bs, vs, v.ip) && Onward(vs + [v])
    ensures Follows(Connect(bs, v.ip, v.now).0, vs + [v], v.ip)
    ensures Connect(bs, v.ip, v.now).1 <==> Streak(vs + [v], v.ip) == 0
  {
    assert (vs + [v])[..|vs|] == vs;
    OwnVisit(bs, v);
    if Tracked(bs, v.ip) {
      if vs != [] {
        LastIsPast(vs, v.ip);
      }
      CountedIs(bs[Find(bs, v.ip)], v.now);
    }
  }

  lemma {:induction false} OtherFollows(bs: seq<Bucket>, vs: seq<Visit>, v: Visit, ip: string)
    requires Unique(bs) && Follows(bs, vs, ip) && v.ip != ip
    requires Tracked(bs, ip) ==> Tracked(Connect(bs, v.ip, v.now).0, ip)
    ensures Follows(Connect(bs, v.ip, v.now).0, vs + [v], ip)
  {
    assert (vs + [v])[..|vs|] == vs;
    if Tracked(bs, ip) {
      OthersLeaveBucket(bs, ip, v);
    } else {
      OthersDoNotTrack(bs, ip, v);
    }
  }

  /**
   * The exact probes of an address that is never evicted, told from the times of its connections: one for each
   * time that twenty-five come without a gap of over a minute, counted anew after each probe and each gap.
   */
  lemma {:induction false} ProbesAreStreaks(bs: seq<Bucket>, vs: seq<Visit>, ip: string)
    requires Unique(bs) && !Tracked(bs, ip) && Onward(vs) && Stays(bs, vs, ip)
    ensures Probes(bs, vs, ip) == Streaks(vs, ip) && Follows(After(bs, vs), vs, ip)
    decreases vs
  {
    if vs != [] {
      var before, v := vs[..|vs| - 1], vs[|vs| - 1];
      assert vs == before + [v];
      ProbesAreStreaks(bs, before, ip);
      AfterUnique(bs, before);
      if v.ip == ip {
        OwnFollows(After(bs, before), before, v);
      } else {
        OtherFollows(After(bs, before), before, v, ip);
      }
    }
  }

  /**
   * An address not tracked at first that keeps connecting and is never evicted raises exactly one probe
   * for every 25 connections, whatever other addresses do in between.
   */
  lemma {:induction false} ProbeEvery25(bs: seq<Bucket>, vs: seq<Visit>, ip: string)
    requires Unique(bs) && !Tracked(bs, ip) && Steady(vs, ip) && Stays(bs, vs, ip)
    ensures Probes(bs, vs, ip) == Mine(vs, ip) / PROBES_AT
    ensures Tracked(After(bs, vs), ip) <==> Mine(vs, ip) > 0
    ensures Tracked(After(bs, vs), ip) ==>
              var b := After(bs, vs)[Find(After(bs, vs), ip)];
              b.count == Mine(vs, ip) % PROBES_AT && b.last == LastVisit(vs, ip)
    decreases vs
  {
    if vs != [] {
      var before, v := vs[..|vs| - 1], vs[|vs| - 1];
      ProbeEvery25(bs, before, ip);
      AfterUnique(bs, before);
      if v.ip == ip {
        OwnVisit(After(bs, before), v);
      } else if Tracked(After(bs, before), ip) {
        OthersLeaveBucket(After(bs, before), ip, v);
      } else {
        OthersDoNotTrack(After(bs, before), ip, v);
      }
    }
  }

  lemma {:induction false} RoomKeepsTracked(bs: seq<Bucket>, ip: string, v: Visit)
    requires |bs| < IPS && (Tracked(bs, ip) || v.ip == ip)
    ensures Tracked(Connect(bs, v.ip, v.now).0, ip)
  {
    var bs', i := Connect(bs, v.ip, v.now).0, Find(bs, ip);
    assert bs'[i].ip == ip;
  }

  /** Nobody is evicted while fewer than 64 addresses are known. */
  lemma {:induction false} RoomMeansStays(bs: seq<Bucket>, vs: seq<Visit>, ip: string)
    requires |After(bs, vs)| < IPS
    ensures Stays(bs, vs, ip) && (Mine(vs, ip) > 0 ==> Tracked(After(bs, vs), ip))
    decreases vs
  {
    if vs != [] {
      var before, v := vs[..|vs| - 1], vs[|vs| - 1];
      assert |After(bs, before)| <= |After(bs, vs)|;
      RoomMeansStays(bs, before, ip);
      if Mine(vs, ip) > 0 {
        RoomKeepsTracked(After(bs, before), ip, v);
      }
    }
  }
}
