/** Scoring, sorting and selection of engrams (src/muninn/muninn.c). Confidence and scores are reals. */
module MuninnRank {
  import opened Basics

  datatype Engram = Engram(vault: string, content: string, confidence: real, access: nat, last: nat, state: nat)

  type Table = map<nat, Engram>

  const CANDIDATES := 256
  const TOP := 64

  // ---------------------------------------------------------------- scores

  /** The decay of an age in seconds, of which only this is used: it is positive and never grows. */
  ghost predicate Fades(decay: nat -> real) {
    forall x, y :: x <= y ==> decay(x) >= decay(y) > 0.0
  }

  /** Seconds since the last access, in 64-bit arithmetic; 0 stands for "now". */
  function Age(e: Engram, now: nat): nat {
    if e.last == 0 then 0 else (now - e.last) % 0x1_0000_0000_0000_0000
  }

  function Priority(e: Engram, now: nat, decay: nat -> real): real {
    (1 + e.access) as real * decay(Age(e, now))
  }

  function Score(e: Engram, now: nat, decay: nat -> real): real {
    Priority(e, now, decay) * e.confidence
  }

  lemma {:induction false} ProductsGrow(p: real, q: real, x: real, y: real)
    requires p >= q > 0.0 && x >= y > 0.0
    ensures p * x >= q * y > 0.0
  {
    assert p * x - q * y == (p - q) * x + q * (x - y);
  }

  lemma {:induction false} PriorityGrows(a: Engram, b: Engram, now: nat, decay: nat -> real)
    requires Fades(decay) && a.access >= b.access && Age(a, now) <= Age(b, now)
    ensures Priority(a, now, decay) >= Priority(b, now, decay) > 0.0
  {
    ProductsGrow((1 + a.access) as real, (1 + b.access) as real, decay(Age(a, now)), decay(Age(b, now)));
  }

  /** Strictly more confidence, no fewer accesses and no older. */
  predicate Surpasses(a: Engram, b: Engram, now: nat) {
    a.confidence > b.confidence >= 0.0 && a.access >= b.access && Age(a, now) <= Age(b, now)
  }

  lemma {:induction false} SurpassingScores(a: Engram, b: Engram, now: nat, decay: nat -> real)
    requires Fades(decay) && Surpasses(a, b, now)
    ensures Score(a, now, decay) > Score(b, now, decay)
  {
    PriorityGrows(a, b, now, decay);
    var p, q := Priority(a, now, decay), Priority(b, now, decay);
    var c, d := a.confidence, b.confidence;
    assert p * c - q * d == p * (c - d) + (p - q) * d;
  }

  /** Alike but for how often they were used: equally old, equally sure. */
  predicate SameButUse(a: Engram, b: Engram, now: nat) {
    a.confidence == b.confidence > 0.0 && Age(a, now) == Age(b, now)
  }

  /** Alike but for when they were last used. */
  predicate SameButAge(a: Engram, b: Engram) {
    a.confidence == b.confidence > 0.0 && a.access == b.access
  }

  /** Scores of engrams alike but for use are as one plus their accesses. */
  lemma {:induction false} ScoresAsUse(a: Engram, b: Engram, now: nat, decay: nat -> real)
    requires a.confidence == b.confidence && Age(a, now) == Age(b, now)
    ensures Score(a, now, decay) * (1 + b.access) as real == Score(b, now, decay) * (1 + a.access) as real
  {
    Regroup((1 + a.access) as real, decay(Age(a, now)), a.confidence, (1 + b.access) as real);
  }

  lemma {:induction false} Regroup(x: real, d: real, c: real, y: real)
    ensures x * d * c * y == y * d * c * x
    ensures x * d * c * y == x * y * c * d
  {
  }

  lemma {:induction false} ProductGrows(x: real, d: real, f: real, c: real)
    requires x > 0.0 && c > 0.0 && d > f
    ensures x * d * c > x * f * c && d * x * c > f * x * c
  {
    assert x * d - x * f == x * (d - f);
    assert x * (d - f) > 0.0;
    assert x * d * c - x * f * c == (x * d - x * f) * c;
  }

  /** So more use means a strictly higher score. */
  lemma {:induction false} MoreUseScores(a: Engram, b: Engram, now: nat, decay: nat -> real)
    requires Fades(decay) && SameButUse(a, b, now) && a.access > b.access
    ensures Score(a, now, decay) > Score(b, now, decay)
  {
    assert decay(Age(a, now)) >= decay(Age(a, now)) > 0.0;
    ProductGrows(decay(Age(a, now)), (1 + a.access) as real, (1 + b.access) as real, a.confidence);
  }

  /** Scores of engrams alike but for age are as the decays of their ages. */
  lemma {:induction false} ScoresAsDecay(a: Engram, b: Engram, now: nat, decay: nat -> real)
    requires SameButAge(a, b)
    ensures Score(a, now, decay) * decay(Age(b, now)) == Score(b, now, decay) * decay(Age(a, now))
  {
    Regroup((1 + a.access) as real, decay(Age(a, now)), a.confidence, decay(Age(b, now)));
  }

  /** So less decay means a strictly higher score. */
  lemma {:induction false} FresherScores(a: Engram, b: Engram, now: nat, decay: nat -> real)
    requires SameButAge(a, b) && decay(Age(a, now)) > decay(Age(b, now))
    ensures Score(a, now, decay) > Score(b, now, decay)
  {
    var x, d, f, c := (1 + a.access) as real, decay(Age(a, now)), decay(Age(b, now)), a.confidence;
    ProductGrows(x, d, f, c);
    SameProduct((1 + b.access) as real, f, b.confidence, x, c);
  }

  lemma {:induction false} SameProduct(y: real, f: real, e: real, x: real, c: real)
    requires y == x && e == c
    ensures y * f * e == x * f * c
  {
  }

  /** The age is the time since the last access; an engram never accessed counts as new. */
  lemma {:induction false} AgeIs(e: Engram, now: nat)
    requires now < 0x1_0000_0000_0000_0000
    ensures e.last == 0 ==> Age(e, now) == 0
    ensures 0 < e.last <= now ==> Age(e, now) == now - e.last
  {
  }

  datatype Scored = Scored(id: nat, score: real)

  predicate Eligible(t: Table, vault: string, id: nat) {
    id in t && t[id].vault == vault
  }

  /** The candidates found in the vault, each with its score, in candidate order. */
  function Scores(t: Table, vault: string, ids: seq<nat>, now: nat, decay: nat -> real): (r: seq<Scored>)
    ensures |r| <= |ids|
  {
    if ids == [] then []
    else
      var n := |ids| - 1;
      var before := Scores(t, vault, ids[..n], now, decay);
      if Eligible(t, vault, ids[n]) then before + [Scored(ids[n], Score(t[ids[n]], now, decay))] else before
  }

  // ---------------------------------------------------------------- sorting

  /** Insertion from the right, past every strictly lower score. */
  function Insert(s: seq<Scored>, x: Scored): (r: seq<Scored>)
    ensures |r| == |s| + 1
  {
    if s == [] || s[|s| - 1].score >= x.score then s + [x]
    else Insert(s[..|s| - 1], x) + [s[|s| - 1]]
  }

  function Sorted(s: seq<Scored>): (r: seq<Scored>)
    ensures |r| == |s|
  {
    if s == [] then [] else Insert(Sorted(s[..|s| - 1]), s[|s| - 1])
  }

  /** Insertion lands right of the last score that is no lower. */
  lemma {:induction false} InsertLands(s: seq<Scored>, j: nat, x: Scored)
    requires j <= |s| && (j > 0 ==> s[j - 1].score >= x.score)
    requires forall k :: j <= k < |s| ==> s[k].score < x.score
    ensures Insert(s, x) == s[..j] + [x] + s[j..]
    decreases s
  {
    if j < |s| {
      var n := |s| - 1;
      InsertLands(s[..n], j, x);
      assert s[..n][..j] == s[..j];
      assert s[j..] == s[..n][j..] + [s[n]];
    }
  }

  /** The inner loop: lower scores left of `i` move one place right, which frees place `j`. */
  method ShiftLower(a: array<Scored>, i: nat, x: Scored) returns (j: nat)
    requires i < a.Length
    modifies a
    ensures j <= i && (j > 0 ==> a[j - 1].score >= x.score)
    ensures forall k :: 0 <= k < j ==> a[k] == old(a[k])
    ensures forall k :: j < k <= i ==> a[k] == old(a[k - 1]) && a[k].score < x.score
    ensures forall k :: i < k < a.Length ==> a[k] == old(a[k])
  {
    j := i;
    while j > 0 && a[j - 1].score < x.score
      invariant 0 <= j <= i
      invariant forall k :: 0 <= k < j ==> a[k] == old(a[k])
      invariant forall k :: j < k <= i ==> a[k] == old(a[k - 1]) && a[k].score < x.score
      invariant forall k :: i < k < a.Length ==> a[k] == old(a[k])
    {
      a[j] := a[j - 1];
      j := j - 1;
    }
  }

  /** One pass of the sort: the element at `i` moves left over the lower scores. */
  method InsertAt(a: array<Scored>, i: nat)
    requires i < a.Length
    modifies a
    ensures a[..i + 1] == Insert(old(a[..i]), old(a[i]))
    ensures forall k :: i < k < a.Length ==> a[k] == old(a[k])
  {
    ghost var s := a[..i];
    var x := a[i];
    var j := ShiftLower(a, i, x);
    assert forall k :: j <= k < i ==> s[k] == a[k + 1];
    a[j] := x;
    InsertLands(s, j, x);
    assert a[..i + 1] == s[..j] + [x] + s[j..];
  }

  lemma {:induction false} SortedSnoc(s: seq<Scored>, i: nat)
    requires i < |s|
    ensures Sorted(s[..i + 1]) == Insert(Sorted(s[..i]), s[i])
  {
    assert s[..i + 1][..i] == s[..i];
  }

  lemma {:induction false} SortedOne(s: seq<Scored>)
    requires |s| == 1
    ensures Sorted(s) == s
  {
    assert s[..0] == [];
    assert Sorted(s) == Insert([], s[0]) == [] + [s[0]];
  }

  /** The insertion sort of the first `n` scores, in place. */
  method SortScores(a: array<Scored>, n: nat)
    requires n <= a.Length
    modifies a
    ensures a[..n] == Sorted(old(a[..n]))
  {
    ghost var s := a[..n];
    if n > 0 {
      SortedOne(s[..1]);
    }
    var i := 1;
    while i < n
      invariant 1 <= i && (n > 0 ==> i <= n)
      invariant n > 0 ==> a[..i] == Sorted(s[..i]) && forall k :: i <= k < n ==> a[k] == s[k]
    {
      SortedSnoc(s, i);
      InsertAt(a, i);
      i := i + 1;
    }
    assert n > 0 ==> s[..n] == s;
  }

  // ---------------------------------------------------------------- ranking

  predicate Distinct(ids: seq<nat>) {
    forall i, j :: 0 <= i < j < |ids| ==> ids[i] != ids[j]
  }

  /** `a` comes before `b` among the candidates. */
  ghost predicate Earlier(ids: seq<nat>, a: nat, b: nat) {
    exists i, j :: 0 <= i < j < |ids| && ids[i] == a && ids[j] == b
  }

  /** A higher score, or the same score and an earlier candidate. */
  ghost predicate Ahead(ids: seq<nat>, x: Scored, y: Scored) {
    x.score > y.score || (x.score == y.score && Earlier(ids, x.id, y.id))
  }

  ghost predicate Ranked(ids: seq<nat>, s: seq<Scored>) {
    forall i, j :: 0 <= i < j < |s| ==> Ahead(ids, s[i], s[j])
  }

  ghost predicate InOrder(ids: seq<nat>, s: seq<Scored>) {
    forall i, j :: 0 <= i < j < |s| ==> Earlier(ids, s[i].id, s[j].id)
  }

  lemma {:induction false} InsertHas(s: seq<Scored>, x: Scored, y: Scored)
    ensures y in Insert(s, x) <==> y in s || y == x
    decreases s
  {
    if s != [] && s[|s| - 1].score < x.score {
      InsertHas(s[..|s| - 1], x, y);
      assert s == s[..|s| - 1] + [s[|s| - 1]];
    }
  }

  lemma {:induction false} SortedHas(s: seq<Scored>, y: Scored)
    ensures y in Sorted(s) <==> y in s
    decreases s
  {
    if s != [] {
      var n := |s| - 1;
      SortedHas(s[..n], y);
      InsertHas(Sorted(s[..n]), s[n], y);
      assert s == s[..n] + [s[n]];
    }
  }

  lemma {:induction false} RankedSnoc(ids: seq<nat>, s: seq<Scored>, x: Scored)
    requires Ranked(ids, s) && forall y <- s :: Ahead(ids, y, x)
    ensures Ranked(ids, s + [x])
  {
  }

  lemma {:induction false} InsertRanked(ids: seq<nat>, s: seq<Scored>, x: Scored)
    requires Ranked(ids, s) && forall y <- s :: Earlier(ids, y.id, x.id)
    ensures Ranked(ids, Insert(s, x))
    decreases s
  {
    if s == [] || s[|s| - 1].score >= x.score {
      forall y | y in s
        ensures Ahead(ids, y, x)
      {
        var i :| 0 <= i < |s| && s[i] == y;
        assert i < |s| - 1 ==> Ahead(ids, s[i], s[|s| - 1]);
      }
      RankedSnoc(ids, s, x);
    } else {
      var n := |s| - 1;
      InsertRanked(ids, s[..n], x);
      var r := Insert(s[..n], x);
      forall y | y in r
        ensures Ahead(ids, y, s[n])
      {
        InsertHas(s[..n], x, y);
      }
      RankedSnoc(ids, r, s[n]);
    }
  }

  /** Sorting candidates taken in order ranks them. */
  lemma {:induction false} SortedRanked(ids: seq<nat>, s: seq<Scored>)
    requires InOrder(ids, s)
    ensures Ranked(ids, Sorted(s))
    decreases s
  {
    if s != [] {
      var n := |s| - 1;
      SortedRanked(ids, s[..n]);
      forall y | y in Sorted(s[..n])
        ensures Earlier(ids, y.id, s[n].id)
      {
        SortedHas(s[..n], y);
      }
      InsertRanked(ids, Sorted(s[..n]), s[n]);
    }
  }

  lemma {:induction false} EarlierExtends(ids: seq<nat>, n: nat, a: nat, b: nat)
    requires n <= |ids| && Earlier(ids[..n], a, b)
    ensures Earlier(ids, a, b)
  {
    var i, j :| 0 <= i < j < n && ids[..n][i] == a && ids[..n][j] == b;
    assert ids[i] == a && ids[j] == b;
  }

  lemma {:induction false} ScoresAre(t: Table, vault: string, ids: seq<nat>, now: nat, decay: nat -> real, x: Scored)
    ensures x in Scores(t, vault, ids, now, decay) <==>
            x.id in ids && Eligible(t, vault, x.id) && x.score == Score(t[x.id], now, decay)
    decreases ids
  {
    if ids != [] {
      var n := |ids| - 1;
      ScoresAre(t, vault, ids[..n], now, decay, x);
      assert ids == ids[..n] + [ids[n]];
    }
  }

  lemma {:induction false} ScoresInOrder(t: Table, vault: string, ids: seq<nat>, now: nat, decay: nat -> real)
    ensures InOrder(ids, Scores(t, vault, ids, now, decay))
    decreases ids
  {
    if ids != [] {
      var n := |ids| - 1;
      var before, r := Scores(t, vault, ids[..n], now, decay), Scores(t, vault, ids, now, decay);
      ScoresInOrder(t, vault, ids[..n], now, decay);
      forall i, j | 0 <= i < j < |r|
        ensures Earlier(ids, r[i].id, r[j].id)
      {
        if j < |before| {
          EarlierExtends(ids, n, r[i].id, r[j].id);
        } else {
          ScoresAre(t, vault, ids[..n], now, decay, r[i]);
          var k :| 0 <= k < n && ids[..n][k] == r[i].id;
          assert ids[k] == r[i].id && ids[n] == r[j].id;
        }
      }
    }
  }

  // ---------------------------------------------------------------- recall

  function TopN(top: nat): (n: nat)
    ensures n == if 1 <= top <= 64 then top else 64
  {
    if top == 0 || top > TOP then TOP else top
  }

  /** The states that the fallback query and muninn_read accept: active and completed. */
  predicate Current(e: Engram) {
    e.state == 0 || e.state == 4
  }

  /** The rows of the fallback query: current engrams of the vault, in the order of `listing`. */
  function Listed(t: Table, vault: string, listing: seq<nat>): (ids: seq<nat>)
    ensures |ids| <= |listing|
  {
    if listing == [] then []
    else
      var n := |listing| - 1;
      Listed(t, vault, listing[..n]) +
      if Eligible(t, vault, listing[n]) && Current(t[listing[n]]) then [listing[n]] else []
  }

  /** At most 256 text matches, or failing those at most 256 from the fallback query. */
  function Candidates(t: Table, vault: string, matches: seq<nat>, listing: seq<nat>): (ids: seq<nat>)
    ensures |ids| <= CANDIDATES
  {
    var ids := if matches == [] then Listed(t, vault, listing) else matches;
    ids[..Min(CANDIDATES, |ids|)]
  }

  lemma {:induction false} ListedAre(t: Table, vault: string, listing: seq<nat>, id: nat)
    ensures id in Listed(t, vault, listing) <==> id in listing && Eligible(t, vault, id) && Current(t[id])
    decreases listing
  {
    if listing != [] {
      ListedAre(t, vault, listing[..|listing| - 1], id);
      assert listing == listing[..|listing| - 1] + [listing[|listing| - 1]];
    }
  }

  lemma {:induction false} ListedDistinct(t: Table, vault: string, listing: seq<nat>)
    requires Distinct(listing)
    ensures Distinct(Listed(t, vault, listing))
    decreases listing
  {
    if listing != [] {
      var n := |listing| - 1;
      ListedDistinct(t, vault, listing[..n]);
      ListedAre(t, vault, listing[..n], listing[n]);
    }
  }

  /** The fallback's order: newest access first, more accesses first among equals. */
  predicate NoOlder(e: Engram, f: Engram) {
    e.last > f.last || (e.last == f.last && e.access >= f.access)
  }

  ghost predicate ByRecency(t: Table, ids: seq<nat>) {
    forall i, j :: 0 <= i < j < |ids| && ids[i] in t && ids[j] in t ==> NoOlder(t[ids[i]], t[ids[j]])
  }

  lemma {:induction false} ListedByRecency(t: Table, vault: string, listing: seq<nat>)
    requires ByRecency(t, listing)
    ensures ByRecency(t, Listed(t, vault, listing))
    decreases listing
  {
    if listing != [] {
      var n := |listing| - 1;
      var before := Listed(t, vault, listing[..n]);
      ListedByRecency(t, vault, listing[..n]);
      forall i | 0 <= i < |before| && listing[n] in t
        ensures before[i] in t && NoOlder(t[before[i]], t[listing[n]])
      {
        ListedAre(t, vault, listing[..n], before[i]);
        var k :| 0 <= k < n && listing[k] == before[i];
      }
    }
  }

  /** If the fallback leaves a current engram out, all its candidates are at least as recent. */
  lemma {:induction false} FallbackIsRecent(t: Table, vault: string, listing: seq<nat>, c: nat, id: nat)
    requires ByRecency(t, listing) && c in Candidates(t, vault, [], listing)
    requires id in Listed(t, vault, listing) && id !in Candidates(t, vault, [], listing)
    ensures c in t && id in t && NoOlder(t[c], t[id])
  {
    var all := Listed(t, vault, listing);
    ListedByRecency(t, vault, listing);
    ListedAre(t, vault, listing, c);
    ListedAre(t, vault, listing, id);
    var cs := Candidates(t, vault, [], listing);
    assert forall k :: 0 <= k < |cs| ==> cs[k] in cs && cs[k] == all[k];
    var i :| 0 <= i < |cs| && cs[i] == c;
    var j :| 0 <= j < |all| && all[j] == id;
    assert i < j;
  }

  /** The current engrams of a vault. */
  function CurrentOf(t: Table, vault: string): set<nat> {
    set id | id in t && Eligible(t, vault, id) && Current(t[id])
  }

  lemma {:induction false} DistinctFits(ids: seq<nat>, s: set<nat>)
    requires Distinct(ids) && forall id <- ids :: id in s
    ensures |ids| <= |s|
    decreases ids
  {
    if ids != [] {
      var n := |ids| - 1;
      assert forall id <- ids[..n] :: id in ids;
      assert ids[n] in ids;
      DistinctFits(ids[..n], s - {ids[n]});
    }
  }

  /** A vault of at most 256 current engrams is listed whole. */
  lemma {:induction false} AllAreCandidates(t: Table, vault: string, listing: seq<nat>)
    requires Distinct(listing) && |CurrentOf(t, vault)| <= CANDIDATES &&
             forall id <- CurrentOf(t, vault) :: id in listing
    ensures Distinct(Candidates(t, vault, [], listing))
    ensures forall id :: id in Candidates(t, vault, [], listing) <==> id in CurrentOf(t, vault)
  {
    var all := Listed(t, vault, listing);
    ListedDistinct(t, vault, listing);
    forall id
      ensures id in all <==> id in CurrentOf(t, vault)
    {
      ListedAre(t, vault, listing, id);
    }
    DistinctFits(all, CurrentOf(t, vault));
    assert all[..|all|] == all;
  }

  lemma {:induction false} CandidatesDistinct(t: Table, vault: string, matches: seq<nat>, listing: seq<nat>)
    requires Distinct(matches) && Distinct(listing)
    ensures Distinct(Candidates(t, vault, matches, listing))
  {
    ListedDistinct(t, vault, listing);
  }

  function Ids(s: seq<Scored>): (r: seq<nat>)
    ensures |r| == |s| && forall i :: 0 <= i < |s| ==> r[i] == s[i].id
  {
    seq(|s|, i requires 0 <= i < |s| => s[i].id)
  }

  /** The engrams an activation returns. */
  function Recall(t: Table, vault: string, ids: seq<nat>, top: nat, now: nat, decay: nat -> real): seq<nat> {
    var s := Sorted(Scores(t, vault, ids, now, decay));
    Ids(s[..Min(TopN(top), |s|)])
  }

  /** The rank of `a` is above that of `b`. */
  ghost predicate Better(t: Table, ids: seq<nat>, now: nat, decay: nat -> real, a: nat, b: nat)
    requires a in t && b in t
  {
    Ahead(ids, Scored(a, Score(t[a], now, decay)), Scored(b, Score(t[b], now, decay)))
  }

  /** Facts about the sorted scores from which the theorems on recall follow. */
  lemma {:induction false} RankedScores(t: Table, vault: string, ids: seq<nat>, now: nat, decay: nat -> real)
    ensures var s := Sorted(Scores(t, vault, ids, now, decay));
      && Ranked(ids, s)
      && forall x :: x in s <==> x.id in ids && Eligible(t, vault, x.id) && x.score == Score(t[x.id], now, decay)
  {
    var s := Scores(t, vault, ids, now, decay);
    ScoresInOrder(t, vault, ids, now, decay);
    SortedRanked(ids, s);
    forall x
      ensures x in Sorted(s) <==> x.id in ids && Eligible(t, vault, x.id) && x.score == Score(t[x.id], now, decay)
    {
      SortedHas(s, x);
      ScoresAre(t, vault, ids, now, decay, x);
    }
  }

  lemma {:induction false} RankedAt(t: Table, vault: string, ids: seq<nat>, now: nat, decay: nat -> real, i: nat)
    requires i < |Sorted(Scores(t, vault, ids, now, decay))|
    ensures var x := Sorted(Scores(t, vault, ids, now, decay))[i];
      x.id in ids && Eligible(t, vault, x.id) && x.score == Score(t[x.id], now, decay)
  {
    RankedScores(t, vault, ids, now, decay);
    assert Sorted(Scores(t, vault, ids, now, decay))[i] in Sorted(Scores(t, vault, ids, now, decay));
  }

  /** What is returned comes from the candidates and the vault asked for, at most as much as asked for. */
  lemma {:induction false} RecallIsFromVault(t: Table, vault: string, ids: seq<nat>, top: nat, now: nat,
                                             decay: nat -> real, i: nat)
    requires i < |Recall(t, vault, ids, top, now, decay)|
    ensures var id := Recall(t, vault, ids, top, now, decay)[i]; id in ids && Eligible(t, vault, id)
    ensures |Recall(t, vault, ids, top, now, decay)| <= TopN(top)
  {
    RankedAt(t, vault, ids, now, decay, i);
  }

  /** Results are in rank order: by score, ties in candidate order. */
  lemma {:induction false} RecallIsRanked(t: Table, vault: string, ids: seq<nat>, top: nat, now: nat,
                                          decay: nat -> real, i: nat, j: nat)
    requires i < j < |Recall(t, vault, ids, top, now, decay)|
    ensures var r := Recall(t, vault, ids, top, now, decay);
      r[i] in t && r[j] in t && Better(t, ids, now, decay, r[i], r[j])
  {
    var s := Sorted(Scores(t, vault, ids, now, decay));
    RankedScores(t, vault, ids, now, decay);
    RankedAt(t, vault, ids, now, decay, i);
    RankedAt(t, vault, ids, now, decay, j);
    assert Ahead(ids, s[i], s[j]);
  }

  lemma {:induction false} RecallIsDistinct(t: Table, vault: string, ids: seq<nat>, top: nat, now: nat,
                                            decay: nat -> real)
    requires Distinct(ids)
    ensures Distinct(Recall(t, vault, ids, top, now, decay))
  {
    var r := Recall(t, vault, ids, top, now, decay);
    forall i, j | 0 <= i < j < |r|
      ensures r[i] != r[j]
    {
      RecallIsRanked(t, vault, ids, top, now, decay, i, j);
    }
  }

  /** A candidate of the vault that is not returned ranks below everything that is, and the results are full. */
  lemma {:induction false} RecallLeavesNoneBetter(t: Table, vault: string, ids: seq<nat>, top: nat, now: nat,
                                                  decay: nat -> real, id: nat)
    requires id in ids && Eligible(t, vault, id) && id !in Recall(t, vault, ids, top, now, decay)
    ensures |Recall(t, vault, ids, top, now, decay)| == TopN(top)
    ensures forall k <- Recall(t, vault, ids, top, now, decay) :: k in t && Better(t, ids, now, decay, k, id)
  {
    var s, r := Sorted(Scores(t, vault, ids, now, decay)), Recall(t, vault, ids, top, now, decay);
    RankedScores(t, vault, ids, now, decay);
    var x := Scored(id, Score(t[id], now, decay));
    assert x in s;
    var m :| 0 <= m < |s| && s[m] == x;
    assert forall i :: 0 <= i < |r| ==> r[i] == s[i].id;
    forall k | k in r
      ensures k in t && Better(t, ids, now, decay, k, id)
    {
      var i :| 0 <= i < |r| && r[i] == k;
      RankedAt(t, vault, ids, now, decay, i);
      assert Ahead(ids, s[i], s[m]);
    }
  }

  /** A candidate of the vault with a strictly higher score is returned before the other. */
  lemma {:induction false} HigherScoreFirst(t: Table, vault: string, ids: seq<nat>, top: nat, now: nat,
                                            decay: nat -> real, a: nat, k: nat)
    requires a in ids && Eligible(t, vault, a)
    requires k < |Recall(t, vault, ids, top, now, decay)|
    requires Recall(t, vault, ids, top, now, decay)[k] in t
    requires Score(t[a], now, decay) > Score(t[Recall(t, vault, ids, top, now, decay)[k]], now, decay)
    ensures a in Recall(t, vault, ids, top, now, decay)[..k]
  {
    var r := Recall(t, vault, ids, top, now, decay);
    if a !in r {
      RecallLeavesNoneBetter(t, vault, ids, top, now, decay, a);
    } else {
      var i :| 0 <= i < |r| && r[i] == a;
      if k < i {
        RecallIsRanked(t, vault, ids, top, now, decay, k, i);
      }
      assert r[..k][i] == a;
    }
  }

  /** Of two candidates alike but for use, the one used more is returned first. */
  lemma {:induction false} MoreUsedFirst(t: Table, vault: string, ids: seq<nat>, top: nat, now: nat,
                                         decay: nat -> real, a: nat, k: nat)
    requires Fades(decay) && a in ids && Eligible(t, vault, a)
    requires k < |Recall(t, vault, ids, top, now, decay)|
    requires Recall(t, vault, ids, top, now, decay)[k] in t
    requires var b := t[Recall(t, vault, ids, top, now, decay)[k]]; SameButUse(t[a], b, now) && t[a].access > b.access
    ensures a in Recall(t, vault, ids, top, now, decay)[..k]
  {
    MoreUseScores(t[a], t[Recall(t, vault, ids, top, now, decay)[k]], now, decay);
    HigherScoreFirst(t, vault, ids, top, now, decay, a, k);
  }

  /** Of two candidates alike but for age, the one that has decayed less is returned first. */
  lemma {:induction false} FresherFirst(t: Table, vault: string, ids: seq<nat>, top: nat, now: nat,
                                        decay: nat -> real, a: nat, k: nat)
    requires a in ids && Eligible(t, vault, a)
    requires k < |Recall(t, vault, ids, top, now, decay)|
    requires Recall(t, vault, ids, top, now, decay)[k] in t
    requires var b := t[Recall(t, vault, ids, top, now, decay)[k]];
      SameButAge(t[a], b) && decay(Age(t[a], now)) > decay(Age(b, now))
    ensures a in Recall(t, vault, ids, top, now, decay)[..k]
  {
    FresherScores(t[a], t[Recall(t, vault, ids, top, now, decay)[k]], now, decay);
    HigherScoreFirst(t, vault, ids, top, now, decay, a, k);
  }

  /** A candidate strictly ahead in confidence and no worse otherwise is returned before the other. */
  lemma {:induction false} RecallRespectsDominance(t: Table, vault: string, ids: seq<nat>, top: nat, now: nat,
                                                   decay: nat -> real, a: nat, k: nat)
    requires Fades(decay) && a in ids && Eligible(t, vault, a)
    requires k < |Recall(t, vault, ids, top, now, decay)|
    requires Recall(t, vault, ids, top, now, decay)[k] in t
    requires Surpasses(t[a], t[Recall(t, vault, ids, top, now, decay)[k]], now)
    ensures a in Recall(t, vault, ids, top, now, decay)[..k]
  {
    SurpassingScores(t[a], t[Recall(t, vault, ids, top, now, decay)[k]], now, decay);
    HigherScoreFirst(t, vault, ids, top, now, decay, a, k);
  }

  // ---------------------------------------------------------------- the exact place of a candidate

  /** The candidates of the vault that rank above `id`. */
  ghost function Above(t: Table, vault: string, ids: seq<nat>, now: nat, decay: nat -> real, id: nat): set<nat>
    requires id in t
  {
    set c | c in ids && Eligible(t, vault, c) && Better(t, ids, now, decay, c, id)
  }

  lemma {:induction false} AheadIsStrict(ids: seq<nat>, x: Scored, y: Scored)
    requires Distinct(ids) && Ahead(ids, x, y)
    ensures !Ahead(ids, y, x)
  {
  }

  ghost function FirstIds(s: seq<Scored>, m: nat): set<nat>
    requires m <= |s|
  {
    if m == 0 then {} else FirstIds(s, m - 1) + {s[m - 1].id}
  }

  lemma {:induction false} FirstIdsAre(s: seq<Scored>, m: nat, c: nat)
    requires m <= |s|
    ensures c in FirstIds(s, m) <==> exists i :: 0 <= i < m && s[i].id == c
    decreases m
  {
    if m > 0 {
      FirstIdsAre(s, m - 1, c);
      assert c == s[m - 1].id ==> 0 <= m - 1 < m && s[m - 1].id == c;
    }
  }

  lemma {:induction false} FirstIdsCount(s: seq<Scored>, m: nat)
    requires m <= |s| && forall i, j :: 0 <= i < j < |s| ==> s[i].id != s[j].id
    ensures |FirstIds(s, m)| == m
    decreases m
  {
    if m > 0 {
      FirstIdsCount(s, m - 1);
      FirstIdsAre(s, m - 1, s[m - 1].id);
    }
  }

  lemma {:induction false} SortedIdsDistinct(t: Table, vault: string, ids: seq<nat>, now: nat, decay: nat -> real,
                                             i: nat, j: nat)
    requires Distinct(ids) && i < j < |Sorted(Scores(t, vault, ids, now, decay))|
    ensures var s := Sorted(Scores(t, vault, ids, now, decay)); s[i].id != s[j].id && !Ahead(ids, s[j], s[i])
  {
    var s := Sorted(Scores(t, vault, ids, now, decay));
    RankedScores(t, vault, ids, now, decay);
    RankedAt(t, vault, ids, now, decay, i);
    RankedAt(t, vault, ids, now, decay, j);
    assert Ahead(ids, s[i], s[j]);
    AheadIsStrict(ids, s[i], s[j]);
  }

  /** A candidate ranks above the one at place `m` exactly when it stands at a place before. */
  lemma {:induction false} BetterIsBefore(t: Table, vault: string, ids: seq<nat>, now: nat, decay: nat -> real,
                                          i: nat, m: nat)
    requires Distinct(ids) && i < |Sorted(Scores(t, vault, ids, now, decay))|
    requires m < |Sorted(Scores(t, vault, ids, now, decay))|
    ensures var s := Sorted(Scores(t, vault, ids, now, decay)); Ahead(ids, s[i], s[m]) <==> i < m
  {
    var s := Sorted(Scores(t, vault, ids, now, decay));
    RankedScores(t, vault, ids, now, decay);
    if i < m {
      assert Ahead(ids, s[i], s[m]);
    } else if m < i {
      SortedIdsDistinct(t, vault, ids, now, decay, m, i);
    }
  }

  lemma {:induction false} AboveAt(t: Table, vault: string, ids: seq<nat>, now: nat, decay: nat -> real, m: nat, i: nat)
    requires Distinct(ids) && i < |Sorted(Scores(t, vault, ids, now, decay))|
    requires m < |Sorted(Scores(t, vault, ids, now, decay))|
    ensures var s := Sorted(Scores(t, vault, ids, now, decay));
      s[m].id in t && (s[i].id in Above(t, vault, ids, now, decay, s[m].id) <==> i < m)
  {
    RankedAt(t, vault, ids, now, decay, i);
    RankedAt(t, vault, ids, now, decay, m);
    BetterIsBefore(t, vault, ids, now, decay, i, m);
  }

  /** Above a candidate at place `m` are exactly those at the places before. */
  lemma {:induction false} AboveIsBefore(t: Table, vault: string, ids: seq<nat>, now: nat, decay: nat -> real, m: nat)
    requires Distinct(ids) && m < |Sorted(Scores(t, vault, ids, now, decay))|
    ensures var s := Sorted(Scores(t, vault, ids, now, decay));
      s[m].id in t && Above(t, vault, ids, now, decay, s[m].id) == FirstIds(s, m)
  {
    var s := Sorted(Scores(t, vault, ids, now, decay));
    RankedScores(t, vault, ids, now, decay);
    AboveAt(t, vault, ids, now, decay, m, m);
    forall c | c in Above(t, vault, ids, now, decay, s[m].id)
      ensures c in FirstIds(s, m)
    {
      assert Scored(c, Score(t[c], now, decay)) in s;
      var i :| 0 <= i < |s| && s[i] == Scored(c, Score(t[c], now, decay));
      AboveAt(t, vault, ids, now, decay, m, i);
      FirstIdsAre(s, m, c);
    }
    forall c | c in FirstIds(s, m)
      ensures c in Above(t, vault, ids, now, decay, s[m].id)
    {
      FirstIdsAre(s, m, c);
      var i :| 0 <= i < m && s[i].id == c;
      AboveAt(t, vault, ids, now, decay, m, i);
    }
  }

  /** The place of a candidate among the sorted scores, and how many rank above it. */
  lemma {:induction false} PlaceOf(t: Table, vault: string, ids: seq<nat>, now: nat, decay: nat -> real, id: nat)
    returns (m: nat)
    requires Distinct(ids) && id in ids && Eligible(t, vault, id)
    ensures var s := Sorted(Scores(t, vault, ids, now, decay));
      m < |s| && s[m].id == id && |Above(t, vault, ids, now, decay, id)| == m
  {
    var s := Sorted(Scores(t, vault, ids, now, decay));
    RankedScores(t, vault, ids, now, decay);
    assert Scored(id, Score(t[id], now, decay)) in s;
    m :| 0 <= m < |s| && s[m] == Scored(id, Score(t[id], now, decay));
    AboveIsBefore(t, vault, ids, now, decay, m);
    forall i, j | 0 <= i < j < |s|
      ensures s[i].id != s[j].id
    {
      SortedIdsDistinct(t, vault, ids, now, decay, i, j);
    }
    FirstIdsCount(s, m);
  }

  lemma {:induction false} FoundOnlyAt(t: Table, vault: string, ids: seq<nat>, now: nat, decay: nat -> real, m: nat,
                                       i: nat)
    requires Distinct(ids) && m < |Sorted(Scores(t, vault, ids, now, decay))| &&
             i < |Sorted(Scores(t, vault, ids, now, decay))|
    ensures var s := Sorted(Scores(t, vault, ids, now, decay)); s[i].id == s[m].id <==> i == m
  {
    if i < m {
      SortedIdsDistinct(t, vault, ids, now, decay, i, m);
    } else if m < i {
      SortedIdsDistinct(t, vault, ids, now, decay, m, i);
    }
  }

  /** A candidate of the vault is returned exactly when fewer than top_n candidates rank above it. */
  lemma {:induction false} RecalledIff(t: Table, vault: string, ids: seq<nat>, top: nat, now: nat, decay: nat -> real,
                                       id: nat)
    requires Distinct(ids) && id in ids && Eligible(t, vault, id)
    ensures id in Recall(t, vault, ids, top, now, decay) <==> |Above(t, vault, ids, now, decay, id)| < TopN(top)
  {
    var s, r := Sorted(Scores(t, vault, ids, now, decay)), Recall(t, vault, ids, top, now, decay);
    var m := PlaceOf(t, vault, ids, now, decay, id);
    if m < |r| {
      assert r[m] == id;
    } else if id in r {
      var i :| 0 <= i < |r| && r[i] == id;
      FoundOnlyAt(t, vault, ids, now, decay, m, i);
    }
  }
}
