/** The engram store: recall with its access and Hebbian updates, over every run (src/muninn/muninn.c). */
module Muninn {
  import opened Basics
  import opened CText
  import opened MuninnRank

  const INITIAL := 0.8
  const DELTA := 0.02
  const DOUBT := 0.1
  const SOFT_DELETED := 2

  type Links = map<(nat, nat), real>

  /** The two tables and the next row id. */
  datatype State = State(engrams: Table, links: Links, next: nat)

  const Empty := State(map[], map[], 1)

  // ---------------------------------------------------------------- the single updates

  function Touch(t: Table, id: nat, now: nat): Table {
    if id in t then t[id := t[id].(access := t[id].access + 1, last := now)] else t
  }

  function MinOne(x: real): real {
    if x < 1.0 then x else 1.0
  }

  function Reinforced(confidence: real, delta: real): real {
    MinOne(confidence + delta)
  }

  function Doubted(confidence: real): real {
    if confidence - DOUBT > 0.0 then confidence - DOUBT else 0.0
  }

  /** The upsert of one directed association. */
  function Strengthen(m: Links, p: (nat, nat)): Links {
    m[p := if p in m then MinOne(m[p] + DELTA) else DELTA]
  }

  // ---------------------------------------------------------------- the updates of one activation

  function TouchAll(t: Table, ids: seq<nat>, now: nat): Table {
    if ids == [] then t else Touch(TouchAll(t, ids[..|ids| - 1], now), ids[|ids| - 1], now)
  }

  /** Links from `a` to the first `j` of `ids`. */
  function Row(m: Links, ids: seq<nat>, a: nat, j: nat): Links
    requires j <= |ids|
  {
    if j == 0 then m
    else if a == ids[j - 1] then Row(m, ids, a, j - 1)
    else Strengthen(Row(m, ids, a, j - 1), (a, ids[j - 1]))
  }

  /** Links from the first `i` of `ids` to all of them. */
  function Rows(m: Links, ids: seq<nat>, i: nat): Links
    requires i <= |ids|
  {
    if i == 0 then m else Row(Rows(m, ids, i - 1), ids, ids[i - 1], |ids|)
  }

  method TouchReturned(t: Table, ids: seq<nat>, now: nat) returns (r: Table)
    ensures r == TouchAll(t, ids, now)
  {
    r := t;
    for i := 0 to |ids|
      invariant r == TouchAll(t, ids[..i], now)
    {
      assert ids[..i + 1][..i] == ids[..i];
      r := Touch(r, ids[i], now);
    }
    assert ids[..|ids|] == ids;
  }

  method LinkReturned(m: Links, ids: seq<nat>) returns (r: Links)
    ensures r == Rows(m, ids, |ids|)
  {
    r := m;
    if |ids| < 2 {
      LinkFew(m, ids);
      return;
    }
    for i := 0 to |ids|
      invariant r == Rows(m, ids, i)
    {
      ghost var before := r;
      for j := 0 to |ids|
        invariant r == Row(before, ids, ids[i], j)
      {
        if ids[i] != ids[j] {
          r := Strengthen(r, (ids[i], ids[j]));
        }
      }
    }
  }

  lemma {:induction false} LinkFew(m: Links, ids: seq<nat>)
    requires |ids| < 2
    ensures Rows(m, ids, |ids|) == m
  {
    if |ids| == 1 {
      assert Row(Rows(m, ids, 0), ids, ids[0], 1) == Row(m, ids, ids[0], 0);
    }
  }

  method CollectScores(t: Table, vault: string, ids: seq<nat>, now: nat, decay: nat -> real)
    returns (a: array<Scored>, n: nat)
    requires |ids| <= CANDIDATES
    ensures fresh(a) && n <= a.Length == CANDIDATES
    ensures a[..n] == Scores(t, vault, ids, now, decay)
  {
    a, n := new Scored[CANDIDATES](_ => Scored(0, 0.0)), 0;
    for i := 0 to |ids|
      invariant n <= i
      invariant a[..n] == Scores(t, vault, ids[..i], now, decay)
    {
      assert ids[..i + 1][..i] == ids[..i];
      if ids[i] in t && t[ids[i]].vault == vault {
        a[n] := Scored(ids[i], Score(t[ids[i]], now, decay));
        n := n + 1;
      }
    }
    assert ids[..|ids|] == ids;
  }

  method LoadTop(t: Table, a: array<Scored>, n: nat) returns (ids: seq<nat>)
    requires n <= a.Length && forall x <- a[..n] :: x.id in t
    ensures ids == Ids(a[..n])
  {
    ids := [];
    for i := 0 to n
      invariant ids == Ids(a[..i])
    {
      assert a[i] in a[..n];
      if a[i].id in t {
        ids := ids + [a[i].id];
      }
    }
  }

  class Store {
    var s: State

    constructor ()
      ensures s == Empty
    {
      s := Empty;
    }

    /** muninn_activate, given the text matches and the order in which the fallback query lists rows. */
    method Activate(vault: string, matches: seq<nat>, listing: seq<nat>, top: nat, now: nat, decay: nat -> real)
      returns (ids: seq<nat>)
      modifies this
      ensures (s, Recalled(ids)) == Step(old(s), Activation(vault, matches, listing, top), now, decay)
    {
      var candidates := Candidates(s.engrams, vault, matches, listing);
      var a, n := CollectScores(s.engrams, vault, candidates, now, decay);
      SortScores(a, n);
      var kept := Min(TopN(top), n);
      forall x | x in a[..kept]
        ensures x.id in s.engrams
      {
        RankedScores(s.engrams, vault, candidates, now, decay);
        assert x in a[..n];
      }
      assert a[..kept] == a[..n][..kept];
      ids := LoadTop(s.engrams, a, kept);
      var engrams := TouchReturned(s.engrams, ids, now);
      var links := LinkReturned(s.links, ids);
      s := s.(engrams := engrams, links := links);
    }
  }

  // ---------------------------------------------------------------- the store as a machine

  datatype Op =
    | Write(vault: string, content: string)
    | Activation(vault: string, matches: seq<nat>, listing: seq<nat>, top: nat)
    | RecordAccess(vault: string, id: nat)
    | Reinforce(id: nat, delta: real)
    | Contradict(id: nat)
    | SoftDelete(vault: string, id: nat)

  /** What a step showed the caller: the engrams recalled, or the one whose access was recorded. */
  datatype Event = Recalled(ids: seq<nat>) | Accessed(id: nat) | Quiet

  function Step(s: State, op: Op, now: nat, decay: nat -> real): (State, Event) {
    match op
    case Write(vault, content) =>
      (s.(engrams := s.engrams[s.next := Engram(vault, content, INITIAL, 0, now, 0)], next := s.next + 1), Quiet)
    case Activation(vault, matches, listing, top) =>
      var ids := Recall(s.engrams, vault, Candidates(s.engrams, vault, matches, listing), top, now, decay);
      (s.(engrams := TouchAll(s.engrams, ids, now), links := Rows(s.links, ids, |ids|)), Recalled(ids))
    case RecordAccess(vault, id) =>
      if Eligible(s.engrams, vault, id) then (s.(engrams := Touch(s.engrams, id, now)), Accessed(id)) else (s, Quiet)
    case Reinforce(id, delta) =>
      if id in s.engrams then
        var e := s.engrams[id];
        (s.(engrams := s.engrams[id := e.(confidence := Reinforced(e.confidence, delta))]), Quiet)
      else (s, Quiet)
    case Contradict(id) =>
      if id in s.engrams then
        var e := s.engrams[id];
        (s.(engrams := s.engrams[id := e.(confidence := Doubted(e.confidence))]), Quiet)
      else (s, Quiet)
    case SoftDelete(vault, id) =>
      if Eligible(s.engrams, vault, id) then
        (s.(engrams := s.engrams[id := s.engrams[id].(state := SOFT_DELETED)]), Quiet)
      else (s, Quiet)
  }

  // ---------------------------------------------------------------- what a run did

  datatype Request = Request(op: Op, now: nat)

  /** The state and the events of a run from the empty store. */
  function Run(reqs: seq<Request>, decay: nat -> real): (State, seq<Event>)
    decreases reqs
  {
    if reqs == [] then (Empty, [])
    else
      var n := |reqs| - 1;
      var (s, events) := Run(reqs[..n], decay);
      var (s', e) := Step(s, reqs[n].op, reqs[n].now, decay);
      (s', events + [e])
  }

  function Hit(e: Event, id: nat): nat {
    if (e.Recalled? && id in e.ids) || (e.Accessed? && id == e.id) then 1 else 0
  }

  /** How often `id` was returned by an activation or recorded as accessed. */
  function Hits(events: seq<Event>, id: nat): nat {
    if events == [] then 0 else Hits(events[..|events| - 1], id) + Hit(events[|events| - 1], id)
  }

  predicate Together(e: Event, a: nat, b: nat) {
    e.Recalled? && a in e.ids && b in e.ids && a != b
  }

  /** How often the distinct engrams `a` and `b` were returned by the same activation. */
  function Joint(events: seq<Event>, a: nat, b: nat): nat {
    if events == [] then 0
    else Joint(events[..|events| - 1], a, b) + if Together(events[|events| - 1], a, b) then 1 else 0
  }

  function Look(m: Links, p: (nat, nat)): Option<real> {
    if p in m then Some(m[p]) else None
  }

  /** The association after `k` joint activations. */
  function Weight(k: nat): Option<real> {
    if k == 0 then None else Some(MinOne(DELTA * k as real))
  }

  // ---------------------------------------------------------------- the invariants

  ghost predicate EngramsAgree(s: State, events: seq<Event>) {
    forall id: nat :: if id in s.engrams then
      id < s.next && s.engrams[id].access == Hits(events, id) && 0.0 <= s.engrams[id].confidence <= 1.0
      else Hits(events, id) == 0
  }

  ghost predicate SameVault(s: State, a: nat, b: nat) {
    a != b && a in s.engrams && b in s.engrams && s.engrams[a].vault == s.engrams[b].vault
  }

  ghost predicate LinksAgree(s: State, events: seq<Event>) {
    && (forall a: nat, b: nat :: Look(s.links, (a, b)) == Weight(Joint(events, a, b)))
    && (forall a: nat, b: nat :: Joint(events, a, b) > 0 ==> SameVault(s, a, b))
  }

  ghost predicate Inv(s: State, events: seq<Event>) {
    EngramsAgree(s, events) && LinksAgree(s, events)
  }

  /** The two candidate lists are row ids, so they do not repeat; reinforcement is not negative. */
  predicate Proper(op: Op) {
    match op
    case Activation(_, matches, listing, _) => Distinct(matches) && Distinct(listing)
    case Reinforce(_, delta) => delta >= 0.0
    case _ => true
  }

  // ---------------------------------------------------------------- effects of one activation

  lemma {:induction false} DistinctLast(ids: seq<nat>)
    requires Distinct(ids) && ids != []
    ensures Distinct(ids[..|ids| - 1]) && ids[|ids| - 1] !in ids[..|ids| - 1]
    ensures forall x :: x in ids <==> x in ids[..|ids| - 1] || x == ids[|ids| - 1]
  {
    assert ids == ids[..|ids| - 1] + [ids[|ids| - 1]];
  }

  function Touched(e: Engram, hit: bool, now: nat): Engram {
    if hit then e.(access := e.access + 1, last := now) else e
  }

  lemma {:induction false} TouchAllEffect(t: Table, ids: seq<nat>, now: nat, id: nat)
    requires Distinct(ids)
    ensures id in TouchAll(t, ids, now) <==> id in t
    ensures id in t ==> TouchAll(t, ids, now)[id] == Touched(t[id], id in ids, now)
    decreases ids
  {
    if ids != [] {
      DistinctLast(ids);
      TouchAllEffect(t, ids[..|ids| - 1], now, id);
    }
  }

  function Once(w: Option<real>): Option<real> {
    Some(if w.Some? then MinOne(w.value + DELTA) else DELTA)
  }

  lemma {:induction false} RowEffect(m: Links, ids: seq<nat>, a: nat, j: nat, p: (nat, nat))
    requires Distinct(ids) && j <= |ids|
    ensures Look(Row(m, ids, a, j), p) ==
            if p.0 == a && p.1 in ids[..j] && p.1 != a then Once(Look(m, p)) else Look(m, p)
    decreases j
  {
    if j > 0 {
      RowEffect(m, ids, a, j - 1, p);
      assert ids[..j] == ids[..j - 1] + [ids[j - 1]];
      assert ids[j - 1] !in ids[..j - 1];
    }
  }

  lemma {:induction false} RowsEffect(m: Links, ids: seq<nat>, i: nat, p: (nat, nat))
    requires Distinct(ids) && i <= |ids|
    ensures Look(Rows(m, ids, i), p) ==
            if p.0 in ids[..i] && p.1 in ids && p.0 != p.1 then Once(Look(m, p)) else Look(m, p)
    decreases i
  {
    if i > 0 {
      RowsEffect(m, ids, i - 1, p);
      RowEffect(Rows(m, ids, i - 1), ids, ids[i - 1], |ids|, p);
      assert ids[..|ids|] == ids;
      assert ids[..i] == ids[..i - 1] + [ids[i - 1]];
      assert ids[i - 1] !in ids[..i - 1];
    }
  }

  lemma {:induction false} WeightOnce(k: nat)
    ensures Once(Weight(k)) == Weight(k + 1)
  {
  }

  // ---------------------------------------------------------------- every step keeps the invariants

  lemma {:induction false} HitsSnoc(events: seq<Event>, e: Event)
    ensures forall id: nat :: Hits(events + [e], id) == Hits(events, id) + Hit(e, id)
    ensures forall a: nat, b: nat ::
              Joint(events + [e], a, b) == Joint(events, a, b) + if Together(e, a, b) then 1 else 0
  {
    assert (events + [e])[..|events|] == events;
  }

  /** What an activation returns: distinct engrams of one vault. */
  lemma {:induction false} RecalledAre(s: State, op: Op, now: nat, decay: nat -> real)
    requires op.Activation? && Proper(op)
    ensures var ids := Step(s, op, now, decay).1.ids;
      Distinct(ids) && forall id <- ids :: Eligible(s.engrams, op.vault, id)
  {
    var candidates := Candidates(s.engrams, op.vault, op.matches, op.listing);
    CandidatesDistinct(s.engrams, op.vault, op.matches, op.listing);
    var ids := Recall(s.engrams, op.vault, candidates, op.top, now, decay);
    RecallIsDistinct(s.engrams, op.vault, candidates, op.top, now, decay);
    forall id | id in ids
      ensures Eligible(s.engrams, op.vault, id)
    {
      var i :| 0 <= i < |ids| && ids[i] == id;
      RecallIsFromVault(s.engrams, op.vault, candidates, op.top, now, decay, i);
    }
  }

  lemma {:induction false} ActivationKeepsEngrams(s: State, events: seq<Event>, op: Op, now: nat, decay: nat -> real)
    requires EngramsAgree(s, events) && op.Activation? && Proper(op)
    ensures var (s', e) := Step(s, op, now, decay); EngramsAgree(s', events + [e])
  {
    var (s', e) := Step(s, op, now, decay);
    RecalledAre(s, op, now, decay);
    HitsSnoc(events, e);
    forall id: nat
      ensures id in s'.engrams <==> id in s.engrams
      ensures id in s.engrams ==> s'.engrams[id] == Touched(s.engrams[id], id in e.ids, now)
    {
      TouchAllEffect(s.engrams, e.ids, now, id);
    }
  }

  lemma {:induction false} WriteKeepsEngrams(s: State, events: seq<Event>, op: Op, now: nat, decay: nat -> real)
    requires EngramsAgree(s, events) && op.Write?
    ensures EngramsAgree(Step(s, op, now, decay).0, events + [Quiet])
  {
    HitsSnoc(events, Quiet);
    assert Hits(events, s.next) == 0;
  }

  lemma {:induction false} AccessKeepsEngrams(s: State, events: seq<Event>, id: nat, now: nat)
    requires EngramsAgree(s, events) && id in s.engrams
    ensures EngramsAgree(s.(engrams := Touch(s.engrams, id, now)), events + [Accessed(id)])
  {
    HitsSnoc(events, Accessed(id));
  }

  /** Changing one row's confidence or state keeps the counts. */
  lemma {:induction false} EditKeepsEngrams(s: State, events: seq<Event>, id: nat, e: Engram)
    requires EngramsAgree(s, events) && id in s.engrams && e.access == s.engrams[id].access &&
             0.0 <= e.confidence <= 1.0
    ensures EngramsAgree(s.(engrams := s.engrams[id := e]), events + [Quiet])
  {
    HitsSnoc(events, Quiet);
  }

  lemma {:induction false} StepKeepsEngrams(s: State, events: seq<Event>, op: Op, now: nat, decay: nat -> real)
    requires EngramsAgree(s, events) && Proper(op)
    ensures var (s', e) := Step(s, op, now, decay); EngramsAgree(s', events + [e])
  {
    HitsSnoc(events, Quiet);
    match op {
      case Activation(_, _, _, _) => ActivationKeepsEngrams(s, events, op, now, decay);
      case Write(_, _) => WriteKeepsEngrams(s, events, op, now, decay);
      case RecordAccess(vault, id) =>
        if Eligible(s.engrams, vault, id) {
          AccessKeepsEngrams(s, events, id, now);
        }
      case Reinforce(id, delta) =>
        if id in s.engrams {
          var e := s.engrams[id];
          EditKeepsEngrams(s, events, id, e.(confidence := Reinforced(e.confidence, delta)));
        }
      case Contradict(id) =>
        if id in s.engrams {
          var e := s.engrams[id];
          EditKeepsEngrams(s, events, id, e.(confidence := Doubted(e.confidence)));
        }
      case SoftDelete(vault, id) =>
        if Eligible(s.engrams, vault, id) {
          EditKeepsEngrams(s, events, id, s.engrams[id].(state := SOFT_DELETED));
        }
    }
  }

  /** Rows are never removed and never change vault. */
  lemma {:induction false} VaultsStay(s: State, op: Op, now: nat, decay: nat -> real, id: nat)
    requires id in s.engrams && id < s.next && Proper(op)
    ensures var s' := Step(s, op, now, decay).0; id in s'.engrams && s'.engrams[id].vault == s.engrams[id].vault
  {
    if op.Activation? {
      RecalledAre(s, op, now, decay);
      TouchAllEffect(s.engrams, Step(s, op, now, decay).1.ids, now, id);
    }
  }

  lemma {:induction false} ActivationLinks(s: State, events: seq<Event>, ids: seq<nat>, a: nat, b: nat)
    requires LinksAgree(s, events) && Distinct(ids)
    ensures Look(Rows(s.links, ids, |ids|), (a, b)) == Weight(Joint(events + [Recalled(ids)], a, b))
  {
    HitsSnoc(events, Recalled(ids));
    RowsEffect(s.links, ids, |ids|, (a, b));
    assert ids[..|ids|] == ids;
    WeightOnce(Joint(events, a, b));
  }

  lemma {:induction false} LinkStep(s: State, events: seq<Event>, op: Op, now: nat, decay: nat -> real, a: nat, b: nat)
    requires Inv(s, events) && Proper(op)
    ensures var (s', e) := Step(s, op, now, decay); Look(s'.links, (a, b)) == Weight(Joint(events + [e], a, b))
  {
    var (s', e) := Step(s, op, now, decay);
    if op.Activation? {
      RecalledAre(s, op, now, decay);
      ActivationLinks(s, events, e.ids, a, b);
    } else {
      HitsSnoc(events, e);
      assert s'.links == s.links;
    }
  }

  lemma {:induction false} VaultStep(s: State, events: seq<Event>, op: Op, now: nat, decay: nat -> real, a: nat, b: nat)
    requires Inv(s, events) && Proper(op)
    ensures var (s', e) := Step(s, op, now, decay); Joint(events + [e], a, b) > 0 ==> SameVault(s', a, b)
  {
    var (s', e) := Step(s, op, now, decay);
    HitsSnoc(events, e);
    if op.Activation? {
      RecalledAre(s, op, now, decay);
    }
    if Joint(events + [e], a, b) > 0 {
      assert SameVault(s, a, b);
      VaultsStay(s, op, now, decay, a);
      VaultsStay(s, op, now, decay, b);
    }
  }

  lemma {:induction false} StepKeepsInv(s: State, events: seq<Event>, op: Op, now: nat, decay: nat -> real)
    requires Inv(s, events) && Proper(op)
    ensures var (s', e) := Step(s, op, now, decay); Inv(s', events + [e])
  {
    StepKeepsEngrams(s, events, op, now, decay);
    var (s', e) := Step(s, op, now, decay);
    forall a: nat, b: nat
      ensures Look(s'.links, (a, b)) == Weight(Joint(events + [e], a, b))
    {
      LinkStep(s, events, op, now, decay, a, b);
    }
    forall a: nat, b: nat
      ensures Joint(events + [e], a, b) > 0 ==> SameVault(s', a, b)
    {
      VaultStep(s, events, op, now, decay, a, b);
    }
  }

  // ---------------------------------------------------------------- every run

  lemma {:induction false} RunKeepsInv(reqs: seq<Request>, decay: nat -> real)
    requires forall r <- reqs :: Proper(r.op)
    ensures var (s, events) := Run(reqs, decay); Inv(s, events)
    decreases reqs
  {
    if reqs != [] {
      var n := |reqs| - 1;
      RunKeepsInv(reqs[..n], decay);
      var (s, events) := Run(reqs[..n], decay);
      StepKeepsInv(s, events, reqs[n].op, reqs[n].now, decay);
    }
  }

  /** After any run the associations are exactly min(1, 0.02 k) for k joint activations, k counted per pair. */
  lemma {:induction false} HebbianTable(reqs: seq<Request>, decay: nat -> real, a: nat, b: nat)
    requires forall r <- reqs :: Proper(r.op)
    ensures var (s, events) := Run(reqs, decay);
      var k := Joint(events, a, b);
      && ((a, b) in s.links <==> k > 0)
      && (k > 0 ==> s.links[(a, b)] == if 0.02 * k as real < 1.0 then 0.02 * k as real else 1.0)
      && Look(s.links, (a, b)) == Look(s.links, (b, a))
      && ((a, b) in s.links ==> SameVault(s, a, b))
  {
    RunKeepsInv(reqs, decay);
    var (s, events) := Run(reqs, decay);
    JointSymmetric(events, a, b);
    assert Look(s.links, (a, b)) == Weight(Joint(events, a, b)) == Look(s.links, (b, a));
  }

  lemma {:induction false} JointSymmetric(events: seq<Event>, a: nat, b: nat)
    ensures Joint(events, a, b) == Joint(events, b, a)
    decreases events
  {
    if events != [] {
      JointSymmetric(events[..|events| - 1], a, b);
    }
  }

  /** Each engram's access count is the number of times it was shown, and its confidence a probability. */
  lemma {:induction false} AccessCounts(reqs: seq<Request>, decay: nat -> real, id: nat)
    requires forall r <- reqs :: Proper(r.op)
    ensures var (s, events) := Run(reqs, decay);
      id in s.engrams ==> s.engrams[id].access == Hits(events, id) && 0.0 <= s.engrams[id].confidence <= 1.0
  {
    RunKeepsInv(reqs, decay);
  }

  /** A negative reinforcement keeps confidence a probability only if it does not overdraw it. */
  // ---------------------------------------------------------------- one engram through a run

  function Least(x: real, y: real): real {
    if x <= y then x else y
  }

  /** What a step makes of one engram, given what the step showed. */
  function RowAfter(e: Engram, id: nat, op: Op, shown: Event, now: nat): Engram {
    if op.Contradict? && op.id == id then e.(confidence := e.confidence - Least(0.1, e.confidence))
    else if op.Reinforce? && op.id == id then e.(confidence := Least(1.0, e.confidence + op.delta))
    else if op.SoftDelete? && op.id == id && op.vault == e.vault then e.(state := 2)
    else if op.RecordAccess? && op.id == id && op.vault == e.vault then e.(access := e.access + 1, last := now)
    else if shown.Recalled? && id in shown.ids then e.(access := e.access + 1, last := now)
    else e
  }

  /**
   * A step changes an engram only as its own row says: a contradiction lowers confidence by 0.1 or to 0, a
   * reinforcement raises it up to 1, an access or a recall counts once and sets the time.
   */
  lemma {:induction false} StepOnRow(s: State, events: seq<Event>, op: Op, now: nat, decay: nat -> real, id: nat)
    requires EngramsAgree(s, events) && Proper(op) && id in s.engrams
    ensures var (s', shown) := Step(s, op, now, decay);
      id in s'.engrams && s'.engrams[id] == RowAfter(s.engrams[id], id, op, shown, now)
  {
    if op.Activation? {
      RecalledAre(s, op, now, decay);
      TouchAllEffect(s.engrams, Step(s, op, now, decay).1.ids, now, id);
    }
  }

  /** A new engram has confidence 0.8, no access, and the next id. */
  lemma {:induction false} WriteAdds(s: State, op: Op, now: nat, decay: nat -> real)
    requires op.Write?
    ensures var s' := Step(s, op, now, decay).0;
      && s'.next == s.next + 1 && s.next in s'.engrams
      && s'.engrams[s.next] == Engram(op.vault, op.content, 0.8, 0, now, 0)
  {
  }

  lemma {:induction false} ReinforcedStays(confidence: real, delta: real)
    requires 0.0 <= confidence <= 1.0
    ensures 0.0 <= Reinforced(confidence, delta) <= 1.0 <==> confidence + delta >= 0.0
  {
  }

  /**
   * A reinforcement by 0.1 undoes a contradiction unless that hit the floor, and the other way round for the
   * ceiling.
   */
  lemma {:induction false} ContradictionUndone(confidence: real)
    requires 0.0 <= confidence <= 1.0
    ensures Reinforced(Doubted(confidence), DOUBT) == confidence <==> confidence >= DOUBT
    ensures Doubted(Reinforced(confidence, DOUBT)) == confidence <==> confidence <= 1.0 - DOUBT
  {
  }

  lemma {:induction false} ScoresIgnoreState(t: Table, u: Table, vault: string, ids: seq<nat>, now: nat,
                                             decay: nat -> real)
    requires t.Keys == u.Keys && forall id :: id in t ==> u[id].(state := t[id].state) == t[id]
    ensures Scores(t, vault, ids, now, decay) == Scores(u, vault, ids, now, decay)
    decreases ids
  {
    if ids != [] {
      var id := ids[|ids| - 1];
      ScoresIgnoreState(t, u, vault, ids[..|ids| - 1], now, decay);
      assert id in t ==> Score(t[id], now, decay) == Score(u[id], now, decay);
    }
  }

  /** With text matches the state of a row plays no part: soft deletion does not change what is recalled. */
  lemma {:induction false} DeletionIsIgnored(s: State, vault: string, id: nat, earlier: nat, op: Op, now: nat,
                                             decay: nat -> real)
    requires op.Activation? && op.matches != []
    ensures Step(Step(s, SoftDelete(vault, id), earlier, decay).0, op, now, decay).1 == Step(s, op, now, decay).1
  {
    var deleted := Step(s, SoftDelete(vault, id), earlier, decay).0;
    ScoresIgnoreState(s.engrams, deleted.engrams, op.vault, Candidates(s.engrams, op.vault, op.matches,
        op.listing), now, decay);
  }

  /** Without text matches only current engrams are recalled, so no deleted one is. */
  lemma {:induction false} FallbackRecallsCurrent(s: State, op: Op, now: nat, decay: nat -> real, id: nat)
    requires op.Activation? && op.matches == [] && id in Step(s, op, now, decay).1.ids
    ensures id in s.engrams && (s.engrams[id].state == 0 || s.engrams[id].state == 4)
  {
    var candidates := Candidates(s.engrams, op.vault, op.matches, op.listing);
    var ids := Recall(s.engrams, op.vault, candidates, op.top, now, decay);
    var i :| 0 <= i < |ids| && ids[i] == id;
    RecallIsFromVault(s.engrams, op.vault, candidates, op.top, now, decay, i);
    ListedAre(s.engrams, op.vault, op.listing, id);
    assert candidates <= Listed(s.engrams, op.vault, op.listing);
  }

  /**
   * With at most 256 current engrams in the vault, the fallback recalls the top_n of all of them: an engram is
   * recalled exactly if it is one of them and fewer than top_n of them rank above it.
   */
  lemma {:induction false} FallbackRecallsTop(s: State, op: Op, now: nat, decay: nat -> real, id: nat)
    requires op.Activation? && Proper(op) && op.matches == [] && id in s.engrams
    requires |CurrentOf(s.engrams, op.vault)| <= 256
    requires forall i <- CurrentOf(s.engrams, op.vault) :: i in op.listing
    ensures var all := Candidates(s.engrams, op.vault, [], op.listing);
      && (forall i :: i in all <==> i in CurrentOf(s.engrams, op.vault))
      && (id in Step(s, op, now, decay).1.ids <==>
          id in CurrentOf(s.engrams, op.vault) && |Above(s.engrams, op.vault, all, now, decay, id)| < TopN(op.top))
  {
    var all := Candidates(s.engrams, op.vault, [], op.listing);
    AllAreCandidates(s.engrams, op.vault, op.listing);
    if id in CurrentOf(s.engrams, op.vault) {
      RecalledIff(s.engrams, op.vault, all, op.top, now, decay, id);
    } else if id in Recall(s.engrams, op.vault, all, op.top, now, decay) {
      var ids := Recall(s.engrams, op.vault, all, op.top, now, decay);
      var i :| 0 <= i < |ids| && ids[i] == id;
      RecallIsFromVault(s.engrams, op.vault, all, op.top, now, decay, i);
    }
  }

  /**
   * Exactly when an engram that is not current, a soft-deleted one say, is recalled: its text is among the
   * first 256 matches, it is in the vault asked for, and fewer than top_n of those matches rank above it.
   */
  lemma {:induction false} DeletedRecalledIff(s: State, op: Op, now: nat, decay: nat -> real, id: nat)
    requires op.Activation? && Proper(op) && id in s.engrams
    requires s.engrams[id].state != 0 && s.engrams[id].state != 4
    ensures var m := op.matches[..Min(256, |op.matches|)];
      id in Step(s, op, now, decay).1.ids <==>
      id in m && Eligible(s.engrams, op.vault, id) && |Above(s.engrams, op.vault, m, now, decay, id)| < TopN(op.top)
  {
    var m := op.matches[..Min(256, |op.matches|)];
    var ids := Step(s, op, now, decay).1.ids;
    if op.matches == [] {
      if id in ids {
        FallbackRecallsCurrent(s, op, now, decay, id);
      }
    } else {
      assert Candidates(s.engrams, op.vault, op.matches, op.listing) == m;
      if id in ids {
        var i :| 0 <= i < |ids| && ids[i] == id;
        RecallIsFromVault(s.engrams, op.vault, m, op.top, now, decay, i);
      }
      if id in m && Eligible(s.engrams, op.vault, id) {
        RecalledIff(s.engrams, op.vault, m, op.top, now, decay, id);
      }
    }
  }
}
