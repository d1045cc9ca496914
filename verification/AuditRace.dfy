/**
 * The audit log as threads share it (src/security/security.c): security_audit_log takes no lock, and the
 * gateway's threads call it. A call is three steps here: it makes room and reads the count, it fills and seals
 * its slot, it raises the count.
 */
module AuditRace {
  import opened Basics
  import opened CText
  import opened Audit

  /** How far a call has come: the slot it took, and whether it is filled. */
  datatype Place = Place(slot: nat, filled: bool)

  datatype State = State(slots: seq<Entry>, count: nat, calls: map<nat, Place>)

  const BLANK := Entry("", "", 0, false, "", "")

  datatype Step =
    | Claim(thread: nat)
    | Fill(thread: nat, action: string, target: string, time: nat, allowed: bool)
    | Bump(thread: nat)
    | Clear

  ghost predicate Proper(s: State) {
    |s.slots| == MAX_ENTRIES && forall t <- s.calls :: s.calls[t].slot < MAX_ENTRIES
  }

  /** The memmove of a full log. */
  function Slid(s: State): State
    requires |s.slots| == MAX_ENTRIES
  {
    if s.count >= MAX_ENTRIES then
      s.(slots := s.slots[1..] + [s.slots[MAX_ENTRIES - 1]], count := MAX_ENTRIES - 1)
    else s
  }

  /** One step; a thread that is not at that step does nothing. */
  ghost function Apply(s: State, e: Step): (s': State)
    requires Proper(s)
    ensures Proper(s')
  {
    match e
    case Claim(t) =>
      if t in s.calls then s
      else var r := Slid(s); r.(calls := s.calls[t := Place(r.count, false)])
    case Fill(t, action, target, time, allowed) =>
      if t !in s.calls || s.calls[t].filled then s
      else
        var i := s.calls[t].slot;
        s.(slots := s.slots[i := NewEntry(s.slots[..i], action, target, time, allowed)],
           calls := s.calls[t := Place(i, true)])
    case Bump(t) =>
      if t !in s.calls || !s.calls[t].filled then s
      else s.(count := s.count + 1, calls := s.calls - {t})
    case Clear => s.(count := 0)
  }

  ghost function Start(): State {
    State(Blanks(MAX_ENTRIES), 0, map[])
  }

  function Blanks(n: nat): (s: seq<Entry>)
    ensures |s| == n && forall i :: 0 <= i < n ==> s[i] == BLANK
  {
    seq(n, _ => BLANK)
  }

  ghost function Exec(steps: seq<Step>): (s: State)
    ensures Proper(s)
  {
    if steps == [] then Start()
    else
      var n := |steps| - 1;
      Apply(Exec(steps[..n]), steps[n])
  }

  /** The step begins a call, or clears the log, while another call is under way. */
  predicate Overlaps(s: State, e: Step) {
    ((e.Claim? && e.thread !in s.calls) || e.Clear?) && s.calls != map[]
  }

  /** No call begins, and the log is not cleared, while a call is under way. */
  ghost predicate NoOverlap(steps: seq<Step>) {
    steps == [] ||
    (NoOverlap(steps[..|steps| - 1]) && !Overlaps(Exec(steps[..|steps| - 1]), steps[|steps| - 1]))
  }

  ghost predicate Clocked(steps: seq<Step>) {
    forall e <- steps :: e.Fill? ==> e.time < W64
  }

  // ---------------------------------------------------------------- one call at a time

  /** What readers of the log see. */
  ghost function Contents(s: State): seq<Entry>
    requires s.count <= |s.slots|
  {
    s.slots[..s.count]
  }

  /** At most one call, which holds the slot behind the contents; once filled, that continues the chain. */
  ghost predicate Single(s: State) {
    && |s.slots| == MAX_ENTRIES && s.count <= MAX_ENTRIES && Chain(Contents(s))
    && (forall t, u :: t in s.calls && u in s.calls ==> t == u)
    && (forall t <- s.calls :: s.calls[t].slot == s.count < MAX_ENTRIES)
    && (forall t <- s.calls :: s.calls[t].filled ==> Chain(s.slots[..s.count + 1]))
  }

  lemma {:induction false} ClaimKeeps(s: State, t: nat)
    requires Single(s) && Proper(s) && !Overlaps(s, Claim(t))
    ensures Single(Apply(s, Claim(t)))
  {
    if t !in s.calls {
      KeptChain(Contents(s));
      var r := Slid(s);
      assert Contents(r) == Kept(Contents(s));
    }
  }

  lemma {:induction false} FillKeeps(s: State, e: Step)
    requires Single(s) && Proper(s) && e.Fill? && e.time < W64
    ensures Single(Apply(s, e))
  {
    if e.thread in s.calls && !s.calls[e.thread].filled {
      var s' := Apply(s, e);
      var i := s.count;
      assert Contents(s') == Contents(s);
      assert s'.slots[..i + 1] == Contents(s) + [NewEntry(Contents(s), e.action, e.target, e.time, e.allowed)];
      LoggedKeepsChain(Contents(s), e.action, e.target, e.time, e.allowed);
    }
  }

  lemma {:induction false} StepKeepsSingle(s: State, e: Step)
    requires Single(s) && Proper(s) && !Overlaps(s, e) && (e.Fill? ==> e.time < W64)
    ensures Single(Apply(s, e))
  {
    match e {
      case Claim(t) => ClaimKeeps(s, t);
      case Fill(_, _, _, _, _) => FillKeeps(s, e);
      case Bump(t) =>
      case Clear => assert s.slots[..0] == [];
    }
  }

  /** The chain holds at every point of every run in which no two calls overlap. */
  lemma {:induction false} SingleKeepsChain(steps: seq<Step>)
    requires NoOverlap(steps) && Clocked(steps)
    ensures Single(Exec(steps)) && Chain(Contents(Exec(steps)))
    decreases |steps|
  {
    if steps == [] {
      assert Start().slots[..0] == [];
    } else {
      var n := |steps| - 1;
      assert forall e <- steps[..n] :: e in steps;
      assert steps[n] in steps;
      SingleKeepsChain(steps[..n]);
      StepKeepsSingle(Exec(steps[..n]), steps[n]);
    }
  }

  /** One whole call by itself logs its entry. */
  lemma {:induction false} CallLogs(s: State, t: nat, e: Step)
    requires Single(s) && Proper(s) && s.calls == map[] && e.Fill? && e.thread == t && e.time < W64
    ensures var s' := Apply(Apply(Apply(s, Claim(t)), e), Bump(t));
      && s'.count <= |s'.slots| && s'.calls == map[]
      && Contents(s') == Logged(Contents(s), e.action, e.target, e.time, e.allowed)
  {
    var r := Apply(s, Claim(t));
    assert Contents(Slid(s)) == Kept(Contents(s));
    var f := Apply(r, e);
    assert f.slots[..r.count + 1] == Contents(r) + [NewEntry(Contents(r), e.action, e.target, e.time, e.allowed)];
  }

  // ---------------------------------------------------------------- overlapping calls

  /** The step takes a slot. */
  predicate Begins(s: State, e: Step) {
    e.Claim? && e.thread !in s.calls
  }

  /** How many calls have begun. */
  ghost function Begun(steps: seq<Step>): nat {
    if steps == [] then 0
    else
      var n := |steps| - 1;
      Begun(steps[..n]) + if Begins(Exec(steps[..n]), steps[n]) then 1 else 0
  }

  /** The slots they took, while the log has not slid. */
  ghost function Taken(steps: seq<Step>): set<nat> {
    if steps == [] then {}
    else
      var n := |steps| - 1;
      Taken(steps[..n]) + if Begins(Exec(steps[..n]), steps[n]) then {Exec(steps[..n]).count} else {}
  }

  function UpTo(n: nat): (s: set<nat>)
    ensures |s| == n && forall i: nat :: i in s <==> i < n
  {
    if n == 0 then {} else UpTo(n - 1) + {n - 1}
  }

  /** No clear, and no more calls than the log has slots. */
  ghost predicate Short(steps: seq<Step>) {
    Begun(steps) <= MAX_ENTRIES && forall e <- steps :: !e.Clear?
  }

  lemma {:induction false} ShortPrefix(steps: seq<Step>)
    requires Short(steps) && steps != []
    ensures Short(steps[..|steps| - 1])
  {
    assert forall e <- steps[..|steps| - 1] :: e in steps;
  }

  /** Calls begun are calls counted and calls under way. */
  lemma {:induction false} CountIs(steps: seq<Step>)
    requires Short(steps)
    ensures Exec(steps).count + |Exec(steps).calls| == Begun(steps)
    decreases |steps|
  {
    if steps != [] {
      var n := |steps| - 1;
      ShortPrefix(steps);
      CountIs(steps[..n]);
      assert steps[n] in steps;
      CountStep(Exec(steps[..n]), steps[n]);
    }
  }

  lemma {:induction false} CountStep(s: State, e: Step)
    requires Proper(s) && !e.Clear? && (Begins(s, e) ==> s.count < MAX_ENTRIES)
    ensures var s' := Apply(s, e);
      s'.count + |s'.calls| == s.count + |s.calls| + if Begins(s, e) then 1 else 0
  {
    var s' := Apply(s, e);
    if e.Bump? && e.thread in s.calls && s.calls[e.thread].filled {
      assert s.calls == s'.calls[e.thread := s.calls[e.thread]];
    } else if e.Fill? && e.thread in s.calls {
      assert s'.calls.Keys == s.calls.Keys;
      assert |s'.calls| == |s'.calls.Keys| && |s.calls| == |s.calls.Keys|;
    }
  }

  /** A slot that no call took is blank, and a call under way has taken its slot. */
  ghost predicate Untouched(s: State, taken: set<nat>) {
    && |s.slots| == MAX_ENTRIES
    && (forall i :: 0 <= i < MAX_ENTRIES && i !in taken ==> s.slots[i] == BLANK)
    && (forall t <- s.calls :: s.calls[t].slot in taken)
  }

  lemma {:induction false} UntouchedStep(s: State, e: Step, taken: set<nat>)
    requires Proper(s) && Untouched(s, taken) && !e.Clear? && (Begins(s, e) ==> s.count < MAX_ENTRIES)
    ensures Untouched(Apply(s, e), taken + if Begins(s, e) then {s.count} else {})
  {
  }

  lemma {:induction false} TakenOnly(steps: seq<Step>)
    requires Short(steps)
    ensures Untouched(Exec(steps), Taken(steps))
    decreases |steps|
  {
    if steps != [] {
      var n := |steps| - 1;
      ShortPrefix(steps);
      TakenOnly(steps[..n]);
      CountIs(steps[..n]);
      assert steps[n] in steps;
      UntouchedStep(Exec(steps[..n]), steps[n], Taken(steps[..n]));
    }
  }

  /** Calls that do not overlap take one slot each; as soon as two do, fewer slots than calls are taken. */
  ghost predicate Tally(steps: seq<Step>) {
    if NoOverlap(steps) then Taken(steps) == UpTo(Begun(steps)) else |Taken(steps)| < Begun(steps)
  }

  lemma {:induction false} TakenTally(steps: seq<Step>)
    requires Short(steps)
    ensures Tally(steps)
    decreases |steps|
  {
    if steps != [] {
      var n := |steps| - 1;
      var s := Exec(steps[..n]);
      ShortPrefix(steps);
      TakenTally(steps[..n]);
      CountIs(steps[..n]);
      assert steps[n] in steps;
      assert s.calls == map[] <==> |s.calls| == 0;
      TallyStep(steps);
    } else {
      assert UpTo(0) == {};
    }
  }

  lemma {:induction false} TallyStep(steps: seq<Step>)
    requires steps != [] && Tally(steps[..|steps| - 1]) && !steps[|steps| - 1].Clear?
    requires var s := Exec(steps[..|steps| - 1]);
      && s.count + |s.calls| == Begun(steps[..|steps| - 1])
      && (s.calls == map[] <==> |s.calls| == 0)
    ensures Tally(steps)
  {
    var before := steps[..|steps| - 1];
    var s, e := Exec(before), steps[|steps| - 1];
    if Begins(s, e) {
      if NoOverlap(before) {
        TakeOneMore(Taken(before), s.count, Begun(before));
      }
      assert |Taken(before) + {s.count}| <= |Taken(before)| + 1;
    } else {
      assert Taken(before) + {} == Taken(before);
    }
  }

  lemma {:induction false} TakeOneMore(taken: set<nat>, slot: nat, n: nat)
    requires taken == UpTo(n) && slot <= n
    ensures slot == n ==> taken + {slot} == UpTo(n + 1)
    ensures slot < n ==> taken + {slot} == taken && |taken| < n + 1
  {
  }

  /** Fewer taken slots than calls leave one of them free. */
  lemma {:induction false} SomeFree(taken: set<nat>, n: nat) returns (i: nat)
    requires |taken| < n
    ensures i < n && i !in taken
  {
    if UpTo(n) <= taken {
      SubsetSize(UpTo(n), taken);
      assert false;
    }
    i :| i in UpTo(n) && i !in taken;
  }

  lemma {:induction false} SubsetSize(a: set<nat>, b: set<nat>)
    requires a <= b
    ensures |a| <= |b|
    decreases |a|
  {
    if a != {} {
      var x :| x in a;
      SubsetSize(a - {x}, b - {x});
    }
  }

  lemma {:induction false} BlankIsUnsealed()
    ensures !Sealed(BLANK)
  {
  }

  lemma {:induction false} OverlapLeavesGap(steps: seq<Step>)
    requires Short(steps) && !NoOverlap(steps) && Exec(steps).calls == map[]
    ensures Exec(steps).count <= |Exec(steps).slots| && !Chain(Contents(Exec(steps)))
  {
    var s := Exec(steps);
    CountIs(steps);
    TakenOnly(steps);
    TakenTally(steps);
    var i := SomeFree(Taken(steps), Begun(steps));
    BlankIsUnsealed();
    assert Contents(s)[i] == BLANK;
  }

  /**
   * Once all calls are over, a log that was never full nor cleared is a chain exactly if no two of the calls
   * overlapped.
   */
  lemma {:induction false} ChainIffNoOverlap(steps: seq<Step>)
    requires Short(steps) && Clocked(steps) && Exec(steps).calls == map[]
    ensures Exec(steps).count == Begun(steps) <= MAX_ENTRIES
    ensures Chain(Contents(Exec(steps))) <==> NoOverlap(steps)
  {
    CountIs(steps);
    if NoOverlap(steps) {
      SingleKeepsChain(steps);
    } else {
      OverlapLeavesGap(steps);
    }
  }

  /** Two calls side by side: both take their slot before either raises the count. */
  ghost function Race(s: State, e: Step, f: Step): State
    requires Proper(s) && e.Fill? && f.Fill?
  {
    var claimed := Apply(Apply(s, Claim(e.thread)), Claim(f.thread));
    Apply(Apply(Apply(Apply(claimed, e), f), Bump(e.thread)), Bump(f.thread))
  }

  /**
   * The second call's entry replaces the first one's, and the count moves past a slot that neither filled; with
   * one free slot left it moves past the end of the table.
   */
  lemma {:induction false} RaceLeavesGap(s: State, e: Step, f: Step)
    requires Proper(s) && s.calls == map[] && s.count < MAX_ENTRIES
    requires e.Fill? && f.Fill? && e.thread != f.thread
    ensures var s' := Race(s, e, f);
      && s'.calls == map[] && s'.count == s.count + 2
      && s'.slots == s.slots[s.count := NewEntry(s.slots[..s.count], f.action, f.target, f.time, f.allowed)]
  {
    var claimed := Apply(Apply(s, Claim(e.thread)), Claim(f.thread));
    assert claimed == s.(calls := map[e.thread := Place(s.count, false), f.thread := Place(s.count, false)]);
    var first := Apply(claimed, e);
    assert first.slots[..s.count] == s.slots[..s.count];
  }

  lemma {:induction false} GapIsNoChain(s: State, blanks: seq<Entry>, e: Entry)
    requires s.count == 2 && |blanks| == MAX_ENTRIES && blanks[1] == BLANK && s.slots == blanks[0 := e]
    ensures !Chain(Contents(s))
  {
    BlankIsUnsealed();
    assert Contents(s)[1] == BLANK;
  }

  /** From program start on, that is no chain. */
  lemma {:induction false} RaceBreaksChain(e: Step, f: Step)
    requires e.Fill? && f.Fill? && e.thread != f.thread
    ensures var s := Race(Start(), e, f);
      s.count == 2 && |s.slots| == MAX_ENTRIES && !Chain(Contents(s))
  {
    RaceLeavesGap(Start(), e, f);
    var entry := NewEntry(Start().slots[..0], f.action, f.target, f.time, f.allowed);
    GapIsNoChain(Race(Start(), e, f), Start().slots, entry);
  }
}
