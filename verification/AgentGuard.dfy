/**
 * The loop guard behind the verdicts of a turn (src/agent/agent.c, src/loop_guard/loop_guard.c): the turn
 * resets it and puts its calls to it one by one, and other turns use it in between.
 */
module AgentGuard {
  import opened Basics
  import opened CText
  import opened LoopGuard
  import opened GuardSharing
  import opened AgentLoop

  /** What other turns do to the guard before each check of the turn, counted from its reset. */
  type Others = nat -> seq<Op>

  /** The guard's record after the turn reset it and put `calls` to it. */
  function Guarded(others: Others, calls: seq<AgentLoop.Call>): Record {
    if calls == [] then BLANK
    else
      var n := |calls| - 1;
      Apply(Played(Guarded(others, calls[..n]), others(n)), GuardSharing.Call(calls[n].name))
  }

  /** The last of `calls` is refused. */
  predicate Refuses(others: Others, calls: seq<AgentLoop.Call>) {
    Guarded(others, calls).tripped
  }

  function Names(calls: seq<AgentLoop.Call>): (names: seq<string>)
    ensures |names| == |calls|
  {
    if calls == [] then [] else Names(calls[..|calls| - 1]) + [Tag(calls[|calls| - 1].name)]
  }

  /** Call number `i` is let through. */
  predicate Lets(others: Others, calls: seq<AgentLoop.Call>, i: nat) {
    i < |calls| && !Refuses(others, calls[..i + 1])
  }

  /** All of `calls` are let through. */
  ghost predicate AllPass(others: Others, calls: seq<AgentLoop.Call>) {
    calls == [] || (AllPass(others, calls[..|calls| - 1]) && !Refuses(others, calls))
  }

  /** The verdicts of the turn that starts at reply `from` are the guard's. */
  ghost predicate Speaks(w: World, from: nat, others: Others) {
    Says(w, from, others, Offered(w, from, MAX_ITERATIONS))
  }

  ghost predicate Says(w: World, from: nat, others: Others, all: seq<AgentLoop.Call>) {
    forall i :: 0 <= i < |all| ==> w.pass(from, i) == Lets(others, all, i)
  }

  // ---------------------------------------------------------------- the guard itself

  lemma {:induction false} GuardedSnoc(others: Others, calls: seq<AgentLoop.Call>, i: nat)
    requires i < |calls|
    ensures Guarded(others, calls[..i + 1]) ==
            Apply(Played(Guarded(others, calls[..i]), others(i)), GuardSharing.Call(calls[i].name))
  {
    assert calls[..i + 1][..i] == calls[..i];
  }

  /** Call number `i`: the guard as the check finds it, and its verdict. */
  method Consult(g: Guard, calls: seq<AgentLoop.Call>, i: nat, others: Others) returns (ok: bool)
    requires g.Valid() && i < |calls| && Seen(g) == Guarded(others, calls[..i])
    modifies g, g.slots
    ensures g.Valid() && Seen(g) == Guarded(others, calls[..i + 1]) && ok == !Refuses(others, calls[..i + 1])
  {
    GuardedSnoc(others, calls, i);
    Disturb(g, others(i));
    ok := Touch(g, GuardSharing.Call(calls[i].name));
  }

  /**
   * The guard's part of a turn: `n` calls pass, and the next one, if there is one, is refused. The reason is
   * read after the refusal, when another turn may have cleared it.
   */
  method PutToGuard(g: Guard, calls: seq<AgentLoop.Call>, others: Others) returns (n: nat, reason: Reason)
    requires g.Valid()
    modifies g, g.slots
    ensures g.Valid() && n <= |calls|
    ensures AllPass(others, calls[..n]) && (n < |calls| ==> Refuses(others, calls[..n + 1]))
    ensures n < |calls| ==> reason == Played(Guarded(others, calls[..n + 1]), others(n + 1)).reason
  {
    g.Reset();
    n := 0;
    while n < |calls|
      invariant 0 <= n <= |calls| && g.Valid() && Seen(g) == Guarded(others, calls[..n])
      invariant AllPass(others, calls[..n])
    {
      var ok := Consult(g, calls, n, others);
      if !ok {
        Disturb(g, others(n + 1));
        reason := g.reason;
        return;
      }
      assert calls[..n + 1][..n] == calls[..n];
      n := n + 1;
    }
    reason := NoReason;
  }

  // ---------------------------------------------------------------- the guard's turns

  lemma {:induction false} AllPassSnoc(others: Others, calls: seq<AgentLoop.Call>, i: nat)
    requires i < |calls|
    ensures AllPass(others, calls[..i + 1]) <==> AllPass(others, calls[..i]) && Lets(others, calls, i)
  {
    assert calls[..i + 1][..i] == calls[..i];
  }

  lemma {:induction false} AllPassAt(others: Others, calls: seq<AgentLoop.Call>, n: nat, i: nat)
    requires n <= |calls| && AllPass(others, calls[..n]) && i < n
    ensures Lets(others, calls, i)
    decreases n
  {
    AllPassSnoc(others, calls, n - 1);
    if i < n - 1 {
      AllPassAt(others, calls, n - 1, i);
    }
  }

  lemma {:induction false} PassedHave(w: World, from: nat, others: Others, all: seq<AgentLoop.Call>, n: nat)
    requires Says(w, from, others, all) && n <= |all| && AllPass(others, all[..n])
    ensures Passed(w, from, n)
  {
    forall i | 0 <= i < n
      ensures w.pass(from, i)
    {
      AllPassAt(others, all, n, i);
    }
  }

  lemma {:induction false} PassedAre(w: World, from: nat, others: Others, all: seq<AgentLoop.Call>, n: nat)
    requires Says(w, from, others, all) && n <= |all| && Passed(w, from, n)
    ensures AllPass(others, all[..n])
    decreases n
  {
    if n > 0 {
      PassedAre(w, from, others, all, n - 1);
      assert w.pass(from, n - 1);
      AllPassSnoc(others, all, n - 1);
    }
  }

  /** The calls put to the guard in a turn that a refusal ended. */
  function Checked(w: World, from: nat, t: Trace): (calls: seq<AgentLoop.Call>)
    requires |t.executed| < |Offered(w, from, t.asked)|
  {
    Offered(w, from, t.asked)[..|t.executed| + 1]
  }

  lemma {:induction false} RefusedIs(w: World, from: nat, others: Others, t: Trace)
    requires Speaks(w, from, others) && Shape(w, from, t) && t.outcome.Tripped?
    ensures |t.executed| < |Offered(w, from, t.asked)|
    ensures w.pass(from, |t.executed|) == !Refuses(others, Checked(w, from, t))
  {
    OfferedGrows(w, from, t.asked, MAX_ITERATIONS);
    assert Checked(w, from, t) == Offered(w, from, MAX_ITERATIONS)[..|t.executed| + 1];
    assert w.pass(from, |t.executed|) == Lets(others, Offered(w, from, MAX_ITERATIONS), |t.executed|);
  }

  /** With the guard behind the verdicts, a turn runs the calls that the guard lets through, up to a refusal. */
  lemma {:induction false} TurnIsGuarded(w: World, from: nat, others: Others, t: Trace)
    requires Speaks(w, from, others) && Shape(w, from, t)
    ensures Turn(w, from, t) <==>
            && AllPass(others, t.executed)
            && (t.outcome.Tripped? ==> Refuses(others, Checked(w, from, t)))
  {
    ExecutedIsPrefix(w, from, t);
    var all := Offered(w, from, MAX_ITERATIONS);
    if AllPass(others, all[..|t.executed|]) {
      PassedHave(w, from, others, all, |t.executed|);
    } else if Passed(w, from, |t.executed|) {
      PassedAre(w, from, others, all, |t.executed|);
    }
    assert Offered(w, from, MAX_ITERATIONS)[..|t.executed|] == t.executed;
    if t.outcome.Tripped? {
      RefusedIs(w, from, others, t);
    }
  }

  lemma {:induction false} OfferedSame(w: World, v: World, from: nat, k: nat)
    requires w.reply == v.reply
    ensures Offered(w, from, k) == Offered(v, from, k)
    decreases k
  {
    if k > 0 {
      OfferedSame(w, v, from, k - 1);
    }
  }

  /** Any interference with the guard gives some verdicts, for any replies. */
  lemma {:induction false} SomeVerdicts(w: World, from: nat, others: Others) returns (v: World)
    ensures v == w.(pass := v.pass) && Speaks(v, from, others)
  {
    var all := Offered(w, from, MAX_ITERATIONS);
    v := w.(pass := (f: nat, i: nat) => Lets(others, all, i));
    OfferedSame(w, v, from, MAX_ITERATIONS);
  }

  // ---------------------------------------------------------------- undisturbed

  /** Between the turn's first check and its last nobody else uses the guard. */
  ghost predicate Undisturbed(others: Others) {
    forall i :: i > 0 ==> others(i) == []
  }

  lemma {:induction false} PassingCheck(g: Record, name: string)
    requires !Apply(g, GuardSharing.Call(name)).tripped
    ensures !g.tripped && Apply(g, GuardSharing.Call(name)).calls == g.calls + [Tag(name)]
  {
  }

  /** Then the guard's record is what it was before the first check, and the turn's own calls. */
  lemma {:induction false} RecordGrows(others: Others, calls: seq<AgentLoop.Call>)
    requires Undisturbed(others) && AllPass(others, calls) && calls != []
    ensures !Guarded(others, calls).tripped
    ensures Guarded(others, calls).calls == Played(BLANK, others(0)).calls + Names(calls)
    decreases |calls|
  {
    var n := |calls| - 1;
    var head := Played(BLANK, others(0)).calls;
    PassingCheck(Played(Guarded(others, calls[..n]), others(n)), calls[n].name);
    if n > 0 {
      RecordGrows(others, calls[..n]);
      assert head + Names(calls[..n]) + [Tag(calls[n].name)] == head + Names(calls);
    } else {
      assert Names(calls) == [Tag(calls[0].name)];
    }
  }

  lemma {:induction false} GuardedIsSound(others: Others, calls: seq<AgentLoop.Call>)
    ensures Sound(Guarded(others, calls))
    decreases |calls|
  {
    if calls != [] {
      var n := |calls| - 1;
      GuardedIsSound(others, calls[..n]);
      PlayedKeepsSound(Guarded(others, calls[..n]), others(n));
      ApplyKeepsSound(Played(Guarded(others, calls[..n]), others(n)), GuardSharing.Call(calls[n].name));
    }
  }

  lemma {:induction false} PassedCallsNeverLoop(others: Others, calls: seq<AgentLoop.Call>, i: nat)
    requires Undisturbed(others) && AllPass(others, calls)
    ensures !FiveInARow(Names(calls), i) && !Alternates(Names(calls), i, 11)
  {
    if calls != [] {
      RecordGrows(others, calls);
      GuardedIsSound(others, calls);
      TailInherits(Played(BLANK, others(0)).calls, Names(calls), i);
    }
  }

  /** The tools of a turn form no loop if no other turn uses the guard between its first and last check. */
  lemma {:induction false} UndisturbedTurnNeverLoops(w: World, from: nat, others: Others, t: Trace, i: nat)
    requires Speaks(w, from, others) && Undisturbed(others) && Turn(w, from, t)
    ensures !FiveInARow(Names(t.executed), i) && !Alternates(Names(t.executed), i, 11)
  {
    TurnIsGuarded(w, from, others, t);
    PassedCallsNeverLoop(others, t.executed, i);
  }

  // ---------------------------------------------------------------- alone

  /** The turn has the guard to itself. */
  ghost predicate Alone(others: Others) {
    forall i :: others(i) == []
  }

  lemma {:induction false} OwnVerdict(others: Others, calls: seq<AgentLoop.Call>)
    requires Alone(others) && calls != [] && AllPass(others, calls[..|calls| - 1])
    ensures Refuses(others, calls) <==> Trips(Names(calls))
  {
    var n := |calls| - 1;
    var g := Guarded(others, calls[..n]);
    assert others(n) == [];
    if n > 0 {
      RecordGrows(others, calls[..n]);
    }
    assert g.calls == Names(calls[..n]) && !g.tripped by {
      assert others(0) == [];
    }
    assert g.calls + [Tag(calls[n].name)] == Names(calls);
  }

  lemma {:induction false} OwnRule(others: Others, calls: seq<AgentLoop.Call>)
    requires Alone(others)
    ensures AllPass(others, calls) <==> LetThrough(Names(calls))
    decreases |calls|
  {
    if calls != [] {
      var n := |calls| - 1;
      OwnRule(others, calls[..n]);
      if LetThrough(Names(calls)) {
        LetThroughPrefix(Names(calls), n);
      }
      assert Names(calls)[..n] == Names(calls[..n]);
      if AllPass(others, calls[..n]) {
        OwnVerdict(others, calls);
        LetThroughSnoc(Names(calls[..n]), Tag(calls[n].name));
      }
    }
  }

  lemma {:induction false} LetThroughPrefix(h: seq<string>, n: nat)
    requires LetThrough(h) && n <= |h|
    ensures LetThrough(h[..n])
  {
    forall k | 0 < k <= n
      ensures Passes(h[..n], k)
    {
      assert Passes(h, k);
      PassesPrefix(h, k);
      PassesPrefix(h[..n], k);
      assert h[..n][..k] == h[..k];
    }
  }

  lemma {:induction false} OwnRefusal(others: Others, before: seq<AgentLoop.Call>, calls: seq<AgentLoop.Call>)
    requires Alone(others) && before < calls && |calls| == |before| + 1
    ensures AllPass(others, before) ==> (Refuses(others, calls) <==> Trips(Names(calls)))
  {
    assert calls[..|before|] == before;
    if AllPass(others, before) {
      OwnVerdict(others, calls);
    }
  }

  /** Then the replies alone fix the turn: its calls pass by the guard's rule on their own names. */
  lemma {:induction false} TurnAlone(w: World, from: nat, others: Others, t: Trace)
    requires Speaks(w, from, others) && Alone(others) && Shape(w, from, t)
    ensures Turn(w, from, t) <==>
            && LetThrough(Names(t.executed))
            && (t.outcome.Tripped? ==> Trips(Names(Checked(w, from, t))))
  {
    TurnIsGuarded(w, from, others, t);
    OwnRule(others, t.executed);
    if t.outcome.Tripped? {
      OwnRefusal(others, t.executed, Checked(w, from, t));
    }
  }

  // ---------------------------------------------------------------- disturbed

  /** Another turn starts before every check. */
  function Restarts(): Others {
    i => [Op.Start]
  }

  lemma {:induction false} RestartsPassAll(calls: seq<AgentLoop.Call>)
    ensures !Refuses(Restarts(), calls)
  {
    if calls != [] {
      var n := |calls| - 1;
      assert [Op.Start][..0] == [];
      assert Played(Guarded(Restarts(), calls[..n]), [Op.Start]) == BLANK;
      FewPass([] + [Tag(calls[n].name)]);
    }
  }

  /** A provider that asks for `c` sixteen times in every reply. */
  function Insists(c: AgentLoop.Call): Reply {
    Reply("again", seq(MAX_TOOL_CALLS, i => c))
  }

  lemma {:induction false} InsistsOffers(w: World, from: nat, c: AgentLoop.Call, k: nat)
    requires forall n :: w.reply(n) == Insists(c)
    ensures AllCalling(w, from, k) && |Offered(w, from, k)| == MAX_TOOL_CALLS * k
    ensures forall i :: 0 <= i < |Offered(w, from, k)| ==> Offered(w, from, k)[i] == c
    decreases k
  {
    if k > 0 {
      InsistsOffers(w, from, c, k - 1);
    }
  }

  /** If other turns start often enough, eight hundred equal calls in a row pass the guard. */
  lemma {:induction false} RestartsDefeatGuard(w: World, from: nat, c: AgentLoop.Call, t: Trace)
    requires w.hasKey && Speaks(w, from, Restarts()) && forall n :: w.reply(n) == Insists(c)
    requires Turn(w, from, t)
    ensures t.outcome.Exhausted? && |t.executed| == 800 && forall i :: 0 <= i < 800 ==> t.executed[i] == c
  {
    InsistsOffers(w, from, c, MAX_ITERATIONS);
    if t.outcome.Tripped? {
      TurnIsGuarded(w, from, Restarts(), t);
      RestartsPassAll(Checked(w, from, t));
    }
  }
}
