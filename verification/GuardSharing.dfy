/**
 * The loop guard as the program shares it: one static record (src/loop_guard/loop_guard.c), reset at the
 * start of every turn and consulted before every tool, by turns that worker threads run side by side.
 * Each reset and each check is taken as one step.
 */
module GuardSharing {
  import opened Basics
  import opened CText
  import opened LoopGuard

  datatype Op = Start | Call(name: string)

  /** One step of one turn. */
  datatype Event = Event(turn: nat, op: Op)

  /** The calls recorded since the last reset, by whichever turn, and the guard's verdict on them. */
  datatype Record = Record(calls: seq<string>, tripped: bool, reason: Reason)

  const BLANK := Record([], false, NoReason)

  /** The name under which the guard records a tool. */
  function Tag(name: string): string {
    Bounded(name, NAME_SIZE)
  }

  function Apply(g: Record, op: Op): Record {
    match op
    case Start => BLANK
    case Call(name) =>
      var calls := g.calls + [Tag(name)];
      if g.tripped then g
      else if Trips(calls) then Record(calls, true, ReasonFor(calls, name))
      else g.(calls := calls)
  }

  /** A run of steps from a given record. */
  function Played(g: Record, ops: seq<Op>): Record {
    if ops == [] then g else Apply(Played(g, ops[..|ops| - 1]), ops[|ops| - 1])
  }

  /** The record after a schedule, from program start. */
  function After(es: seq<Event>): Record {
    if es == [] then BLANK else Apply(After(es[..|es| - 1]), es[|es| - 1].op)
  }

  /** The calls that were let through since the last reset. */
  function Let(g: Record): seq<string> {
    if g.tripped && g.calls != [] then g.calls[..|g.calls| - 1] else g.calls
  }

  /** The calls of turn `a` that were let through, in order. */
  function Own(es: seq<Event>, a: nat): seq<string> {
    if es == [] then []
    else
      var n := |es| - 1;
      Own(es[..n], a) + if es[n].turn == a && es[n].op.Call? && !After(es).tripped then [Tag(es[n].op.name)] else []
  }

  // ---------------------------------------------------------------- the guard object under a schedule

  /** What the guard holds. */
  ghost function Seen(g: Guard): Record
    reads g
  {
    Record(g.calls, g.tripped, g.reason)
  }

  /** One step on the guard itself; a check tells whether the tool may run. */
  method Touch(g: Guard, op: Op) returns (ok: bool)
    requires g.Valid()
    modifies g, g.slots
    ensures g.Valid() && Seen(g) == Apply(old(Seen(g)), op) && ok == !g.tripped
  {
    if op.Start? {
      g.Reset();
      ok := true;
    } else {
      ok := g.Check(Some(op.name));
    }
  }

  /** A run of steps on the guard itself. */
  method Disturb(g: Guard, ops: seq<Op>)
    requires g.Valid()
    modifies g, g.slots
    ensures g.Valid() && Seen(g) == Played(old(Seen(g)), ops)
  {
    for i := 0 to |ops|
      invariant g.Valid() && Seen(g) == Played(old(Seen(g)), ops[..i])
    {
      assert ops[..i + 1][..i] == ops[..i];
      var _ := Touch(g, ops[i]);
    }
    assert ops[..|ops|] == ops;
  }

  /** A schedule played on the guard itself. */
  method Play(g: Guard, es: seq<Event>)
    requires g.Valid() && Seen(g) == BLANK
    modifies g, g.slots
    ensures g.Valid() && Seen(g) == After(es)
  {
    for i := 0 to |es|
      invariant g.Valid() && Seen(g) == After(es[..i])
    {
      assert es[..i + 1][..i] == es[..i];
      var _ := Touch(g, es[i].op);
    }
    assert es[..|es|] == es;
  }

  // ---------------------------------------------------------------- what holds for any schedule

  /** The calls let through since the last reset do not loop, and a tripped guard holds one that does. */
  ghost predicate Sound(g: Record) {
    LetThrough(Let(g)) && (g.tripped ==> g.calls != [] && Trips(g.calls))
  }

  lemma {:induction false} ApplyKeepsSound(g: Record, op: Op)
    requires Sound(g)
    ensures Sound(Apply(g, op))
  {
    if op.Call? && !g.tripped {
      LetThroughSnoc(g.calls, Tag(op.name));
      assert (g.calls + [Tag(op.name)])[..|g.calls|] == g.calls;
    }
  }

  lemma {:induction false} PlayedKeepsSound(g: Record, ops: seq<Op>)
    requires Sound(g)
    ensures Sound(Played(g, ops))
    decreases ops
  {
    if ops != [] {
      PlayedKeepsSound(g, ops[..|ops| - 1]);
      ApplyKeepsSound(Played(g, ops[..|ops| - 1]), ops[|ops| - 1]);
    }
  }

  /** However turns interleave, the calls let through since the last reset never loop. */
  lemma {:induction false} SharedNeverLoops(es: seq<Event>)
    ensures Sound(After(es))
    decreases es
  {
    if es != [] {
      SharedNeverLoops(es[..|es| - 1]);
      ApplyKeepsSound(After(es[..|es| - 1]), es[|es| - 1].op);
    }
  }

  lemma {:induction false} SharedBounds(es: seq<Event>, i: nat)
    ensures !FiveInARow(Let(After(es)), i) && !Alternates(Let(After(es)), i, 11)
  {
    SharedNeverLoops(es);
    NeverFiveInARow(Let(After(es)), i);
    NeverElevenAlternating(Let(After(es)), i);
  }

  // ---------------------------------------------------------------- a turn that nobody disturbs

  /** All calls of turn `a` lie at places `f` to `l`, and nobody else's event does, nor a reset. */
  ghost predicate Undisturbed(es: seq<Event>, a: nat, f: nat, l: nat) {
    && f <= l <= |es|
    && (forall i :: f <= i < l ==> es[i].turn == a && es[i].op.Call?)
    && (forall i :: 0 <= i < |es| && !(f <= i < l) ==> !(es[i].turn == a && es[i].op.Call?))
  }

  lemma {:induction false} OwnBefore(es: seq<Event>, a: nat)
    requires forall i :: 0 <= i < |es| ==> !(es[i].turn == a && es[i].op.Call?)
    ensures Own(es, a) == []
    decreases es
  {
    if es != [] {
      OwnBefore(es[..|es| - 1], a);
    }
  }

  /** A tripped guard refuses all of them. */
  lemma {:induction false} OwnRefused(es: seq<Event>, a: nat, f: nat)
    requires Undisturbed(es, a, f, |es|) && After(es[..f]).tripped
    ensures Own(es, a) == [] && After(es) == After(es[..f])
    decreases |es| - f
  {
    if f == |es| {
      assert es[..f] == es;
      OwnBefore(es, a);
    } else {
      var before := es[..|es| - 1];
      assert before[..f] == es[..f];
      OwnRefused(before, a, f);
    }
  }

  /** Otherwise the turn's own calls are the last ones that were let through. */
  lemma {:induction false} OwnInside(es: seq<Event>, a: nat, f: nat)
    requires Undisturbed(es, a, f, |es|) && !After(es[..f]).tripped
    ensures Let(After(es)) == After(es[..f]).calls + Own(es, a)
    decreases |es| - f
  {
    if f == |es| {
      assert es[..f] == es;
      OwnBefore(es, a);
      assert After(es).calls + [] == After(es).calls;
    } else {
      var before := es[..|es| - 1];
      assert before[..f] == es[..f];
      OwnInside(before, a, f);
      InsideStep(After(before), After(es[..f]).calls, Own(before, a), es[|es| - 1].op.name);
    }
  }

  lemma {:induction false} InsideStep(g: Record, head: seq<string>, own: seq<string>, name: string)
    requires Let(g) == head + own
    ensures var g' := Apply(g, Call(name));
      Let(g') == head + (own + if g'.tripped then [] else [Tag(name)])
  {
    if !g.tripped {
      assert (g.calls + [Tag(name)])[..|g.calls|] == g.calls;
      assert g.calls + [Tag(name)] == head + (own + [Tag(name)]);
    }
    assert own + [] == own;
  }

  lemma {:induction false} OwnAfter(es: seq<Event>, a: nat, l: nat)
    requires l <= |es| && forall i :: l <= i < |es| ==> !(es[i].turn == a && es[i].op.Call?)
    ensures Own(es, a) == Own(es[..l], a)
    decreases |es|
  {
    if l == |es| {
      assert es[..l] == es;
    } else {
      OwnAfter(es[..|es| - 1], a, l);
      assert es[..|es| - 1][..l] == es[..l];
    }
  }

  lemma {:induction false} FiveLifts(h: seq<string>, own: seq<string>, i: nat)
    requires FiveInARow(own, i)
    ensures FiveInARow(h + own, |h| + i)
  {
    assert forall j :: i <= j < i + SAME ==> (h + own)[|h| + j] == own[j];
  }

  lemma {:induction false} AlternationLifts(h: seq<string>, own: seq<string>, i: nat, n: nat)
    requires Alternates(own, i, n)
    ensures Alternates(h + own, |h| + i, n)
  {
    forall j | |h| + i <= j < |h| + i + n - 2
      ensures Echo(h + own, j)
    {
      assert Echo(own, j - |h|);
    }
  }

  lemma {:induction false} TailInherits(h: seq<string>, own: seq<string>, i: nat)
    requires LetThrough(h + own)
    ensures !FiveInARow(own, i) && !Alternates(own, i, 11)
  {
    NeverFiveInARow(h + own, |h| + i);
    NeverElevenAlternating(h + own, |h| + i);
    if FiveInARow(own, i) {
      FiveLifts(h, own, i);
    } else if Alternates(own, i, 11) {
      AlternationLifts(h, own, i, 11);
    }
  }

  /**
   * A turn keeps the guard's bound under any schedule in which no event of another turn and no reset falls
   * between its first and its last call, whatever happens before and after.
   */
  lemma {:induction false} UndisturbedTurnNeverLoops(es: seq<Event>, a: nat, f: nat, l: nat, i: nat)
    requires Undisturbed(es, a, f, l)
    ensures !FiveInARow(Own(es, a), i) && !Alternates(Own(es, a), i, 11)
  {
    var inside := es[..l];
    OwnAfter(es, a, l);
    assert inside[..f] == es[..f];
    SharedNeverLoops(inside);
    if After(inside[..f]).tripped {
      OwnRefused(inside, a, f);
    } else {
      OwnInside(inside, a, f);
      TailInherits(After(inside[..f]).calls, Own(es, a), i);
    }
  }

  // ---------------------------------------------------------------- what one other event can do

  /** Turn 1 calls `x` four times, then turn 2 starts: `k` times over. */
  function ResetBetween(x: string, k: nat): seq<Event> {
    if k == 0 then [] else AndAgain(ResetBetween(x, k - 1), Event(1, Call(x)))
  }

  function AndAgain(es: seq<Event>, c: Event): seq<Event> {
    es + [c] + [c] + [c] + [c] + [Event(2, Start)]
  }

  function Times(x: string, n: nat): (s: seq<string>)
    ensures |s| == n && forall i :: 0 <= i < n ==> s[i] == x
  {
    if n == 0 then [] else Times(x, n - 1) + [x]
  }

  lemma {:induction false} FewPass(h: seq<string>)
    requires |h| < SAME
    ensures !Trips(h)
  {
  }

  lemma {:induction false} CallStep(es: seq<Event>, a: nat, x: string)
    requires !After(es).tripped && |After(es).calls| + 1 < SAME
    ensures var es' := es + [Event(a, Call(x))];
      && After(es') == After(es).(calls := After(es).calls + [Tag(x)])
      && Own(es', a) == Own(es, a) + [Tag(x)]
  {
    var es' := es + [Event(a, Call(x))];
    assert es'[..|es|] == es;
    FewPass(After(es).calls + [Tag(x)]);
  }

  lemma {:induction false} StartStep(es: seq<Event>, a: nat, b: nat)
    ensures After(es + [Event(b, Start)]) == BLANK && Own(es + [Event(b, Start)], a) == Own(es, a)
  {
    assert (es + [Event(b, Start)])[..|es|] == es;
  }

  lemma {:induction false} FourCalls(es: seq<Event>, x: string)
    requires After(es) == BLANK
    ensures After(AndAgain(es, Event(1, Call(x)))) == BLANK
    ensures Own(AndAgain(es, Event(1, Call(x))), 1) == Own(es, 1) + [Tag(x)] + [Tag(x)] + [Tag(x)] + [Tag(x)]
  {
    var c := Event(1, Call(x));
    CallStep(es, 1, x);
    CallStep(es + [c], 1, x);
    CallStep(es + [c] + [c], 1, x);
    CallStep(es + [c] + [c] + [c], 1, x);
    StartStep(es + [c] + [c] + [c] + [c], 1, 2);
  }

  /** After `es` the guard is fresh, and turn 1 got exactly `n` equal calls through. */
  ghost predicate Evaded(es: seq<Event>, x: string, n: nat) {
    After(es) == BLANK && Own(es, 1) == Times(x, n)
  }

  lemma {:induction false} EvadesAgain(es: seq<Event>, x: string, n: nat)
    requires Evaded(es, Tag(x), n)
    ensures Evaded(AndAgain(es, Event(1, Call(x))), Tag(x), n + 4)
  {
    FourCalls(es, x);
    FourMore(Tag(x), n, Own(es, 1));
  }

  /** One other turn's resets suffice: turn 1 gets any number of equal calls through in a row. */
  lemma {:induction false} ResetsBreakTheBound(x: string, k: nat)
    ensures Evaded(ResetBetween(x, k), Tag(x), 4 * k)
    decreases k
  {
    if k == 0 {
      assert Own([], 1) == Times(Tag(x), 0);
    } else {
      ResetsBreakTheBound(x, k - 1);
      EvadesAgain(ResetBetween(x, k - 1), x, 4 * (k - 1));
    }
  }

  lemma {:induction false} FourMore(x: string, n: nat, s: seq<string>)
    requires s == Times(x, n)
    ensures s + [x] + [x] + [x] + [x] == Times(x, n + 4)
  {
  }

  /** Turn 1 calls `x` and turn 2 calls `y` at every fourth place. */
  function CallsBetween(x: string, y: string, n: nat): (es: seq<Event>)
    ensures |es| == n
  {
    if n == 0 then []
    else CallsBetween(x, y, n - 1) + [if (n - 1) % 4 == 3 then Event(2, Call(y)) else Event(1, Call(x))]
  }

  lemma {:induction false} WaltzSnoc(x: string, y: string, n: nat)
    ensures Waltz(x, y, n + 1) == Waltz(x, y, n) + [LoopGuard.Step(x, y, n)]
  {
  }

  lemma {:induction false} WaltzGoesOn(x: string, y: string, n: nat)
    requires x != y
    ensures Waltz(x, y, n + 1) == Waltz(x, y, n) + [LoopGuard.Step(x, y, n)] && !Trips(Waltz(x, y, n + 1))
  {
    WaltzSnoc(x, y, n);
    WaltzStepPasses(x, y, n + 1);
    assert Passes(Waltz(x, y, n + 1), n + 1) == !Trips(Waltz(x, y, n + 1));
  }

  lemma {:induction false} PassingCall(es: seq<Event>, e: Event, h: seq<string>)
    requires After(es) == BLANK.(calls := h) && e.op.Call? && !Trips(h + [Tag(e.op.name)])
    ensures After(es + [e]) == BLANK.(calls := h + [Tag(e.op.name)])
  {
    assert (es + [e])[..|es|] == es;
  }

  lemma {:induction false} CallsAllPass(x: string, y: string, n: nat)
    requires Tag(x) != Tag(y)
    ensures After(CallsBetween(x, y, n)) == BLANK.(calls := Waltz(Tag(x), Tag(y), n))
    decreases n
  {
    if n > 0 {
      CallsAllPass(x, y, n - 1);
      WaltzGoesOn(Tag(x), Tag(y), n - 1);
      PassingCall(CallsBetween(x, y, n - 1), CallsBetween(x, y, n)[n - 1], Waltz(Tag(x), Tag(y), n - 1));
    }
  }

  lemma {:induction false} OwnStep(x: string, y: string, n: nat)
    requires Tag(x) != Tag(y) && n > 0
    ensures Own(CallsBetween(x, y, n), 1) ==
            Own(CallsBetween(x, y, n - 1), 1) + if (n - 1) % 4 == 3 then [] else [Tag(x)]
  {
    CallsAllPass(x, y, n);
    assert CallsBetween(x, y, n)[..n - 1] == CallsBetween(x, y, n - 1);
  }

  /** How many of the first `n` events are turn 1's: three quarters. */
  function Mine(n: nat): nat {
    if n == 0 then 0 else Mine(n - 1) + if (n - 1) % 4 == 3 then 0 else 1
  }

  lemma {:induction false} MineIs(n: nat)
    ensures Mine(n) == n - n / 4
    decreases n
  {
    if n > 0 {
      MineIs(n - 1);
    }
  }

  /** Turn 1 got exactly `k` calls through, all equal. */
  ghost predicate Repeats(es: seq<Event>, x: string, k: nat) {
    Own(es, 1) == Times(x, k)
  }

  lemma {:induction false} NothingRepeats(x: string)
    ensures Repeats([], x, 0)
  {
  }

  lemma {:induction false} RepeatsStep(x: string, y: string, n: nat)
    requires Tag(x) != Tag(y) && n > 0
    ensures Repeats(CallsBetween(x, y, n - 1), Tag(x), Mine(n - 1)) ==> Repeats(CallsBetween(x, y, n), Tag(x), Mine(n))
  {
    OwnStep(x, y, n);
    TimesStep(Own(CallsBetween(x, y, n - 1), 1), Tag(x), n);
  }

  lemma {:induction false} TimesStep(s: seq<string>, x: string, n: nat)
    requires n > 0
    ensures s == Times(x, Mine(n - 1)) ==> s + (if (n - 1) % 4 == 3 then [] else [x]) == Times(x, Mine(n))
  {
  }

  /**
   * One other turn's calls suffice as well, without any reset: of `n` events all pass, and turn 1 gets its
   * three quarters of them through, all equal and in a row.
   */
  lemma {:induction false} CallsBreakTheBound(x: string, y: string, n: nat)
    requires Tag(x) != Tag(y)
    ensures Repeats(CallsBetween(x, y, n), Tag(x), Mine(n))
    decreases n
  {
    if n == 0 {
      NothingRepeats(Tag(x));
    } else {
      CallsBreakTheBound(x, y, n - 1);
      RepeatsStep(x, y, n);
    }
  }

  /** In both cases five in a row is soon reached. */
  lemma {:induction false} TheBoundIsBroken(x: string, y: string)
    requires Tag(x) != Tag(y)
    ensures FiveInARow(Own(ResetBetween(x, 2), 1), 0) && FiveInARow(Own(CallsBetween(x, y, 7), 1), 0)
  {
    ResetsBreakTheBound(x, 2);
    CallsBreakTheBound(x, y, 7);
    MineIs(7);
  }
}
