/** The circuit breaker for tool-call loops (src/loop_guard/loop_guard.c). */
module LoopGuard {
  import opened Basics
  import opened CText

  const HISTORY := 16
  const SAME := 5
  const PINGPONG := 6
  const NAME_SIZE := 64

  // ---------------------------------------------------------------- specification over the whole history

  /** The name `i` places before the last. */
  function Back(w: seq<string>, i: nat): string
    requires i < |w|
  {
    w[|w| - 1 - i]
  }

  /** The names still held: the last sixteen. */
  function Window(h: seq<string>): (w: seq<string>)
    ensures |w| == if |h| < HISTORY then |h| else HISTORY
    ensures forall i :: 0 <= i < |w| ==> Back(w, i) == Back(h, i)
  {
    if |h| <= HISTORY then h else h[|h| - HISTORY..]
  }

  /** The last `n` names are all equal. */
  predicate SameTail(w: seq<string>, n: nat) {
    n <= |w| && forall i :: 0 <= i < n ==> Back(w, i) == Back(w, 0)
  }

  /** Counted from the end, the last `n` names repeat the last two in turn. */
  predicate AlternatingTail(w: seq<string>, n: nat) {
    && 2 <= |w| && n <= |w| && Back(w, 0) != Back(w, 1)
    && forall i :: 0 <= i < n ==> Back(w, i) == Beat(w, i)
  }

  /** The last name or the one before it, in turn. */
  function Beat(w: seq<string>, i: nat): string
    requires 2 <= |w|
  {
    if i % 2 == 0 then Back(w, 0) else Back(w, 1)
  }

  /** The rule the code applies to a window: n - 5 names, not the six that the header speaks of. */
  predicate PingPong(w: seq<string>) {
    |w| >= PINGPONG && AlternatingTail(w, |w| - 5)
  }

  predicate Trips(h: seq<string>) {
    SameTail(Window(h), SAME) || PingPong(Window(h))
  }

  // ---------------------------------------------------------------- the guard as it runs

  datatype Reason = NoReason | SameTool(name: string) | Between(a: string, b: string)

  /** What the guard reports when the last of `h`, a call of `tool`, trips it. */
  function ReasonFor(h: seq<string>, tool: string): Reason
    requires |h| >= 2
  {
    if SameTail(Window(h), SAME) then SameTool(tool) else Between(Back(h, 1), Back(h, 0))
  }

  /** The reason names the repeated tool, or the last two names in the order of their calls. */
  lemma {:induction false} ReasonIs(h: seq<string>, tool: string)
    requires Trips(h)
    ensures |h| >= 5 && ReasonFor(h, tool) == if h[|h| - 1] == h[|h| - 2] then SameTool(tool)
                                              else Between(h[|h| - 2], h[|h| - 1])
  {
    var w := Window(h);
    assert Back(w, 0) == h[|h| - 1] && Back(w, 1) == h[|h| - 2];
  }

  class Guard {
    const slots: array<string>
    var count: nat
    var tripped: bool
    var reason: Reason
    ghost var calls: seq<string>    // every name recorded since the last reset

    ghost predicate Valid()
      reads this, slots
    {
      && slots.Length == HISTORY && count <= HISTORY
      && slots[..count] == Window(calls)
      && (if tripped then calls != [] && Trips(calls) && LetThrough(calls[..|calls| - 1]) else LetThrough(calls))
    }

    constructor ()
      ensures Valid() && fresh(slots) && !tripped && calls == [] && reason == NoReason
    {
      slots := new string[HISTORY](_ => "");
      count, tripped, reason, calls := 0, false, NoReason, [];
    }

    method Reset()
      requires Valid()
      modifies this
      ensures Valid() && !tripped && reason == NoReason && calls == []
    {
      count, tripped, reason, calls := 0, false, NoReason, [];
    }

    method IsPingPong() returns (b: bool)
      requires slots.Length == HISTORY && count <= HISTORY
      ensures b == PingPong(slots[..count])
    {
      if count < PINGPONG {
        return false;
      }
      var x, y := slots[count - 1], slots[count - 2];
      if x == y {
        return false;
      }
      var i := 0;
      while i + 2 <= count && count - i >= PINGPONG
        invariant 0 <= i <= count - 5
        invariant forall k :: 0 <= k < i ==> Back(slots[..count], k) == Beat(slots[..count], k)
        decreases count - i
      {
        var idx := count - 1 - i;
        assert slots[idx] == Back(slots[..count], i);
        if (i % 2 == 0 && slots[idx] != x) || (i % 2 == 1 && slots[idx] != y) {
          return false;
        }
        i := i + 1;
      }
      b := true;
    }

    method SameToolRepeated() returns (b: bool)
      requires slots.Length == HISTORY && count <= HISTORY
      ensures b == SameTail(slots[..count], SAME)
    {
      if count < SAME {
        return false;
      }
      var last := slots[count - 1];
      var i := 1;
      while i < SAME
        invariant 1 <= i <= SAME
        invariant forall k :: 0 <= k < i ==> Back(slots[..count], k) == last
      {
        assert slots[count - 1 - i] == Back(slots[..count], i);
        if slots[count - 1 - i] != last {
          return false;
        }
        i := i + 1;
      }
      b := true;
    }

    /** The memmove that drops the oldest name, and the copy of the new one. */
    method Record(name: string)
      requires Valid()
      modifies this`count, this`calls, slots
      ensures slots.Length == HISTORY && 0 < count <= HISTORY
      ensures calls == old(calls) + [name]
      ensures slots[..count] == Window(calls)
    {
      if count >= HISTORY {
        DropOldest();
      }
      ghost var kept := slots[..count];
      slots[count] := name;
      count := count + 1;
      calls := calls + [name];
      assert slots[..count] == kept + [name];
      WindowSnoc(old(calls), name);
    }

    /** The shift by one that makes room in a full window. */
    method DropOldest()
      requires slots.Length == HISTORY == count
      modifies this`count, slots
      ensures count == HISTORY - 1 && slots[..count] == old(slots[..])[1..]
    {
      ghost var w := slots[..];
      var j := 0;
      while j < HISTORY - 1
        invariant 0 <= j <= HISTORY - 1 && count == HISTORY
        invariant forall k :: 0 <= k < j ==> slots[k] == w[k + 1]
        invariant forall k :: j <= k < HISTORY ==> slots[k] == w[k]
      {
        slots[j] := slots[j + 1];
        j := j + 1;
      }
      count := HISTORY - 1;
    }

    /** The two tests on the names held after recording a call of `tool`. */
    method Judge(tool: string)
      requires slots.Length == HISTORY && 0 < count <= HISTORY && slots[..count] == Window(calls) && !tripped
      modifies this`tripped, this`reason
      ensures tripped == Trips(calls)
      ensures tripped ==> |calls| >= 2 && reason == ReasonFor(calls, tool)
      ensures !tripped ==> reason == old(reason)
    {
      ghost var w := Window(calls);
      var same := SameToolRepeated();
      if same {
        tripped, reason := true, SameTool(tool);
        return;
      }
      var pingPong := IsPingPong();
      if pingPong {
        tripped, reason := true, Between(slots[count - 2], slots[count - 1]);
        assert w[count - 1] == Back(w, 0) && w[count - 2] == Back(w, 1);
      }
    }

    /** loop_guard_check: true means the tool may run. */
    method Check(tool: Option<string>) returns (ok: bool)
      requires Valid()
      modifies this, slots
      ensures Valid()
      ensures old(tripped) ==> !ok && tripped && calls == old(calls) && reason == old(reason)
      ensures !old(tripped) && tool.None? ==> ok && !tripped && calls == old(calls)
      ensures !old(tripped) && tool.Some? ==> calls == old(calls) + [Bounded(tool.value, NAME_SIZE)]
      ensures !old(tripped) && tool.Some? ==> tripped == Trips(calls) && ok == !tripped
      ensures !old(tripped) && tripped ==> tool.Some? && |calls| >= 2 && reason == ReasonFor(calls, tool.value)
      ensures !tripped ==> reason == old(reason)
    {
      if tripped {
        return false;
      }
      if tool.None? {
        return true;
      }
      var name := Bounded(tool.value, NAME_SIZE);
      LetThroughSnoc(calls, name);
      assert (calls + [name])[..|calls|] == calls;
      Record(name);
      Judge(tool.value);
      ok := !tripped;
    }
  }

  lemma {:induction false} LetThroughSnoc(h: seq<string>, name: string)
    requires LetThrough(h)
    ensures LetThrough(h + [name]) <==> !Trips(h + [name])
  {
    var h' := h + [name];
    forall k | 0 < k <= |h|
      ensures Passes(h', k)
    {
      PassesSnoc(h, name, k);
    }
    assert Passes(h', |h'|) == !Trips(h');
  }

  lemma {:induction false} PassesSnoc(h: seq<string>, name: string, k: nat)
    requires k <= |h|
    ensures Passes(h + [name], k) == Passes(h, k)
  {
    assert (h + [name])[..|h|] == h;
  }

  lemma {:induction false} PassesPrefix(h: seq<string>, k: nat)
    requires k <= |h|
    ensures Passes(h, k) == Passes(h[..k], k)
    decreases |h|
  {
    if k < |h| {
      PassesPrefix(h[..|h| - 1], k);
      assert h[..|h| - 1][..k] == h[..k];
    } else {
      assert h[..k] == h;
    }
  }

  lemma {:induction false} WindowSnoc(h: seq<string>, name: string)
    ensures Window(h + [name]) == (if |h| >= HISTORY then Window(h)[1..] else Window(h)) + [name]
  {
  }

  // ---------------------------------------------------------------- when it trips, told from the calls

  /** The last five calls have one name. */
  predicate EndsInFive(h: seq<string>) {
    |h| >= 5 && forall i :: |h| - 5 <= i < |h| ==> h[i] == h[|h| - 1]
  }

  /** The last `m` calls, two different ones at the end, repeat with period two. */
  predicate EndsInTurns(h: seq<string>, m: int) {
    |h| >= 6 && h[|h| - 1] != h[|h| - 2] && forall i :: 0 <= i && |h| - m <= i < |h| - 2 ==> h[i] == h[i + 2]
  }

  lemma {:induction false} SameTailIs(h: seq<string>)
    ensures SameTail(Window(h), SAME) <==> EndsInFive(h)
  {
    var w, n := Window(h), |h|;
    if SameTail(w, SAME) {
      forall i | n - 5 <= i < n
        ensures h[i] == h[n - 1]
      {
        assert Back(w, n - 1 - i) == Back(h, n - 1 - i) == h[i] && Back(w, 0) == Back(h, 0);
      }
    }
    if EndsInFive(h) {
      forall i | 0 <= i < SAME
        ensures Back(w, i) == Back(w, 0)
      {
        assert Back(w, i) == Back(h, i) == h[n - 1 - i] && Back(w, 0) == Back(h, 0);
      }
    }
  }

  /** A beat that holds for two more names repeats the name two places on. */
  lemma {:induction false} BeatsRepeat(h: seq<string>, m: nat)
    requires AlternatingTail(h, m) && |h| >= 6
    ensures EndsInTurns(h, m)
  {
    var n := |h|;
    assert Back(h, 0) == h[n - 1] && Back(h, 1) == h[n - 2];
    forall i | 0 <= i && n - m <= i < n - 2
      ensures h[i] == h[i + 2]
    {
      assert Back(h, n - 1 - i) == h[i] && Back(h, n - 3 - i) == h[i + 2];
    }
  }

  lemma {:induction false} RepeatsBeat(h: seq<string>, m: nat, i: nat)
    requires EndsInTurns(h, m) && m <= |h| && i < m
    ensures Back(h, i) == Beat(h, i)
    decreases i
  {
    if i >= 2 {
      RepeatsBeat(h, m, i - 2);
      var j := |h| - 1 - i;
      assert h[j] == h[j + 2];
    }
  }

  lemma {:induction false} AlternatingIs(h: seq<string>, m: nat)
    requires m <= |h|
    ensures |h| >= 6 && AlternatingTail(h, m) <==> EndsInTurns(h, m)
  {
    if |h| >= 6 && AlternatingTail(h, m) {
      BeatsRepeat(h, m);
    }
    if EndsInTurns(h, m) {
      assert Back(h, 0) == h[|h| - 1] && Back(h, 1) == h[|h| - 2];
      forall i | 0 <= i < m
        ensures Back(h, i) == Beat(h, i)
      {
        RepeatsBeat(h, m, i);
      }
    }
  }

  lemma {:induction false} WindowAlternates(h: seq<string>, m: nat)
    requires |h| >= 6 && m <= |Window(h)|
    ensures AlternatingTail(Window(h), m) <==> AlternatingTail(h, m)
  {
    var w := Window(h);
    assert Back(w, 0) == Back(h, 0) && Back(w, 1) == Back(h, 1);
    assert forall i :: 0 <= i < m ==> Back(w, i) == Back(h, i) && Beat(w, i) == Beat(h, i);
  }

  /**
   * The exact rule: the call that makes the history `h` trips the guard iff it is the fifth in a row under one
   * name, or follows a different one and the last min(|h|, 16) - 5 calls repeat with period two.
   */
  lemma {:induction false} TripsIff(h: seq<string>)
    ensures Trips(h) <==> EndsInFive(h) || EndsInTurns(h, (if |h| < 16 then |h| else 16) - 5)
  {
    SameTailIs(h);
    if |h| >= 6 {
      var m := |Window(h)| - 5;
      WindowAlternates(h, m);
      AlternatingIs(h, m);
    }
  }

  // ---------------------------------------------------------------- what a guarded run looks like

  /** Call number `k` of `h` was let through. */
  ghost predicate Passes(h: seq<string>, k: nat)
    requires k <= |h|
    decreases |h|
  {
    if k < |h| then Passes(h[..|h| - 1], k) else !Trips(h)
  }

  /** Every call of `h` was let through. */
  ghost predicate LetThrough(h: seq<string>) {
    forall k :: 0 < k <= |h| ==> Passes(h, k)
  }

  lemma {:induction false} PrefixLetThrough(h: seq<string>, n: nat)
    requires LetThrough(h) && 0 < n <= |h|
    ensures !Trips(h[..n])
  {
    PassesPrefix(h, n);
    assert Passes(h, n);
  }

  ghost predicate FiveInARow(h: seq<string>, i: nat) {
    i + 5 <= |h| && forall j :: i <= j < i + 5 ==> h[j] == h[i]
  }

  ghost predicate Echo(h: seq<string>, j: nat)
    requires j + 2 < |h|
  {
    h[j] == h[j + 2]
  }

  /** The `n` calls from `i` on alternate between two tools. */
  ghost predicate Alternates(h: seq<string>, i: nat, n: nat) {
    2 <= n && i + n <= |h| && h[i] != h[i + 1] && forall j :: i <= j < i + n - 2 ==> Echo(h, j)
  }

  /** Alternating from the front is alternating from the back. */
  lemma {:induction false} AlternatesFromEnd(h: seq<string>, i: nat, n: nat, k: nat)
    requires Alternates(h, i, n) && i + n == |h| && k < n
    ensures Back(h, k) == Beat(h, k)
    decreases k
  {
    if k >= 2 {
      AlternatesFromEnd(h, i, n, k - 2);
      assert Echo(h, |h| - 1 - k);
    }
  }

  lemma {:induction false} AlternatesEndsDiffer(h: seq<string>, i: nat, n: nat)
    requires Alternates(h, i, n) && i + n == |h|
    ensures Back(h, 0) != Back(h, 1)
  {
    AlternatesFromEnd(h, i, n, n - 1);
    AlternatesFromEnd(h, i, n, n - 2);
    assert Back(h, n - 1) == h[i] && Back(h, n - 2) == h[i + 1];
  }

  lemma {:induction false} FiveTrip(h: seq<string>, i: nat)
    requires FiveInARow(h, i) && i + SAME == |h|
    ensures Trips(h)
  {
    var w := Window(h);
    forall k | 0 <= k < SAME
      ensures Back(w, k) == Back(w, 0)
    {
      assert Back(w, k) == Back(h, k) == h[i + SAME - 1 - k];
    }
    assert SameTail(w, SAME);
  }

  /** No tool is let through five times in a row, however long the run. */
  lemma {:induction false} NeverFiveInARow(h: seq<string>, i: nat)
    requires LetThrough(h)
    ensures !FiveInARow(h, i)
  {
    if FiveInARow(h, i) {
      PrefixLetThrough(h, i + SAME);
      FiveTrip(h[..i + SAME], i);
    }
  }

  lemma {:induction false} ElevenTrip(h: seq<string>, i: nat)
    requires Alternates(h, i, 11) && i + 11 == |h|
    ensures Trips(h)
  {
    var w := Window(h);
    AlternatesEndsDiffer(h, i, 11);
    forall k | 0 <= k < |w| - 5
      ensures Back(w, k) == Beat(w, k)
    {
      AlternatesFromEnd(h, i, 11, k);
    }
    assert PingPong(w);
  }

  /** Two tools are never let through eleven times in alternation. */
  lemma {:induction false} NeverElevenAlternating(h: seq<string>, i: nat)
    requires LetThrough(h)
    ensures !Alternates(h, i, 11)
  {
    if Alternates(h, i, 11) {
      PrefixLetThrough(h, i + 11);
      var p := h[..i + 11];
      forall j | i <= j < i + 9
        ensures Echo(p, j)
      {
        assert Echo(h, j);
      }
      ElevenTrip(p, i);
    }
  }

  // ---------------------------------------------------------------- the rule in the header and the rule in the code

  /** The header's rule: the last six calls alternate. */
  predicate SixAlternate(h: seq<string>) {
    AlternatingTail(h, PINGPONG)
  }

  /** Up to eleven calls the code trips at least where the header says. */
  lemma {:induction false} HeaderRuleCovered(h: seq<string>)
    requires |h| <= 11 && SixAlternate(h)
    ensures Trips(h)
  {
  }

  /** From eleven calls on, a ping-pong trip means at least what the header says. */
  lemma {:induction false} HeaderRuleImplied(h: seq<string>)
    requires |h| >= 11 && PingPong(Window(h))
    ensures SixAlternate(h)
  {
    var w := Window(h);
    forall i | 0 <= i < PINGPONG
      ensures Back(h, i) == Beat(h, i)
    {
      assert Back(w, i) == Beat(w, i);
    }
  }

  /** At the sixth and seventh call any two different last names trip the guard. */
  lemma {:induction false} EarlyTrip(h: seq<string>)
    requires |h| == 6 || |h| == 7
    ensures Trips(h) <==> h[|h| - 1] != h[|h| - 2] || EndsInFive(h)
  {
    TripsIff(h);
  }

  /** Hence a run that gets past seven calls repeated its fifth call twice. */
  lemma {:induction false} LongRunsRepeat(h: seq<string>)
    requires LetThrough(h) && |h| >= 7
    ensures h[4] == h[5] == h[6]
  {
    EarlyTrip(h[..6]);
    EarlyTrip(h[..7]);
    PrefixLetThrough(h, 6);
    PrefixLetThrough(h, 7);
  }

  // ---------------------------------------------------------------- runs that are let through

  /** Two equal last names do not trip the guard if one of the three before differs. */
  lemma {:induction false} EqualPairPasses(h: seq<string>, d: nat)
    requires |h| >= 2 && Back(h, 0) == Back(h, 1) && d < SAME && d < |h| && Back(h, d) != Back(h, 0)
    ensures Passes(h, |h|)
  {
    var w := Window(h);
    assert Back(w, d) == Back(h, d) && Back(w, 0) == Back(h, 0) && Back(w, 1) == Back(h, 1);
  }

  /** Two different last names do not trip it if the beat is broken within the names it compares. */
  lemma {:induction false} BrokenBeatPasses(h: seq<string>, d: nat)
    requires |h| >= 2 && Back(h, 0) != Back(h, 1) && d + 5 < |h| && d + 5 < HISTORY && Back(h, d) != Beat(h, d)
    ensures Passes(h, |h|)
  {
    var w := Window(h);
    assert Back(w, d) == Back(h, d) && Back(w, 0) == Back(h, 0) && Back(w, 1) == Back(h, 1);
  }

  function Step(x: string, y: string, i: nat): string {
    if i % 4 == 3 then y else x
  }

  /** x x x y, over and over. */
  function Waltz(x: string, y: string, n: nat): (h: seq<string>)
    ensures |h| == n && forall i :: 0 <= i < n ==> h[i] == Step(x, y, i)
  {
    seq(n, i requires 0 <= i < n => Step(x, y, i))
  }

  lemma {:induction false} WaltzStepPasses(x: string, y: string, k: nat)
    requires x != y && k > 0
    ensures Passes(Waltz(x, y, k), k)
  {
    var h := Waltz(x, y, k);
    if k >= 6 {
      LastSteps(x, y, k);
      var r := (k - 1) % 4;
      if r == 0 {
        BrokenBeatPasses(h, 3);
      } else if r == 3 {
        BrokenBeatPasses(h, 2);
      } else {
        EqualPairPasses(h, r + 1);
      }
    } else if k == 5 {
      var w := Window(h);
      assert Back(w, 1) == h[3] && Back(w, 0) == h[4];
    }
  }

  lemma {:induction false} Places(k: nat, r: nat)
    requires k >= 4 && r == (k - 1) % 4
    ensures (k - 2) % 4 == (r + 3) % 4 && (k - 3) % 4 == (r + 2) % 4 && (k - 4) % 4 == (r + 1) % 4
  {
  }

  lemma {:induction false} LastSteps(x: string, y: string, k: nat)
    requires k >= 4
    ensures var h, r := Waltz(x, y, k), (k - 1) % 4;
      && Back(h, 0) == Step(x, y, r) && Back(h, 1) == Step(x, y, r + 3)
      && Back(h, 2) == Step(x, y, r + 2) && Back(h, 3) == Step(x, y, r + 1)
  {
    var h, r := Waltz(x, y, k), (k - 1) % 4;
    Places(k, r);
    SameStep(x, y, k - 1, r);
    SameStep(x, y, k - 2, r + 3);
    SameStep(x, y, k - 3, r + 2);
    SameStep(x, y, k - 4, r + 1);
  }

  lemma {:induction false} SameStep(x: string, y: string, i: nat, j: nat)
    requires i % 4 == j % 4
    ensures Step(x, y, i) == Step(x, y, j)
  {
  }

  /** However long, it is let through. */
  lemma {:induction false} WaltzPasses(x: string, y: string, n: nat)
    requires x != y
    ensures LetThrough(Waltz(x, y, n))
  {
    forall k | 0 < k <= n
      ensures Passes(Waltz(x, y, n), k)
    {
      PassesPrefix(Waltz(x, y, n), k);
      assert Waltz(x, y, n)[..k] == Waltz(x, y, k);
      WaltzStepPasses(x, y, k);
    }
  }

  function FinaleStep(x: string, y: string, m: nat, i: nat): string
    requires m > 0
  {
    if i < m then Step(x, y, i)
    else if (i - m) % 2 == 0 then Step(x, y, m - 1)
    else if Step(x, y, m - 1) == x then y else x
  }

  /** A waltz of `m` calls that then repeats its last call and alternates for `j` calls in all. */
  function Finale(x: string, y: string, m: nat, j: nat): (h: seq<string>)
    requires m > 0
    ensures |h| == m + j && forall i :: 0 <= i < m + j ==> h[i] == FinaleStep(x, y, m, i)
  {
    seq(m + j, i requires 0 <= i < m + j => FinaleStep(x, y, m, i))
  }

  lemma {:induction false} FinaleAfterWaltz(x: string, y: string, m: nat)
    requires m >= 6
    ensures var h, z := Finale(x, y, m, 1), Waltz(x, y, m);
      Back(h, 0) == Back(z, 0) == Back(h, 1) && Back(h, 2) == Back(z, 1) && Back(h, 3) == Back(z, 2) &&
          Back(h, 4) == Back(z, 3)
  {
    var h, z := Finale(x, y, m, 1), Waltz(x, y, m);
    assert h[m] == FinaleStep(x, y, m, m) == z[m - 1];
    assert forall i :: 0 <= i < m ==> h[i] == z[i];
  }

  lemma {:induction false} FinaleShifts(x: string, y: string, m: nat, r: nat)
    requires m >= 6 && r == (m - 1) % 4
    ensures var h := Finale(x, y, m, 1);
      && Back(h, 0) == Back(h, 1) == Step(x, y, r) && Back(h, 2) == Step(x, y, r + 3)
      && Back(h, 3) == Step(x, y, r + 2) && Back(h, 4) == Step(x, y, r + 1)
  {
    LastSteps(x, y, m);
    FinaleAfterWaltz(x, y, m);
  }

  lemma {:induction false} FinaleStarts(x: string, y: string, m: nat)
    requires x != y && m >= 6
    ensures Passes(Finale(x, y, m, 1), m + 1)
  {
    FinaleShifts(x, y, m, (m - 1) % 4);
    RepeatPasses(Finale(x, y, m, 1), x, y, (m - 1) % 4);
  }

  lemma {:induction false} RepeatPasses(h: seq<string>, x: string, y: string, r: nat)
    requires x != y && r < 4 && |h| >= 5
    requires Back(h, 0) == Back(h, 1) == Step(x, y, r) && Back(h, 2) == Step(x, y, r + 3)
    requires Back(h, 3) == Step(x, y, r + 2) && Back(h, 4) == Step(x, y, r + 1)
    ensures Passes(h, |h|)
  {
    EqualPairPasses(h, if r == 0 || r == 3 then 2 else r + 2);
  }

  lemma {:induction false} FinaleAlternates(x: string, y: string, m: nat, j: nat)
    requires x != y && m >= 6 && 2 <= j <= PINGPONG
    ensures Passes(Finale(x, y, m, j), m + j)
  {
    var h := Finale(x, y, m, j);
    assert Back(h, 0) == FinaleStep(x, y, m, m + j - 1) && Back(h, 1) == FinaleStep(x, y, m, m + j - 2);
    assert Back(h, j) == FinaleStep(x, y, m, m - 1);
    BrokenBeatPasses(h, j);
  }

  lemma {:induction false} FinaleStepPasses(x: string, y: string, m: nat, j: nat)
    requires x != y && m >= 6 && 0 < j <= PINGPONG
    ensures Passes(Finale(x, y, m, j), m + j)
  {
    if j == 1 {
      FinaleStarts(x, y, m);
    } else {
      FinaleAlternates(x, y, m, j);
    }
  }

  lemma {:induction false} FinalePrefix(x: string, y: string, m: nat, k: nat)
    requires m > 0 && k <= m + PINGPONG
    ensures Finale(x, y, m, PINGPONG)[..k] == if k <= m then Waltz(x, y, k) else Finale(x, y, m, k - m)
  {
  }

  lemma {:induction false} FinalePasses(x: string, y: string, m: nat)
    requires x != y && m >= 6
    ensures LetThrough(Finale(x, y, m, PINGPONG))
  {
    var h := Finale(x, y, m, PINGPONG);
    forall k | 0 < k <= |h|
      ensures Passes(h, k)
    {
      PassesPrefix(h, k);
      FinalePrefix(x, y, m, k);
      if k <= m {
        WaltzStepPasses(x, y, k);
      } else {
        FinaleStepPasses(x, y, m, k - m);
      }
    }
  }

  lemma {:induction false} FinaleEndsInSix(x: string, y: string, m: nat, i: nat)
    requires x != y && m >= 6 && i < PINGPONG
    ensures var h := Finale(x, y, m, PINGPONG); Back(h, i) == Beat(h, i) && Back(h, 0) != Back(h, 1)
  {
    var h := Finale(x, y, m, PINGPONG);
    assert Back(h, i) == FinaleStep(x, y, m, m + 5 - i);
    assert Back(h, 0) == FinaleStep(x, y, m, m + 5) && Back(h, 1) == FinaleStep(x, y, m, m + 4);
  }

  /** Beyond eleven calls the header's rule is missed at every length: six alternating calls can pass. */
  lemma {:induction false} HeaderRuleMissed(n: nat)
    requires n >= 12
    ensures exists h :: |h| == n && LetThrough(h) && SixAlternate(h)
  {
    var m := n - PINGPONG;
    var h := Finale("a", "b", m, PINGPONG);
    FinalePasses("a", "b", m);
    forall i | 0 <= i < PINGPONG
      ensures Back(h, i) == Beat(h, i) && Back(h, 0) != Back(h, 1)
    {
      FinaleEndsInSix("a", "b", m, i);
    }
    assert Back(h, 0) == Beat(h, 0);
    assert SixAlternate(h);
  }
}
