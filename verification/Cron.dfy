/** The cron scheduler (src/cron/cron.c): next-run arithmetic, the task table and its text file. */
module Cron {
  import opened Basics
  import opened CText

  const MAX_TASKS := 64
  const ID_SIZE := 64
  const EXPR_SIZE := 64
  const CMD_SIZE := 512
  const LINE_ROOM := 1023     // fgets(line, 1024)

  const BLANKS: set<char> := {' ', '\t'}
  const BAR: set<char> := {'|'}
  const BAR_OR_EOL: set<char> := {'|', '\n'}

  datatype Task = Task(
    id: string, expr: string, cmd: string, enabled: bool,
    lastRun: nat, nextRun: nat, runs: nat, fails: nat)

  // ---------------------------------------------------------------- next run

  /** All strtok tokens of `s`. */
  function Tokens(s: string, delims: set<char>): (ts: seq<string>)
    decreases |s|
  {
    var (t, rest) := Strtok(s, delims);
    if t.None? then [] else [t.value] + Tokens(rest, delims)
  }

  function IntervalOf(ts: seq<string>): (i: nat)
    requires |ts| >= 5
    ensures i == 60 || i == 3600
  {
    var hour := Bounded(ts[1], 32);
    if hour != "*" && 0 <= Atoi(hour) <= 23 then 3600 else 60
  }

  /** The period of an expression: Some(interval) for five or more fields. */
  function Period(expr: string): (p: Option<nat>)
    ensures p.Some? ==> p.value == 60 || p.value == 3600
  {
    var ts := Tokens(expr, BLANKS);
    if |ts| < 5 then None else Some(IntervalOf(ts))
  }

  function NextRun(expr: string, from: nat): nat {
    match Period(expr)
    case None => from + 60
    case Some(i) => (from / i + 1) * i
  }

  /** Time `t` belongs to an earlier period than time `u` under `expr`. */
  predicate Earlier(expr: string, t: nat, u: nat) {
    match Period(expr)
    case None => t + 60 <= u
    case Some(i) => t / i < u / i
  }

  lemma {:induction false} BucketOfNext(from: nat, i: nat)
    requires i == 60 || i == 3600
    ensures (from / i + 1) * i / i == from / i + 1
    ensures from < (from / i + 1) * i <= from + i
  {
    if i == 60 {
    } else {
    }
  }

  /** The next run lies strictly ahead, in the following period, at most one interval away. */
  lemma {:induction false} NextRunIsAhead(expr: string, from: nat)
    ensures from < NextRun(expr, from) <= from + 3600
    ensures forall t: nat | t <= from :: Earlier(expr, t, NextRun(expr, from))
    ensures Period(expr).Some? ==> NextRun(expr, from) % Period(expr).value == 0
  {
    match Period(expr) {
      case None =>
      case Some(i) =>
        BucketOfNext(from, i);
        forall t: nat | t <= from
          ensures t / i <= from / i
        {
        }
    }
  }

  lemma {:induction false} EarlierExtends(expr: string, t: nat, u: nat, v: nat)
    requires Earlier(expr, t, u) && u <= v
    ensures Earlier(expr, t, v)
  {
    match Period(expr) {
      case None =>
      case Some(i) => assert u / i <= v / i;
    }
  }

  ghost function Pending(token: Option<string>, rest: string): seq<string> {
    if token.Some? then [token.value] + Tokens(rest, BLANKS) else []
  }

  /** The first tokens, at most six, each cut to its 32-byte field. */
  function Fields(ts: seq<string>): (fs: seq<string>)
    ensures |fs| == if |ts| < 6 then |ts| else 6
    ensures forall k :: 0 <= k < |fs| ==> fs[k] == Bounded(ts[k], 32)
  {
    seq(if |ts| < 6 then |ts| else 6, k requires 0 <= k < |ts| => Bounded(ts[k], 32))
  }

  lemma {:induction false} TakeOne(raw: seq<string>, token: Option<string>, rest: string)
    requires token.Some?
    ensures raw + Pending(token, rest) == raw + [token.value] + Tokens(rest, BLANKS)
  {
  }

  lemma {:induction false} PendingNext(rest: string)
    ensures var (t, r) := Strtok(rest, BLANKS); Tokens(rest, BLANKS) == Pending(t, r)
  {
  }

  /** The token loop. */
  method SplitFields(expr: string) returns (fields: seq<string>)
    ensures fields == Fields(Tokens(expr, BLANKS))
  {
    fields := [];
    var (token, rest) := Strtok(expr, BLANKS);
    ghost var raw: seq<string> := [];
    PendingNext(expr);
    while token.Some? && |fields| < 6
      invariant |raw| == |fields| <= 6
      invariant Tokens(expr, BLANKS) == raw + Pending(token, rest)
      invariant forall k :: 0 <= k < |fields| ==> fields[k] == Bounded(raw[k], 32)
      decreases 6 - |fields|
    {
      TakeOne(raw, token, rest);
      PendingNext(rest);
      raw := raw + [token.value];
      fields := fields + [Bounded(token.value, 32)];
      var (t, r) := Strtok(rest, BLANKS);
      token, rest := t, r;
    }
  }

  /** calculate_next_run with its token loop; only the first six tokens are looked at. */
  method CalculateNextRun(expr: string, from: nat) returns (next: nat)
    ensures next == NextRun(expr, from)
  {
    var fields := SplitFields(expr);
    if |fields| < 5 {
      return from + 60;
    }
    var interval := 60;
    if fields[1] != "*" {
      var val := Atoi(fields[1]);
      if 0 <= val <= 23 {
        interval := 3600;
      }
    }
    next := (from / interval + 1) * interval;
  }
}
