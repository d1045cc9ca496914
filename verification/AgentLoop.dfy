/**
 * The tool-call loop and the attention loop of the agent (src/agent/agent.c), for every provider, every tool
 * and every verdict of the loop guard, which turns of other threads share. `AgentGuard` puts the guard itself
 * behind the verdicts.
 */
module AgentLoop {
  import opened Basics
  import opened CText
  import LoopGuard
  import opened AgentHistory

  const MAX_ITERATIONS := 50
  const MAX_TOOL_CALLS := 16
  const CONTENT_SIZE := 8192
  const TOOL_MESSAGE_SIZE := 12288
  const DEFAULT_ROUNDS := 5
  const MARKER := "[TASK_COMPLETE]"

  // ---------------------------------------------------------------- the world outside

  datatype Call = Call(name: string, arguments: string)

  /** A provider's reply; `calls` are its tool calls as the dispatcher in use reads them. */
  datatype Reply = Reply(content: string, calls: seq<Call>)

  /**
   * The n-th reply the provider gives and the n-th result a tool returns, both arbitrary; `error` holds
   * the fixed texts reported when a turn fails. For the turn that starts at reply `from`, `pass(from, i)` is
   * the guard's verdict on its check number `i`, and `reason(from)` what the guard reports after a refusal:
   * arbitrary too, since other turns reset the guard and add to it in between.
   */
  datatype World = World(hasKey: bool, reply: nat -> Reply, tool: nat -> string, error: Outcome -> string,
                         pass: (nat, nat) -> bool, reason: nat -> LoopGuard.Reason)

  datatype Outcome = NoKey | Failed | Answered | Tripped | Exhausted {
    function Code(): int {
      if Answered? || Tripped? then 0 else -1
    }
  }

  // ---------------------------------------------------------------- what a turn does

  /** The calls of one reply that the loop looks at. */
  function Taken(r: Reply): (calls: seq<Call>)
    ensures calls <= r.calls && |calls| <= MAX_TOOL_CALLS
    ensures |calls| < |r.calls| ==> |calls| == MAX_TOOL_CALLS == 16
  {
    if |r.calls| <= MAX_TOOL_CALLS then r.calls else r.calls[..MAX_TOOL_CALLS]
  }

  /** The calls of replies `from` to `from + k`, in order. */
  function Offered(w: World, from: nat, k: nat): (calls: seq<Call>)
    ensures |calls| <= MAX_TOOL_CALLS * k
  {
    if k == 0 then [] else Offered(w, from, k - 1) + Taken(w.reply(from + k - 1))
  }

  predicate Calling(r: Reply) {
    r.content != "" && r.calls != []
  }

  /** Replies `from` to `from + k` all ask for tools. */
  ghost predicate AllCalling(w: World, from: nat, k: nat) {
    k == 0 || (AllCalling(w, from, k - 1) && Calling(w.reply(from + k - 1)))
  }

  /** What one turn did: replies consumed, tools run, how it ended. */
  datatype Trace = Trace(asked: nat, executed: seq<Call>, outcome: Outcome)

  /** Where a turn stopped, told from the replies; the guard is left open. */
  ghost predicate Shape(w: World, from: nat, t: Trace) {
    match t.outcome
    case NoKey =>
      !w.hasKey && t.asked == 0 && t.executed == []
    case Failed =>
      && w.hasKey && 1 <= t.asked <= MAX_ITERATIONS && AllCalling(w, from, t.asked - 1)
      && w.reply(from + t.asked - 1).content == ""
      && t.executed == Offered(w, from, t.asked - 1)
    case Answered =>
      && w.hasKey && 1 <= t.asked <= MAX_ITERATIONS && AllCalling(w, from, t.asked - 1)
      && w.reply(from + t.asked - 1).content != "" && w.reply(from + t.asked - 1).calls == []
      && t.executed == Offered(w, from, t.asked - 1)
    case Exhausted =>
      && w.hasKey && t.asked == MAX_ITERATIONS && AllCalling(w, from, t.asked)
      && t.executed == Offered(w, from, t.asked)
    case Tripped =>
      && w.hasKey && 1 <= t.asked <= MAX_ITERATIONS && AllCalling(w, from, t.asked)
      && Offered(w, from, t.asked - 1) <= t.executed < Offered(w, from, t.asked)
  }

  /** The first `n` checks of the turn are passed. */
  ghost predicate Passed(w: World, from: nat, n: nat) {
    forall i :: 0 <= i < n ==> w.pass(from, i)
  }

  /** The tools that were run and the point where the turn stopped, told from the replies and the verdicts. */
  ghost predicate Turn(w: World, from: nat, t: Trace) {
    Shape(w, from, t) && Passed(w, from, |t.executed|) && (t.outcome.Tripped? ==> !w.pass(from, |t.executed|))
  }

  /** The message a tool result becomes: formatted, then cut to the size of a message. */
  function ToolMessage(w: World, serial: nat, c: Call): Message {
    Message(Tool, Bounded(Bounded("Tool '" + c.name + "' returned: " + w.tool(serial), TOOL_MESSAGE_SIZE),
        CONTENT_SIZE))
  }

  /** The message of a tool begins with its name and holds as much of its result as fits 8191 characters. */
  lemma {:induction false} ToolMessageIs(w: World, serial: nat, c: Call)
    ensures ToolMessage(w, serial, c).role == Tool
    ensures ToolMessage(w, serial, c).content <= "Tool '" + c.name + "' returned: " + w.tool(serial)
    ensures var all := "Tool '" + c.name + "' returned: " + w.tool(serial);
      |ToolMessage(w, serial, c).content| == if |all| < 8192 then |all| else 8191
  {
  }

  function ToolMessages(w: World, serial: nat, calls: seq<Call>): (ms: seq<Message>)
    ensures |ms| == |calls|
  {
    if calls == [] then []
    else
      var n := |calls| - 1;
      ToolMessages(w, serial, calls[..n]) + [ToolMessage(w, serial + n, calls[n])]
  }

  /** The message an answer becomes. */
  function AnswerMessage(o: Outcome, response: string): seq<Message> {
    if o.Answered? then [Message(Assistant, Bounded(response, CONTENT_SIZE))] else []
  }

  function UserMessage(message: string): Message {
    Message(User, Bounded(message, CONTENT_SIZE))
  }

  // ---------------------------------------------------------------- consequences

  /** A turn ends within fifty replies and eight hundred tools, whatever the guard says. */
  lemma {:induction false} TurnBounds(w: World, from: nat, t: Trace)
    requires Turn(w, from, t)
    ensures t.asked <= MAX_ITERATIONS && |t.executed| <= MAX_TOOL_CALLS * t.asked <= 800
  {
  }

  lemma {:induction false} OfferedGrows(w: World, from: nat, j: nat, k: nat)
    requires j <= k
    ensures Offered(w, from, j) <= Offered(w, from, k)
    decreases k - j
  {
    if j < k {
      OfferedGrows(w, from, j, k - 1);
    }
  }

  lemma {:induction false} CallingAt(w: World, from: nat, k: nat, i: nat)
    requires AllCalling(w, from, k) && i < k
    ensures Calling(w.reply(from + i))
    decreases k
  {
    if i < k - 1 {
      CallingAt(w, from, k - 1, i);
    }
  }

  /** The tools run are always the first ones that the fifty possible replies ask for. */
  lemma {:induction false} ExecutedIsPrefix(w: World, from: nat, t: Trace)
    requires Shape(w, from, t)
    ensures t.executed <= Offered(w, from, MAX_ITERATIONS)
  {
    if t.asked > 0 {
      OfferedGrows(w, from, t.asked - 1, MAX_ITERATIONS);
      OfferedGrows(w, from, t.asked, MAX_ITERATIONS);
    }
  }

  lemma {:induction false} PrefixesNest<T>(a: seq<T>, b: seq<T>, all: seq<T>)
    requires a <= all && b <= all && |a| <= |b|
    ensures a <= b && (|a| == |b| ==> a == b)
  {
  }

  /** No turn gets past a call that is refused. */
  lemma {:induction false} TripStopsAll(w: World, from: nat, t: Trace, u: Trace)
    requires Turn(w, from, t) && t.outcome.Tripped? && Turn(w, from, u)
    ensures |u.executed| <= |t.executed|
  {
  }

  /** The number of replies before the one that ended the turn. */
  function Full(t: Trace): nat {
    if t.asked == 0 || t.outcome.Exhausted? then t.asked else t.asked - 1
  }

  /** How a turn ends whose first `full` replies all had their tools run. */
  function Ending(w: World, from: nat, full: nat): Outcome {
    if full >= MAX_ITERATIONS then Exhausted
    else if w.reply(from + full).content == "" then Failed
    else if w.reply(from + full).calls == [] then Answered
    else Tripped
  }

  lemma {:induction false} EndingIs(w: World, from: nat, t: Trace)
    requires w.hasKey && Turn(w, from, t)
    ensures t.outcome == Ending(w, from, Full(t)) && t.asked == Min(Full(t) + 1, MAX_ITERATIONS)
    ensures Full(t) <= MAX_ITERATIONS && AllCalling(w, from, Full(t))
  {
  }

  /** Short of the limit, only a trip ends a turn at a reply that asks for tools. */
  lemma {:induction false} EndingInside(w: World, from: nat, i: nat, k: nat)
    requires AllCalling(w, from, k) && i < k <= MAX_ITERATIONS
    ensures Ending(w, from, i) == Tripped
  {
    CallingAt(w, from, k, i);
  }

  lemma {:induction false} TripIsLast(w: World, from: nat, t: Trace, u: Trace)
    requires w.hasKey && Turn(w, from, t) && Turn(w, from, u) && t.outcome.Tripped?
    ensures Full(u) <= Full(t)
  {
    if Full(t) < Full(u) {
      TripStopsAll(w, from, t, u);
      OfferedGrows(w, from, t.asked, Full(u));
    }
  }

  /** The replies and the verdicts fix the turn: the rules of `Turn` leave nothing open. */
  lemma {:induction false} TurnIsDetermined(w: World, from: nat, t: Trace, u: Trace)
    requires Turn(w, from, t) && Turn(w, from, u)
    ensures t == u
  {
    if w.hasKey {
      EndingIs(w, from, t);
      EndingIs(w, from, u);
      if Full(t) < Full(u) {
        EndingInside(w, from, Full(t), Full(u));
        TripIsLast(w, from, t, u);
      } else if Full(u) < Full(t) {
        EndingInside(w, from, Full(u), Full(t));
        TripIsLast(w, from, u, t);
      } else {
        SameEnd(w, from, t, u);
      }
    }
  }

  lemma {:induction false} SameEnd(w: World, from: nat, t: Trace, u: Trace)
    requires w.hasKey && Turn(w, from, t) && Turn(w, from, u) && Full(t) == Full(u)
    ensures t == u
  {
    EndingIs(w, from, t);
    EndingIs(w, from, u);
    if t.outcome.Tripped? {
      TripStopsAll(w, from, t, u);
      TripStopsAll(w, from, u, t);
      PrefixesNest(t.executed, u.executed, Offered(w, from, t.asked));
    }
  }

  /** The first check from `start` on that is refused, if one before `end` is. */
  lemma {:induction false} FirstRefusal(w: World, from: nat, start: nat, end: nat) returns (n: nat)
    requires start <= end && Passed(w, from, start)
    ensures start <= n <= end && Passed(w, from, n) && (n < end ==> !w.pass(from, n))
    decreases end - start
  {
    n := start;
    if start < end && w.pass(from, start) {
      n := FirstRefusal(w, from, start + 1, end);
    }
  }

  /** And they leave a turn possible: each reply has its next step. */
  lemma {:induction false} TurnFrom(w: World, from: nat, k: nat) returns (t: Trace)
    requires w.hasKey && k <= MAX_ITERATIONS && AllCalling(w, from, k) && Passed(w, from, |Offered(w, from, k)|)
    ensures Turn(w, from, t)
    decreases MAX_ITERATIONS - k
  {
    var o := Ending(w, from, k);
    if o.Tripped? {
      var all := Offered(w, from, k + 1);
      var n := FirstRefusal(w, from, |Offered(w, from, k)|, |all|);
      if n < |all| {
        TripIsTurn(w, from, k, n);
        t := Trace(k + 1, all[..n], Tripped);
      } else {
        t := TurnFrom(w, from, k + 1);
      }
    } else {
      PlainTurn(w, from, k, o);
      t := Trace(if o.Exhausted? then k else k + 1, Offered(w, from, k), o);
    }
  }

  /** For all replies and all verdicts there is a turn, so there is exactly one. */
  lemma {:induction false} TurnExists(w: World, from: nat)
    ensures exists t :: Turn(w, from, t)
  {
    if w.hasKey {
      var t := TurnFrom(w, from, 0);
    } else {
      assert Turn(w, from, Trace(0, [], NoKey));
    }
  }

  // ---------------------------------------------------------------- steps of a turn

  lemma {:induction false} ToolMessagesSnoc(w: World, log: seq<Message>, serial: nat, calls: seq<Call>, i: nat)
    requires i < |calls|
    ensures log + ToolMessages(w, serial, calls[..i + 1]) ==
            log + ToolMessages(w, serial, calls[..i]) + [ToolMessage(w, serial + i, calls[i])]
  {
    assert calls[..i + 1][..i] == calls[..i];
  }

  /** A call that trips the guard ends the turn there. */
  lemma {:induction false} TripIsTurn(w: World, from: nat, k: nat, n: nat)
    requires w.hasKey && k < MAX_ITERATIONS && AllCalling(w, from, k + 1)
    requires |Offered(w, from, k)| <= n < |Offered(w, from, k + 1)|
    requires Passed(w, from, n) && !w.pass(from, n)
    ensures Turn(w, from, Trace(k + 1, Offered(w, from, k + 1)[..n], Tripped))
  {
    assert Offered(w, from, k) <= Offered(w, from, k + 1)[..n] < Offered(w, from, k + 1);
  }

  /** So does a reply without content or without calls, and the last of fifty. */
  lemma {:induction false} PlainTurn(w: World, from: nat, k: nat, o: Outcome)
    requires w.hasKey && AllCalling(w, from, k) && Passed(w, from, |Offered(w, from, k)|)
    requires o.Failed? || o.Answered? ==> k < MAX_ITERATIONS
    requires o.Failed? ==> w.reply(from + k).content == ""
    requires o.Answered? ==> w.reply(from + k).content != "" && w.reply(from + k).calls == []
    requires o.Exhausted? ==> k == MAX_ITERATIONS
    requires o.Failed? || o.Answered? || o.Exhausted?
    ensures Turn(w, from, Trace(if o.Exhausted? then k else k + 1, Offered(w, from, k), o))
  {
  }

  // ---------------------------------------------------------------- the loops

  function ReasonText(r: LoopGuard.Reason): string {
    match r
    case NoReason => ""
    case SameTool(n) => Bounded("same tool '" + n + "' 5 times in a row", 128)
    case Between(a, b) => Bounded("ping-pong loop between '" + a + "' and '" + b + "'", 128)
  }

  function TripText(r: LoopGuard.Reason): string {
    var reason := ReasonText(r);
    "Loop guard tripped: " + if reason != "" then reason else "repeated or ping-pong tool calls"
  }

  datatype AgentState = Idle | Thinking

  /** The full text of the response; the caller's buffer may cut it. */
  function Said(w: World, from: nat, t: Trace): string {
    if t.outcome.Answered? then (if t.asked == 0 then "" else w.reply(from + t.asked - 1).content)
    else if t.outcome.Tripped? then TripText(w.reason(from))
    else w.error(t.outcome)
  }

  /** strstr. */
  predicate Contains(s: string, m: string) {
    |m| <= |s| && (s[..|m|] == m || Contains(s[1..], m))
  }

  /** The text `m` stands somewhere in `s`. */
  ghost predicate Within(s: string, m: string) {
    exists a, b :: s == a + m + b
  }

  predicate StandsAt(s: string, m: string, i: int) {
    0 <= i <= |s| - |m| && s[i..i + |m|] == m
  }

  lemma {:induction false} ContainsAt(s: string, m: string) returns (i: nat)
    requires Contains(s, m)
    ensures StandsAt(s, m, i)
    decreases |s|
  {
    i := 0;
    if s[..|m|] != m {
      var j := ContainsAt(s[1..], m);
      i := j + 1;
      assert s[i..i + |m|] == s[1..][j..j + |m|];
    }
  }

  lemma {:induction false} AtIsWithin(s: string, m: string, i: int)
    requires StandsAt(s, m, i)
    ensures Within(s, m)
  {
    assert s == s[..i] + m + s[i + |m|..];
  }

  lemma {:induction false} WithinContains(a: string, m: string, b: string)
    ensures Contains(a + m + b, m)
    decreases a
  {
    var s := a + m + b;
    if a == "" {
      assert s[..|m|] == m;
    } else {
      assert s[1..] == a[1..] + m + b;
      WithinContains(a[1..], m, b);
    }
  }

  /** strstr finds a text exactly if it is there. */
  lemma {:induction false} ContainsIs(s: string, m: string)
    ensures Contains(s, m) <==> Within(s, m)
    ensures Contains(s, m) <==> exists i :: StandsAt(s, m, i)
  {
    if Contains(s, m) {
      var i := ContainsAt(s, m);
      AtIsWithin(s, m, i);
    }
    if Within(s, m) {
      var a, b :| s == a + m + b;
      WithinContains(a, m, b);
      assert StandsAt(s, m, |a|);
    }
    if i :| StandsAt(s, m, i) {
      assert s == s[..i] + m + s[i + |m|..];
      WithinContains(s[..i], m, s[i + |m|..]);
    }
  }

  /** One attention round: the reply it starts at, what it did and what it said. */
  datatype Round = Round(start: nat, trace: Trace, response: string)

  /** The attention loop goes on after a turn that succeeded without naming the task complete. */
  predicate GoesOn(r: Round) {
    r.trace.outcome.Code() == 0 && !Contains(r.response, MARKER)
  }

  predicate Reports(r: Round, code: int, response: string) {
    r.response == response && r.trace.outcome.Code() == code
  }

  /** The last round reports `code` and `response`, all before it went on, and it goes on if `on`. */
  predicate Closes(rounds: seq<Round>, code: int, response: string, on: bool) {
    && rounds != [] && AllGoOn(rounds[..|rounds| - 1]) && (on ==> AllGoOn(rounds))
    && Reports(rounds[|rounds| - 1], code, response) && on == GoesOn(rounds[|rounds| - 1])
  }

  /** The round failed, or its response names the task complete. */
  ghost predicate Final(r: Round) {
    r.trace.outcome.Failed? || r.trace.outcome.NoKey? || r.trace.outcome.Exhausted?
    || Within(r.response, "[TASK_COMPLETE]")
  }

  lemma {:induction false} FinalIs(r: Round)
    ensures Final(r) <==> !GoesOn(r)
  {
    ContainsIs(r.response, MARKER);
  }

  /** Only the last round is final, if any; short of `n` rounds it is. */
  ghost predicate EndsRightly(rounds: seq<Round>, n: nat) {
    && (forall i :: 0 <= i < |rounds| - 1 ==> !Final(rounds[i]))
    && 0 < |rounds| <= n && (|rounds| < n ==> Final(rounds[|rounds| - 1]))
  }

  lemma {:induction false} GoOnAt(rounds: seq<Round>, i: nat)
    requires AllGoOn(rounds) && i < |rounds|
    ensures GoesOn(rounds[i])
    decreases |rounds|
  {
    if i < |rounds| - 1 {
      GoOnAt(rounds[..|rounds| - 1], i);
    }
  }

  lemma {:induction false} ClosesRightly(rounds: seq<Round>, code: int, response: string, on: bool, n: nat)
    requires Closes(rounds, code, response, on) && |rounds| <= n && (on ==> |rounds| == n)
    ensures EndsRightly(rounds, n)
  {
    var last := |rounds| - 1;
    forall i | 0 <= i < last
      ensures !Final(rounds[i])
    {
      GoOnAt(rounds[..last], i);
      FinalIs(rounds[i]);
    }
    FinalIs(rounds[last]);
  }

  function Limit(maxRounds: int): (n: nat)
    ensures n >= 1
  {
    if maxRounds > 0 then maxRounds else DEFAULT_ROUNDS
  }

  function Replies(rounds: seq<Round>): nat {
    if rounds == [] then 0 else Replies(rounds[..|rounds| - 1]) + rounds[|rounds| - 1].trace.asked
  }

  function Executions(rounds: seq<Round>): nat {
    if rounds == [] then 0 else Executions(rounds[..|rounds| - 1]) + |rounds[|rounds| - 1].trace.executed|
  }

  /** Each round is a turn that starts at the reply where the round before stopped. */
  ghost predicate Rounds(w: World, from: nat, rounds: seq<Round>) {
    Linked(from, rounds) && forall r <- rounds :: Turn(w, r.start, r.trace)
  }

  predicate Linked(from: nat, rounds: seq<Round>) {
    rounds == [] ||
    var before := rounds[..|rounds| - 1];
    Linked(from, before) && rounds[|rounds| - 1].start == from + Replies(before)
  }

  /** What is asked in round number `i`. */
  function Prompt(opening: string, further: string, i: nat): string {
    if i == 0 then opening else further
  }

  /** The non-system messages that a turn adds. */
  function TurnLog(w: World, serial: nat, message: string, r: Round): seq<Message> {
    [UserMessage(message)] + ToolMessages(w, serial, r.trace.executed) + AnswerMessage(r.trace.outcome, r.response)
  }

  /** The non-system messages that the rounds of a task add. */
  function TaskLog(w: World, serial: nat, opening: string, further: string, rounds: seq<Round>): seq<Message> {
    if rounds == [] then []
    else
      var before := rounds[..|rounds| - 1];
      TaskLog(w, serial, opening, further, before)
      + TurnLog(w, serial + Executions(before), Prompt(opening, further, |before|), rounds[|rounds| - 1])
  }

  /** Where a task starts: the next reply, the tool runs and messages so far, and what is to be asked. */
  datatype Start = Start(asked: nat, toolCalls: nat, log: seq<Message>, opening: string, further: string)

  /** The counters and the log are what the start and the rounds since make them. */
  ghost predicate Tally(w: World, st: Start, rounds: seq<Round>, asked: nat, toolCalls: nat, log: seq<Message>) {
    && Rounds(w, st.asked, rounds)
    && asked == st.asked + Replies(rounds) && toolCalls == st.toolCalls + Executions(rounds)
    && log == st.log + TaskLog(w, st.toolCalls, st.opening, st.further, rounds)
  }

  lemma {:induction false} TallyStarts(w: World, st: Start)
    ensures Tally(w, st, [], st.asked, st.toolCalls, st.log)
  {
    assert st.log + [] == st.log;
  }

  lemma {:induction false} LogGrows(w: World, st: Start, rounds: seq<Round>, r: Round, serial: nat, message: string,
                                    log: seq<Message>)
    requires log == st.log + TaskLog(w, st.toolCalls, st.opening, st.further, rounds)
    requires serial == st.toolCalls + Executions(rounds) && message == Prompt(st.opening, st.further, |rounds|)
    ensures log + [UserMessage(message)] + ToolMessages(w, serial, r.trace.executed)
            + AnswerMessage(r.trace.outcome, r.response) ==
            st.log + TaskLog(w, st.toolCalls, st.opening, st.further, rounds + [r])
  {
    assert (rounds + [r])[..|rounds|] == rounds;
    var before, tools := TaskLog(w, st.toolCalls, st.opening, st.further, rounds), ToolMessages(w, serial,
        r.trace.executed);
    RegroupTurn(st.log, before, [UserMessage(message)], tools, AnswerMessage(r.trace.outcome, r.response));
  }

  lemma {:induction false} TallyGrows(w: World, st: Start, rounds: seq<Round>, r: Round, message: string, asked: nat,
                                      serial: nat, log: seq<Message>)
    requires Tally(w, st, rounds, asked, serial, log) && message == Prompt(st.opening, st.further, |rounds|)
    requires r.start == asked
    ensures Turn(w, asked, r.trace) ==>
              Tally(w, st, rounds + [r], asked + r.trace.asked, serial + |r.trace.executed|,
                    log + [UserMessage(message)] + ToolMessages(w, serial, r.trace.executed)
                    + AnswerMessage(r.trace.outcome, r.response))
  {
    RoundsSnoc(st.asked, rounds, r);
    LogGrows(w, st, rounds, r, serial, message, log);
  }

  lemma {:induction false} RegroupTurn<T>(a: seq<T>, b: seq<T>, c: seq<T>, d: seq<T>, e: seq<T>)
    ensures a + b + c + d + e == a + (b + (c + d + e))
  {
  }

  predicate AllGoOn(rounds: seq<Round>) {
    rounds == [] || (AllGoOn(rounds[..|rounds| - 1]) && GoesOn(rounds[|rounds| - 1]))
  }

  lemma {:induction false} RoundsSnoc(from: nat, rounds: seq<Round>, r: Round)
    requires Linked(from, rounds) && r.start == from + Replies(rounds)
    ensures Linked(from, rounds + [r])
    ensures Replies(rounds + [r]) == Replies(rounds) + r.trace.asked
    ensures Executions(rounds + [r]) == Executions(rounds) + |r.trace.executed|
  {
    assert (rounds + [r])[..|rounds|] == rounds;
  }

  lemma {:induction false} AllGoOnSnoc(rounds: seq<Round>, r: Round)
    requires AllGoOn(rounds) && GoesOn(r)
    ensures AllGoOn(rounds + [r])
  {
    assert (rounds + [r])[..|rounds|] == rounds;
  }

  /** A task of n rounds costs at most 50 n replies and 800 n tool runs. */
  lemma {:induction false} RoundBounds(w: World, from: nat, rounds: seq<Round>)
    requires Rounds(w, from, rounds)
    ensures Replies(rounds) <= MAX_ITERATIONS * |rounds| && Executions(rounds) <= 800 * |rounds|
    decreases rounds
  {
    if rounds != [] {
      var before := rounds[..|rounds| - 1];
      RoundBounds(w, from, before);
      TurnBounds(w, rounds[|rounds| - 1].start, rounds[|rounds| - 1].trace);
    }
  }

  class Agent {
    var messages: seq<Message>
    var toolCalls: nat
    var asked: nat                  // replies consumed so far: the index of the next one
    var state: AgentState
    var focus: bool
    var maxRounds: int
    ghost var log: seq<Message>     // every non-system message added since the agent was made

    ghost const systems: seq<Message>    // the system messages, which nothing here changes

    /** The context is the system messages and a final stretch of the log. */
    ghost predicate Kept()
      reads this
    {
      Chronicle(messages, log) && Systems(messages) == systems
    }

    /** A new agent has the system prompt alone. */
    constructor (prompt: string, maxRounds: int)
      ensures Kept() && log == [] && this.maxRounds == maxRounds
      ensures messages == [Message(System, Bounded(prompt, CONTENT_SIZE))]
    {
      var m := Message(System, Bounded(prompt, CONTENT_SIZE));
      this.maxRounds, state, focus, toolCalls, asked := maxRounds, Idle, false, 0, 0;
      messages, log, systems := [m], [], [m];
      new;
      assert Pick([], false) == [] && Pick([], true) == [] && [m][..0] == [];
      assert Newest(Others(messages), log, 0);
    }

    method AddMessage(role: Role, content: string)
      requires Kept() && role != System
      modifies this`messages, this`log
      ensures Kept()
      ensures log == old(log) + [Message(role, Bounded(content, CONTENT_SIZE))]
    {
      var m := Message(role, Bounded(content, CONTENT_SIZE));
      AddKeepsChronicle(messages, log, m);
      messages := messages + [m];
      log := log + [m];
    }

    method Trim()
      requires Kept()
      modifies this`messages
      ensures Kept()
      ensures |Others(messages)| <= MAX_HISTORY
    {
      TrimmedKeeps(messages);
      TrimKeepsChronicle(messages, log);
      messages := TrimHistory(messages);
    }

    method Conclude(response: string)
      requires Kept()
      modifies this`messages, this`log
      ensures Kept()
      ensures log == old(log) + AnswerMessage(Answered, response) && |Others(messages)| <= MAX_HISTORY
    {
      AddMessage(Assistant, response);
      Trim();
    }

    /** What the agent holds once the guard let exactly `ran` through in this turn. */
    ghost predicate Ran(w: World, from: nat, serial: nat, base: seq<Message>, ran: seq<Call>)
      reads this
    {
      && Kept() && Passed(w, from, |ran|)
      && toolCalls == serial + |ran| && log == base + ToolMessages(w, serial, ran)
    }

    /** Call number `i` of the turn: put to the guard, and run unless the guard refuses. */
    method RunCall(w: World, c: Call, from: nat, serial: nat, ghost base: seq<Message>, ghost all: seq<Call>,
                   ghost i: nat)
      returns (ok: bool)
      requires i < |all| && c == all[i] && Ran(w, from, serial, base, all[..i])
      modifies this`messages, this`log, this`toolCalls
      ensures ok == w.pass(from, i)
      ensures Ran(w, from, serial, base, if ok then all[..i + 1] else all[..i])
    {
      ToolMessagesSnoc(w, base, serial, all, i);
      ok := w.pass(from, toolCalls - serial);
      if ok {
        var text := Bounded("Tool '" + c.name + "' returned: " + w.tool(toolCalls), TOOL_MESSAGE_SIZE);
        AddMessage(Tool, text);
        toolCalls := toolCalls + 1;
      }
    }

    /** The calls of one reply, from number `start` of the turn's calls on, up to one that is refused. */
    method RunCalls(w: World, calls: seq<Call>, from: nat, serial: nat, ghost base: seq<Message>,
                    ghost all: seq<Call>, ghost start: nat)
      returns (ok: bool, ghost end: nat)
      requires start <= |all| && calls == all[start..] && Ran(w, from, serial, base, all[..start])
      modifies this`messages, this`log, this`toolCalls
      ensures start <= end <= |all| && ok == (end == |all|) && Ran(w, from, serial, base, all[..end])
      ensures !ok ==> !w.pass(from, end)
    {
      var i := 0;
      ok, end := true, start;
      while i < |calls|
        invariant 0 <= i <= |calls| && end == start + i
        invariant Ran(w, from, serial, base, all[..end])
      {
        ok := RunCall(w, calls[i], from, serial, base, all, end);
        if !ok {
          return;
        }
        i, end := i + 1, end + 1;
      }
      ok := true;
    }

    /** Before iteration `k`: the replies so far all asked for tools, and all those tools were run. */
    ghost predicate Running(w: World, from: nat, serial: nat, base: seq<Message>, k: nat)
      reads this
    {
      && w.hasKey && AllCalling(w, from, k) && asked == from + k
      && Ran(w, from, serial, base, Offered(w, from, k))
    }

    /** The turn is over: what it did, what it left and what it says. */
    ghost predicate Ended(w: World, from: nat, serial: nat, base: seq<Message>, t: Trace, response: string, size: nat)
      requires size > 0
      reads this
    {
      && Kept() && Turn(w, from, t) && asked == from + t.asked && toolCalls == serial + |t.executed|
      && log == base + ToolMessages(w, serial, t.executed) + AnswerMessage(t.outcome, response)
      && (t.outcome.Answered? || t.outcome.Exhausted? ==> |Others(messages)| <= MAX_HISTORY)
      && response == Bounded(Said(w, from, t), size)
    }

    /** The tool calls of one reply, as calls of the turn. */
    method RunOffered(w: World, calls: seq<Call>, from: nat, serial: nat, ghost base: seq<Message>, ghost k: nat)
      returns (ok: bool, ghost end: nat)
      requires Running(w, from, serial, base, k) && calls == Taken(w.reply(from + k))
      modifies this`messages, this`log, this`toolCalls
      ensures |Offered(w, from, k)| <= end <= |Offered(w, from, k + 1)|
      ensures Ran(w, from, serial, base, Offered(w, from, k + 1)[..end])
      ensures ok ==> Ran(w, from, serial, base, Offered(w, from, k + 1))
      ensures !ok ==> end < |Offered(w, from, k + 1)| && !w.pass(from, end)
    {
      ghost var all, start := Offered(w, from, k + 1), |Offered(w, from, k)|;
      assert all[..start] == Offered(w, from, k) && all[start..] == calls && all[..|all|] == all;
      ok, end := RunCalls(w, calls, from, serial, base, all, start);
    }

    /** The tool calls of one reply, and the trim that follows when all of them ran. */
    method RunReply(w: World, calls: seq<Call>, from: nat, serial: nat, ghost base: seq<Message>, ghost k: nat)
      returns (ok: bool, ghost t: Trace)
      requires Running(w, from, serial, base, k) && k < MAX_ITERATIONS
      requires Calling(w.reply(from + k)) && calls == Taken(w.reply(from + k))
      modifies this`messages, this`log, this`toolCalls, this`asked
      ensures ok ==> Running(w, from, serial, base, k + 1) && |Others(messages)| <= MAX_HISTORY
      ensures !ok ==> Turn(w, from, t) && t.outcome == Tripped
      ensures !ok ==> asked == from + t.asked && Ran(w, from, serial, base, t.executed)
    {
      ghost var end;
      ok, end := RunOffered(w, calls, from, serial, base, k);
      asked := asked + 1;
      t := Trace(k + 1, Offered(w, from, k + 1)[..end], Tripped);
      if ok {
        Trim();
      } else {
        TripIsTurn(w, from, k, end);
      }
    }

    /** What is said after a refusal. */
    method Excuse(w: World, size: nat, from: nat, ghost serial: nat, ghost base: seq<Message>, ghost t: Trace)
      returns (response: string)
      requires Turn(w, from, t) && t.outcome == Tripped && size > 0
      requires asked == from + t.asked && Ran(w, from, serial, base, t.executed)
      ensures Ended(w, from, serial, base, t, response, size)
    {
      response := Bounded(TripText(w.reason(from)), size);
    }

    /** What is said after the last iteration. */
    method GiveUp(w: World, size: nat, ghost from: nat, ghost serial: nat, ghost base: seq<Message>, ghost k: nat)
      returns (response: string, ghost t: Trace)
      requires Running(w, from, serial, base, k) && |Others(messages)| <= MAX_HISTORY && size > 0
      requires MAX_ITERATIONS <= k <= MAX_ITERATIONS
      ensures Ended(w, from, serial, base, t, response, size) && t.outcome == Exhausted
    {
      PlainTurn(w, from, k, Exhausted);
      t := Trace(k, Offered(w, from, k), Exhausted);
      response := Bounded(w.error(Exhausted), size);
    }

    /** The last reply: text and no calls. */
    method Answer(w: World, reply: Reply, size: nat, ghost from: nat, ghost serial: nat, ghost base: seq<Message>,
                  ghost k: nat)
      returns (response: string, ghost t: Trace)
      requires Running(w, from, serial, base, k) && k < MAX_ITERATIONS && size > 0
      requires reply == w.reply(from + k) && reply.content != "" && reply.calls == []
      modifies this`messages, this`log, this`asked
      ensures Ended(w, from, serial, base, t, response, size) && t.outcome == Answered
    {
      t := Trace(k + 1, Offered(w, from, k), Answered);
      assert Turn(w, from, t) by {
        PlainTurn(w, from, k, Answered);
      }
      asked := asked + 1;
      response := Bounded(reply.content, size);
      Conclude(response);
    }

    /** A reply without content. */
    method Fail(w: World, size: nat, ghost from: nat, ghost serial: nat, ghost base: seq<Message>, ghost k: nat)
      returns (response: string, ghost t: Trace)
      requires Running(w, from, serial, base, k) && k < MAX_ITERATIONS && size > 0
      requires w.reply(from + k).content == ""
      modifies this`asked
      ensures Ended(w, from, serial, base, t, response, size) && t.outcome == Failed
    {
      PlainTurn(w, from, k, Failed);
      t := Trace(k + 1, Offered(w, from, k), Failed);
      asked := asked + 1;
      response := Bounded(w.error(Failed), size);
    }

    /** One reply: it ends the turn, or its tools run and the turn goes on. */
    method Iteration(w: World, size: nat, from: nat, serial: nat, ghost base: seq<Message>, ghost k: nat)
      returns (on: bool, outcome: Outcome, response: string, ghost t: Trace)
      requires Running(w, from, serial, base, k) && k < MAX_ITERATIONS && size > 0
      modifies this`messages, this`log, this`toolCalls, this`asked
      ensures on ==> Running(w, from, serial, base, k + 1) && |Others(messages)| <= MAX_HISTORY
      ensures !on ==> Ended(w, from, serial, base, t, response, size) && t.outcome == outcome
    {
      var reply := w.reply(asked);
      on := false;
      if reply.content == "" {
        outcome := Failed;
        response, t := Fail(w, size, from, serial, base, k);
      } else if |Taken(reply)| == 0 {
        outcome := Answered;
        response, t := Answer(w, reply, size, from, serial, base, k);
      } else {
        outcome, response := Tripped, "";
        on, t := RunReply(w, Taken(reply), from, serial, base, k);
        if !on {
          response := Excuse(w, size, from, serial, base, t);
        }
      }
    }

    /** The loop over provider replies; still `on` after the last iteration, the turn has run out of them. */
    method Loop(w: World, size: nat, from: nat, serial: nat, ghost base: seq<Message>)
      returns (on: bool, outcome: Outcome, response: string, ghost t: Trace, ghost k: nat)
      requires Running(w, from, serial, base, 0) && size > 0
      modifies this`messages, this`log, this`toolCalls, this`asked
      ensures on ==> Running(w, from, serial, base, k) && |Others(messages)| <= MAX_HISTORY && k >= MAX_ITERATIONS
      ensures k <= MAX_ITERATIONS
      ensures !on ==> Ended(w, from, serial, base, t, response, size) && t.outcome == outcome
    {
      var iteration := 0;
      on, outcome, response, t := true, Exhausted, "", Trace(0, [], Exhausted);
      while iteration < MAX_ITERATIONS
        invariant 0 <= iteration <= MAX_ITERATIONS && on
        invariant Running(w, from, serial, base, iteration) && (iteration > 0 ==> |Others(messages)| <= MAX_HISTORY)
      {
        k := iteration;
        on, outcome, response, t := Iteration(w, size, from, serial, base, iteration);
        if !on {
          return;
        }
        iteration := iteration + 1;
      }
      k := iteration;
    }

    method Iterate(w: World, size: nat, from: nat, serial: nat, ghost base: seq<Message>)
      returns (outcome: Outcome, response: string, ghost t: Trace)
      requires Running(w, from, serial, base, 0) && size > 0
      modifies this`messages, this`log, this`toolCalls, this`asked
      ensures Ended(w, from, serial, base, t, response, size) && t.outcome == outcome
    {
      var on;
      ghost var k;
      on, outcome, response, t, k := Loop(w, size, from, serial, base);
      if on {
        outcome := Exhausted;
        response, t := GiveUp(w, size, from, serial, base, k);
      }
    }

    /** agent_think_with_tools. */
    method Think(w: World, message: string, size: nat) returns (outcome: Outcome, response: string, ghost t: Trace)
      requires Kept() && size > 0
      modifies this`messages, this`log, this`toolCalls, this`asked
      ensures Ended(w, old(asked), old(toolCalls), old(log) + [UserMessage(message)], t, response, size)
      ensures t.outcome == outcome
      ensures asked <= old(asked) + MAX_ITERATIONS && toolCalls <= old(toolCalls) + 800
    {
      AddMessage(User, message);
      if w.hasKey {
        outcome, response, t := Iterate(w, size, asked, toolCalls, log);
      } else {
        outcome := NoKey;
        response := Bounded(w.error(NoKey), size);
        t := Trace(0, [], NoKey);
      }
      TurnBounds(w, old(asked), t);
    }

    /** The rounds so far, each a whole turn, with their messages. */
    ghost predicate Attended(w: World, st: Start, rounds: seq<Round>)
      reads this
    {
      Kept() && Tally(w, st, rounds, asked, toolCalls, log)
    }

    /** One round. */
    method AttendOnce(w: World, message: string, size: nat, ghost st: Start, ghost rounds: seq<Round>)
      returns (code: int, response: string, ghost r: Round)
      requires Attended(w, st, rounds) && size > 0
      requires message == Prompt(st.opening, st.further, |rounds|)
      modifies this`messages, this`log, this`toolCalls, this`asked
      ensures Attended(w, st, rounds + [r]) && Reports(r, code, response)
    {
      var outcome;
      ghost var t;
      outcome, response, t := Think(w, message, size);
      code := outcome.Code();
      r := Round(old(asked), t, response);
      TallyGrows(w, st, rounds, r, message, old(asked), old(toolCalls), old(log));
    }

    /** One round; `on` tells whether another may follow. */
    method Attend(w: World, message: string, size: nat, ghost st: Start, ghost rounds: seq<Round>)
      returns (code: int, response: string, on: bool, ghost after: seq<Round>)
      requires Attended(w, st, rounds) && AllGoOn(rounds) && size > 0
      requires message == Prompt(st.opening, st.further, |rounds|)
      modifies this`messages, this`log, this`toolCalls, this`asked
      ensures Attended(w, st, after) && |after| == |rounds| + 1
      ensures Closes(after, code, response, on) && on == !Final(after[|rounds|])
    {
      ghost var r;
      code, response, r := AttendOnce(w, message, size, st, rounds);
      on := code == 0 && !Contains(response, MARKER);
      after := rounds + [r];
      FinalIs(r);
      assert after[..|rounds|] == rounds;
      if on {
        AllGoOnSnoc(rounds, r);
      }
    }

    /** The attention loop. */
    method AttendAll(w: World, opening: string, further: string, size: nat, ghost st: Start)
      returns (code: int, response: string, ghost rounds: seq<Round>)
      requires Attended(w, st, []) && st.opening == opening && st.further == further && size > 0
      modifies this`messages, this`log, this`toolCalls, this`asked
      ensures Attended(w, st, rounds) && |rounds| <= Limit(maxRounds)
      ensures exists on :: Closes(rounds, code, response, on) && (on ==> |rounds| == Limit(maxRounds))
    {
      var round, on := 0, true;
      code, response, rounds := 0, "", [];
      while round < Limit(maxRounds) && on
        invariant round == |rounds| <= Limit(maxRounds) && (round == 0 ==> on)
        invariant Attended(w, st, rounds)
        invariant round > 0 ==> Closes(rounds, code, response, on)
        invariant on ==> AllGoOn(rounds)
        decreases Limit(maxRounds) - round
      {
        code, response, on, rounds := Attend(w, if round == 0 then opening else further, size, st, rounds);
        round := round + 1;
      }
    }

    ghost function Here(opening: string, further: string): Start
      reads this
    {
      Start(asked, toolCalls, log, opening, further)
    }

    method SetMode(state: AgentState, focus: bool, ghost w: World, ghost st: Start, ghost rounds: seq<Round>)
      requires Attended(w, st, rounds)
      modifies this`state, this`focus
      ensures Attended(w, st, rounds) && this.state == state && this.focus == focus
    {
      this.state, this.focus := state, focus;
    }

    /**
     * agent_run_task, given the composed task message and the fixed message of the later rounds. It stops
     * before the round limit exactly when a round fails or names the task complete.
     */
    method RunTask(w: World, opening: string, further: string, size: nat)
      returns (code: int, response: string, ghost rounds: seq<Round>)
      requires Kept() && size > 0
      modifies this`messages, this`log, this`toolCalls, this`asked, this`state, this`focus
      ensures state == Idle && !focus
      ensures Attended(w, old(Here(opening, further)), rounds) && |rounds| <= Limit(maxRounds)
      ensures EndsRightly(rounds, if maxRounds > 0 then maxRounds else 5)
      ensures Reports(rounds[|rounds| - 1], code, response)
      ensures asked <= old(asked) + MAX_ITERATIONS * Limit(maxRounds)
      ensures toolCalls <= old(toolCalls) + 800 * Limit(maxRounds)
    {
      ghost var st := Here(opening, further);
      TallyStarts(w, st);
      SetMode(Thinking, true, w, st, []);
      code, response, rounds := AttendAll(w, opening, further, size, st);
      SetMode(Idle, false, w, st, rounds);
      ghost var on :| Closes(rounds, code, response, on) && (on ==> |rounds| == Limit(maxRounds));
      ClosesRightly(rounds, code, response, on, Limit(maxRounds));
      RoundBounds(w, st.asked, rounds);
    }
  }
}
