/** What a turn and a task leave in the history, told from replies, verdicts and tool results (src/agent/agent.c). */
module AgentTranscript {
  import opened Basics
  import opened CText
  import opened AgentHistory
  import opened AgentLoop
  import LoopGuard

  // ---------------------------------------------------------------- one turn

  /** The calls looked at in the `j` replies from `from` on: at most sixteen of each. */
  function Before(w: World, from: nat, j: nat): nat {
    if j == 0 then 0 else Before(w, from, j - 1) + Min(16, |w.reply(from + j - 1).calls|)
  }

  lemma {:induction false} OfferedCount(w: World, from: nat, k: nat)
    ensures |Offered(w, from, k)| == Before(w, from, k)
  {
    if k > 0 {
      OfferedCount(w, from, k - 1);
    }
  }

  /** Call `c` of reply `j` comes behind all calls looked at in the replies before. */
  lemma {:induction false} OfferedAt(w: World, from: nat, k: nat, j: nat, c: nat)
    requires j < k && c < |w.reply(from + j).calls| && c < 16
    ensures Before(w, from, j) + c < |Offered(w, from, k)|
    ensures Offered(w, from, k)[Before(w, from, j) + c] == w.reply(from + j).calls[c]
    decreases k
  {
    OfferedCount(w, from, k - 1);
    if j < k - 1 {
      OfferedAt(w, from, k - 1, j, c);
    }
  }

  /** The turn went through all replies but its last, and the last one says how it ended. */
  ghost predicate ReadsRightly(w: World, from: nat, asked: nat, o: Outcome)
    requires asked > 0
  {
    var last := w.reply(from + asked - 1);
    && (forall n :: from <= n < from + asked - 1 ==> w.reply(n).content != "" && w.reply(n).calls != [])
    && (o.Failed? <==> last.content == "")
    && (o.Answered? <==> last.content != "" && last.calls == [])
    && (o.Exhausted? ==> asked == 50)
  }

  /**
   * A turn asks at most fifty times and stops at the first reply without content or without calls, at the first
   * call the guard refuses, or after the fiftieth reply; call `c` of reply `j` was run, as number
   * `Before(j) + c`, exactly if that many calls passed.
   */
  lemma {:induction false} TurnReads(w: World, from: nat, t: Trace)
    requires Turn(w, from, t)
    ensures t.outcome.NoKey? <==> !w.hasKey
    ensures t.outcome.NoKey? ==> t == Trace(0, [], NoKey)
    ensures w.hasKey ==> 1 <= t.asked <= 50 && ReadsRightly(w, from, t.asked, t.outcome)
    ensures w.hasKey && !t.outcome.Tripped? ==>
              |t.executed| == Before(w, from, if t.outcome.Exhausted? then 50 else t.asked - 1)
    ensures t.outcome.Tripped? ==>
              Before(w, from, t.asked - 1) <= |t.executed| < Before(w, from, t.asked) && !w.pass(from, |t.executed|)
    ensures forall i :: 0 <= i < |t.executed| ==> w.pass(from, i)
  {
    if w.hasKey {
      forall n | from <= n < from + t.asked - 1
        ensures Calling(w.reply(n))
      {
        CallingAt(w, from, t.asked - 1, n - from);
      }
      OfferedCount(w, from, t.asked - 1);
      OfferedCount(w, from, t.asked);
    }
  }

  lemma {:induction false} RunsInOrder(w: World, from: nat, t: Trace, j: nat, c: nat)
    requires Turn(w, from, t) && j < 50 && c < |w.reply(from + j).calls| && c < 16
    ensures Before(w, from, j) + c < |t.executed| ==>
              t.executed[Before(w, from, j) + c] == w.reply(from + j).calls[c]
  {
    ExecutedIsPrefix(w, from, t);
    OfferedAt(w, from, MAX_ITERATIONS, j, c);
  }

  /** The guard's report on a repeated tool, and on two tools in turn, when it fits. */
  lemma {:induction false} RepeatText(name: string)
    requires |name| < 64
    ensures TripText(LoopGuard.SameTool(name)) ==
            "Loop guard tripped: " + ("same tool '" + name + "' 5 times in a row")
  {
  }

  lemma {:induction false} TurnsText(x: string, y: string)
    requires |x| + |y| < 96
    ensures TripText(LoopGuard.Between(x, y)) ==
            "Loop guard tripped: " + ("ping-pong loop between '" + x + "' and '" + y + "'")
  {
  }

  /** What the caller is told, before its buffer cuts it. */
  lemma {:induction false} SaysRightly(w: World, from: nat, t: Trace)
    requires Turn(w, from, t)
    ensures t.outcome.Answered? ==> Said(w, from, t) == w.reply(from + t.asked - 1).content
    ensures t.outcome.Tripped? ==> Said(w, from, t) == TripText(w.reason(from))
    ensures t.outcome.Failed? || t.outcome.Exhausted? || t.outcome.NoKey? ==> Said(w, from, t) == w.error(t.outcome)
  {
  }

  lemma {:induction false} ToolMessageAt(w: World, serial: nat, calls: seq<Call>, i: nat)
    requires i < |calls|
    ensures ToolMessages(w, serial, calls)[i] == ToolMessage(w, serial + i, calls[i])
    decreases calls
  {
    if i < |calls| - 1 {
      ToolMessageAt(w, serial, calls[..|calls| - 1], i);
    }
  }

  /** The messages of a turn: what was asked, the results of its tools in order, and the answer if there is one. */
  lemma {:induction false} TurnLogIs(w: World, serial: nat, message: string, r: Round)
    ensures var ms, n := TurnLog(w, serial, message, r), |r.trace.executed|;
            && |ms| == n + (if r.trace.outcome.Answered? then 2 else 1)
            && ms[0] == Message(User, Bounded(message, 8192))
            && (forall i :: 0 <= i < n ==> ms[1 + i] == ToolMessage(w, serial + i, r.trace.executed[i]))
            && (r.trace.outcome.Answered? ==> ms[n + 1] == Message(Assistant, Bounded(r.response, 8192)))
  {
    forall i | 0 <= i < |r.trace.executed|
      ensures ToolMessages(w, serial, r.trace.executed)[i] == ToolMessage(w, serial + i, r.trace.executed[i])
    {
      ToolMessageAt(w, serial, r.trace.executed, i);
    }
  }

  // ---------------------------------------------------------------- one task

  /** The messages of one role, in order. */
  function Only(ms: seq<Message>, role: Role): seq<Message> {
    if ms == [] then []
    else
      var n := |ms| - 1;
      Only(ms[..n], role) + if ms[n].role == role then [ms[n]] else []
  }

  lemma {:induction false} OnlySplits(a: seq<Message>, b: seq<Message>, role: Role)
    ensures Only(a + b, role) == Only(a, role) + Only(b, role)
    decreases b
  {
    if b == [] {
      assert a + b == a;
    } else {
      var n := |b| - 1;
      assert (a + b)[..|a| + n] == a + b[..n];
      OnlySplits(a, b[..n], role);
    }
  }

  lemma {:induction false} OnlyTools(w: World, serial: nat, calls: seq<Call>, role: Role)
    ensures var ms := ToolMessages(w, serial, calls);
            Only(ms, role) == if role == Tool then ms else []
    decreases calls
  {
    if calls != [] {
      var n := |calls| - 1;
      var ms := ToolMessages(w, serial, calls);
      assert ms[..n] == ToolMessages(w, serial, calls[..n]);
      OnlyTools(w, serial, calls[..n], role);
    }
  }

  lemma {:induction false} OnlyOne(m: Message, role: Role)
    ensures Only([m], role) == if m.role == role then [m] else []
  {
    assert [m][..0] == [];
    assert Only([], role) == [];
  }

  lemma {:induction false} OnlyOfThree(asked: Message, tools: seq<Message>, answer: seq<Message>, role: Role)
    requires |answer| <= 1
    ensures Only([asked] + tools + answer, role) ==
            (if asked.role == role then [asked] else []) + Only(tools, role)
            + if answer != [] && answer[0].role == role then answer else []
  {
    OnlySplits([asked] + tools, answer, role);
    OnlySplits([asked], tools, role);
    OnlyOne(asked, role);
    if answer != [] {
      OnlyOne(answer[0], role);
      assert answer == [answer[0]];
    }
  }

  /** The messages of one turn: a question, tool messages, and an answer or none. */
  datatype Part = Part(asked: Message, tools: seq<Message>, answer: seq<Message>) {
    function All(): seq<Message> {
      [asked] + tools + answer
    }

    ghost predicate Proper() {
      && asked.role == User && |answer| <= 1 && (answer != [] ==> answer[0].role == Assistant)
      && forall role :: Only(tools, role) == if role == Tool then tools else []
    }

    function Of(role: Role): seq<Message> {
      match role
      case System => []
      case User => [asked]
      case Tool => tools
      case Assistant => answer
    }
  }

  lemma {:induction false} OnlyOfPart(part: Part, role: Role)
    requires part.Proper()
    ensures Only(part.All(), role) == part.Of(role)
  {
    OnlyOfThree(part.asked, part.tools, part.answer, role);
  }

  function Flat(parts: seq<Part>): seq<Message> {
    if parts == [] then [] else Flat(parts[..|parts| - 1]) + parts[|parts| - 1].All()
  }

  function FlatOf(parts: seq<Part>, role: Role): seq<Message> {
    if parts == [] then [] else FlatOf(parts[..|parts| - 1], role) + parts[|parts| - 1].Of(role)
  }

  lemma {:induction false} OnlyOfParts(parts: seq<Part>, role: Role)
    requires forall part <- parts :: part.Proper()
    ensures Only(Flat(parts), role) == FlatOf(parts, role)
    decreases parts
  {
    if parts != [] {
      var before, last := parts[..|parts| - 1], parts[|parts| - 1];
      OnlyOfParts(before, role);
      OnlySplits(Flat(before), last.All(), role);
      OnlyOfPart(last, role);
    }
  }

  /** What the task asks: its opening once, then the fixed request to continue. */
  function Asked(opening: string, further: string, n: nat): seq<Message> {
    if n == 0 then []
    else Asked(opening, further, n - 1) + [Message(User, Bounded(if n == 1 then opening else further, 8192))]
  }

  /** The answers of the rounds that ended with one. */
  function AnswersOf(rounds: seq<Round>): seq<Message> {
    if rounds == [] then []
    else
      var r := rounds[|rounds| - 1];
      AnswersOf(rounds[..|rounds| - 1])
      + if r.trace.outcome.Answered? then [Message(Assistant, Bounded(r.response, 8192))] else []
  }

  /** The tools run in the rounds. */
  function AllRun(rounds: seq<Round>): (calls: seq<Call>)
    ensures |calls| == Executions(rounds)
  {
    if rounds == [] then [] else AllRun(rounds[..|rounds| - 1]) + rounds[|rounds| - 1].trace.executed
  }

  lemma {:induction false} ToolMessagesSplit(w: World, serial: nat, a: seq<Call>, b: seq<Call>)
    ensures ToolMessages(w, serial, a + b) == ToolMessages(w, serial, a) + ToolMessages(w, serial + |a|, b)
    decreases b
  {
    if b == [] {
      assert a + b == a;
    } else {
      var n := |b| - 1;
      assert (a + b)[..|a| + n] == a + b[..n];
      ToolMessagesSplit(w, serial, a, b[..n]);
    }
  }

  function PartOf(w: World, serial: nat, message: string, r: Round): Part {
    Part(UserMessage(message), ToolMessages(w, serial, r.trace.executed), AnswerMessage(r.trace.outcome, r.response))
  }

  /** The turns of a task. */
  function PartsOf(w: World, st: Start, rounds: seq<Round>): (parts: seq<Part>)
    ensures |parts| == |rounds|
  {
    if rounds == [] then []
    else
      var before := rounds[..|rounds| - 1];
      PartsOf(w, st, before)
      + [PartOf(w, st.toolCalls + Executions(before), Prompt(st.opening, st.further, |before|), rounds[|before|])]
  }

  lemma {:induction false} LastPart(w: World, st: Start, rounds: seq<Round>) returns (before: seq<Part>, part: Part)
    requires rounds != []
    ensures before == PartsOf(w, st, rounds[..|rounds| - 1]) && PartsOf(w, st, rounds) == before + [part]
    ensures var earlier := rounds[..|rounds| - 1];
            part == PartOf(w, st.toolCalls + Executions(earlier), Prompt(st.opening, st.further, |earlier|),
                           rounds[|rounds| - 1])
  {
    var earlier := rounds[..|rounds| - 1];
    before := PartsOf(w, st, earlier);
    part := PartOf(w, st.toolCalls + Executions(earlier), Prompt(st.opening, st.further, |earlier|), rounds[|earlier|]);
  }

  lemma {:induction false} FlatSnoc(before: seq<Part>, part: Part, role: Role)
    ensures Flat(before + [part]) == Flat(before) + part.All()
    ensures FlatOf(before + [part], role) == FlatOf(before, role) + part.Of(role)
  {
    assert (before + [part])[..|before|] == before;
  }

  lemma {:induction false} LogSnoc(w: World, st: Start, rounds: seq<Round>, part: Part)
    requires rounds != []
    requires var earlier := rounds[..|rounds| - 1];
             part == PartOf(w, st.toolCalls + Executions(earlier), Prompt(st.opening, st.further, |earlier|),
                            rounds[|rounds| - 1])
    ensures TaskLog(w, st.toolCalls, st.opening, st.further, rounds) ==
            TaskLog(w, st.toolCalls, st.opening, st.further, rounds[..|rounds| - 1]) + part.All()
  {
  }

  lemma {:induction false} FlatIsLog(w: World, st: Start, rounds: seq<Round>)
    ensures Flat(PartsOf(w, st, rounds)) == TaskLog(w, st.toolCalls, st.opening, st.further, rounds)
    decreases rounds
  {
    if rounds != [] {
      FlatIsLog(w, st, rounds[..|rounds| - 1]);
      var before, part := LastPart(w, st, rounds);
      FlatSnoc(before, part, User);
      LogSnoc(w, st, rounds, part);
    }
  }

  lemma {:induction false} PartIsProper(w: World, serial: nat, message: string, r: Round)
    ensures PartOf(w, serial, message, r).Proper()
  {
    forall role: Role
      ensures var tools := ToolMessages(w, serial, r.trace.executed);
              Only(tools, role) == if role == Tool then tools else []
    {
      OnlyTools(w, serial, r.trace.executed, role);
    }
  }

  lemma {:induction false} PartsAreProper(w: World, st: Start, rounds: seq<Round>)
    ensures forall part <- PartsOf(w, st, rounds) :: part.Proper()
    decreases rounds
  {
    if rounds != [] {
      var earlier := rounds[..|rounds| - 1];
      PartsAreProper(w, st, earlier);
      var before, part := LastPart(w, st, rounds);
      PartIsProper(w, st.toolCalls + Executions(earlier), Prompt(st.opening, st.further, |earlier|), rounds[|earlier|]);
    }
  }

  /** The messages of the tools run in the rounds. */
  lemma {:induction false} LastTools(w: World, serial: nat, rounds: seq<Round>)
    requires rounds != []
    ensures ToolMessages(w, serial, AllRun(rounds)) ==
            ToolMessages(w, serial, AllRun(rounds[..|rounds| - 1]))
            + ToolMessages(w, serial + Executions(rounds[..|rounds| - 1]), rounds[|rounds| - 1].trace.executed)
  {
    ToolMessagesSplit(w, serial, AllRun(rounds[..|rounds| - 1]), rounds[|rounds| - 1].trace.executed);
  }

  lemma {:induction false} LastRun(w: World, st: Start, rounds: seq<Round>) returns (before: seq<Part>, part: Part)
    requires rounds != []
    ensures before == PartsOf(w, st, rounds[..|rounds| - 1]) && PartsOf(w, st, rounds) == before + [part]
    ensures ToolMessages(w, st.toolCalls, AllRun(rounds)) ==
            ToolMessages(w, st.toolCalls, AllRun(rounds[..|rounds| - 1])) + part.tools
  {
    before, part := LastPart(w, st, rounds);
    LastTools(w, st.toolCalls, rounds);
  }

  lemma {:induction false} PartsAsk(w: World, st: Start, rounds: seq<Round>)
    ensures FlatOf(PartsOf(w, st, rounds), User) == Asked(st.opening, st.further, |rounds|)
    decreases rounds
  {
    if rounds != [] {
      PartsAsk(w, st, rounds[..|rounds| - 1]);
      var before, part := LastPart(w, st, rounds);
      FlatSnoc(before, part, User);
    }
  }

  lemma {:induction false} PartsRun(w: World, st: Start, rounds: seq<Round>)
    ensures FlatOf(PartsOf(w, st, rounds), Tool) == ToolMessages(w, st.toolCalls, AllRun(rounds))
    decreases rounds
  {
    if rounds != [] {
      PartsRun(w, st, rounds[..|rounds| - 1]);
      var before, part := LastRun(w, st, rounds);
      FlatSnoc(before, part, Tool);
    }
  }

  lemma {:induction false} PartsAnswer(w: World, st: Start, rounds: seq<Round>)
    ensures FlatOf(PartsOf(w, st, rounds), Assistant) == AnswersOf(rounds)
    decreases rounds
  {
    if rounds != [] {
      PartsAnswer(w, st, rounds[..|rounds| - 1]);
      var before, part := LastPart(w, st, rounds);
      FlatSnoc(before, part, Assistant);
    }
  }

  lemma {:induction false} PartsAddNoSystem(w: World, st: Start, rounds: seq<Round>)
    ensures FlatOf(PartsOf(w, st, rounds), System) == []
    decreases rounds
  {
    if rounds != [] {
      PartsAddNoSystem(w, st, rounds[..|rounds| - 1]);
      var before, part := LastPart(w, st, rounds);
      FlatSnoc(before, part, System);
    }
  }

  /** By role, a task's messages are its requests, the results of all its tools, numbered through, and its answers. */
  ghost predicate Transcribes(ms: seq<Message>, w: World, st: Start, rounds: seq<Round>) {
    && Only(ms, User) == Asked(st.opening, st.further, |rounds|)
    && Only(ms, Tool) == ToolMessages(w, st.toolCalls, AllRun(rounds))
    && Only(ms, Assistant) == AnswersOf(rounds)
    && Only(ms, System) == []
  }

  /** What agent_run_task adds to the history, whatever provider, tools and guard do. */
  lemma {:induction false} TaskLeaves(w: World, st: Start, rounds: seq<Round>, asked: nat, toolCalls: nat,
                                      log: seq<Message>)
    requires Tally(w, st, rounds, asked, toolCalls, log)
    ensures st.log <= log && Transcribes(log[|st.log|..], w, st, rounds)
    ensures toolCalls == st.toolCalls + |AllRun(rounds)|
  {
    var parts := PartsOf(w, st, rounds);
    FlatIsLog(w, st, rounds);
    PartsAreProper(w, st, rounds);
    PartsAsk(w, st, rounds);
    PartsRun(w, st, rounds);
    PartsAnswer(w, st, rounds);
    PartsAddNoSystem(w, st, rounds);
    OnlyOfParts(parts, User);
    OnlyOfParts(parts, Tool);
    OnlyOfParts(parts, Assistant);
    OnlyOfParts(parts, System);
    assert log[|st.log|..] == TaskLog(w, st.toolCalls, st.opening, st.further, rounds);
  }
}
