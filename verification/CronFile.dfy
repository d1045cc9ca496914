/** The task file of the scheduler: what save_tasks_to_disk prints and load_tasks_from_disk reads. */
module CronFile {
  import opened Basics
  import opened CText
  import opened Cron

  function Header1(): string {
    "# Doctor Claw Cron Tasks"
  }

  function Header2(): string {
    "# Format: id|expression|command|" + ("enabled|last_run|next_run|" + "run_count|fail_count")
  }

  // ---------------------------------------------------------------- printing

  function JoinBar(fs: seq<string>): string
    requires fs != []
  {
    if |fs| == 1 then fs[0] else fs[0] + ['|'] + JoinBar(fs[1..])
  }

  function FieldsOf(t: Task): (fs: seq<string>)
    ensures |fs| == 8
  {
    [t.id, t.expr, t.cmd, if t.enabled then "1" else "0",
     Digits(t.lastRun), Digits(t.nextRun), Digits(t.runs), Digits(t.fails)]
  }

  function LineFor(t: Task): string {
    JoinBar(FieldsOf(t))
  }

  /** Two parts of a line with a bar between them. */
  function Bar(a: string, b: string): string {
    a + "|" + b
  }

  lemma {:induction false} JoinIs(fs: seq<string>, k: nat)
    requires k < |fs|
    ensures JoinBar(fs[k..]) == if k + 1 == |fs| then fs[k] else Bar(fs[k], JoinBar(fs[k + 1..]))
  {
    assert k + 1 < |fs| ==> fs[k..][1..] == fs[k + 1..];
  }

  /** The line as save_tasks_to_disk prints it: eight fields in this order. */
  lemma {:induction false} LineIs(t: Task, numbers: string)
    requires numbers == Bar(Digits(t.lastRun), Bar(Digits(t.nextRun), Bar(Digits(t.runs), Digits(t.fails))))
    ensures LineFor(t) == Bar(t.id, Bar(t.expr, Bar(t.cmd, Bar(if t.enabled then "1" else "0", numbers))))
  {
    var f := FieldsOf(t);
    assert f[0..] == f;
    JoinIs(f, 7);
    JoinIs(f, 6);
    JoinIs(f, 5);
    JoinIs(f, 4);
    JoinIs(f, 3);
    JoinIs(f, 2);
    JoinIs(f, 1);
    JoinIs(f, 0);
  }

  function Body(ts: seq<Task>): string {
    if ts == [] then "" else LineFor(ts[0]) + "\n" + Body(ts[1..])
  }

  function Preamble(): string {
    Header1() + "\n" + (Header2() + "\n")
  }

  function Save(ts: seq<Task>): string {
    Preamble() + Body(ts)
  }

  lemma {:induction false} BodySnoc(ts: seq<Task>, t: Task)
    ensures Body(ts + [t]) == Body(ts) + (LineFor(t) + "\n")
    decreases ts
  {
    if ts == [] {
      assert ts + [t] == [t];
      assert Body([t]) == LineFor(t) + "\n" + Body([]);
    } else {
      assert (ts + [t])[1..] == ts[1..] + [t];
      BodySnoc(ts[1..], t);
      var l := LineFor(ts[0]) + "\n";
      assert l + (Body(ts[1..]) + (LineFor(t) + "\n")) == l + Body(ts[1..]) + (LineFor(t) + "\n");
    }
  }

  lemma {:induction false} Assoc(a: string, b: string, c: string)
    ensures a + (b + c) == a + b + c
  {
  }

  /** The fprintf loop of save_tasks_to_disk. */
  method PrintTasks(head: string, ts: seq<Task>) returns (file: string)
    ensures file == head + Body(ts)
  {
    file := head;
    for i := 0 to |ts|
      invariant file == head + Body(ts[..i])
    {
      BodySnoc(ts[..i], ts[i]);
      assert ts[..i + 1] == ts[..i] + [ts[i]];
      Assoc(head, Body(ts[..i]), LineFor(ts[i]) + "\n");
      file := file + (LineFor(ts[i]) + "\n");
    }
    assert ts[..|ts|] == ts;
  }

  method SaveTasks(ts: seq<Task>) returns (file: string)
    ensures file == Save(ts)
  {
    file := PrintTasks(Preamble(), ts);
  }

  // ---------------------------------------------------------------- reading

  function NumberOr(f: Option<string>, default: nat): nat {
    if f.None? then default else if Atoi(f.value) < 0 then 0 else Atoi(f.value)
  }

  function Refreshed(t: Task, now: nat): Task {
    if t.nextRun < now then t.(nextRun := NextRun(t.expr, now)) else t
  }

  /** What loading does to a task's next run: an overdue one is moved strictly ahead, any other is kept. */
  lemma {:induction false} RefreshedIs(t: Task, now: nat)
    ensures Refreshed(t, now).nextRun >= now && Refreshed(t, now) == t.(nextRun := Refreshed(t, now).nextRun)
    ensures t.nextRun >= now ==> Refreshed(t, now) == t
    ensures t.nextRun < now ==> Refreshed(t, now).nextRun == NextRun(t.expr, now) > now
  {
    NextRunIsAhead(t.expr, now);
  }

  /** The first `n` strtok calls on a line. */
  function Cut(s: string, n: nat): (r: (seq<Option<string>>, string))
    ensures |r.0| == n
    decreases n
  {
    if n == 0 then ([], s)
    else
      var (t, rest) := Strtok(s, BAR);
      var (ts, last) := Cut(rest, n - 1);
      ([t] + ts, last)
  }

  /** The task that eight fields describe. Stored times are nonnegative; a negative number reads as 0. */
  function TaskFrom(f: seq<Option<string>>, now: nat): Option<Task>
    requires |f| == 8
  {
    if f[0].None? || f[1].None? || f[2].None? then None
    else
      Some(Refreshed(Task(
        Bounded(f[0].value, ID_SIZE), Bounded(f[1].value, EXPR_SIZE), Bounded(f[2].value, CMD_SIZE),
        f[3].Some? && Atoi(f[3].value) == 1,
        NumberOr(f[4], 0), NumberOr(f[5], now + 60), NumberOr(f[6], 0), NumberOr(f[7], 0)), now))
  }

  function ParseLine(line: string, now: nat): Option<Task> {
    var (ts, rest) := Cut(line, 7);
    TaskFrom(ts + [Strtok(rest, BAR_OR_EOL).0], now)
  }

  predicate Skipped(line: string) {
    line != "" && (line[0] == '#' || line[0] == '\n')
  }

  function LoadFrom(s: string, acc: seq<Task>, now: nat): seq<Task>
    decreases |s|
  {
    if s == "" || |acc| >= MAX_TASKS then acc
    else
      var n := LineLen(s, LINE_ROOM);
      var line, rest := s[..n], s[n..];
      if Skipped(line) then LoadFrom(rest, acc, now)
      else match ParseLine(line, now)
        case None => LoadFrom(rest, acc, now)
        case Some(t) => LoadFrom(rest, acc + [t], now)
  }

  function Load(file: string, now: nat): seq<Task> {
    LoadFrom(file, [], now)
  }

  method LoadTasks(file: string, now: nat) returns (tasks: seq<Task>)
    ensures tasks == Load(file, now)
  {
    tasks := [];
    var rest := file;
    while rest != "" && |tasks| < MAX_TASKS
      invariant LoadFrom(rest, tasks, now) == Load(file, now)
      decreases |rest|
    {
      var n := LineLen(rest, LINE_ROOM);
      var line := rest[..n];
      rest := rest[n..];
      if Skipped(line) {
        continue;
      }
      var t := ParseLine(line, now);
      if t.Some? {
        tasks := tasks + [t.value];
      }
    }
  }

  // ---------------------------------------------------------------- the round trip

  predicate TextOk(f: string, size: nat) {
    f != "" && |f| < size && Free(f, BAR_OR_EOL)
  }

  const NUMBER_DIGITS := 20

  /** A task whose line survives the file: separator-free, nonempty fields that fit, machine-size numbers. */
  predicate Storable(t: Task) {
    && TextOk(t.id, ID_SIZE) && t.id[0] != '#'
    && TextOk(t.expr, EXPR_SIZE)
    && TextOk(t.cmd, CMD_SIZE)
    && |Digits(t.lastRun)| <= NUMBER_DIGITS && |Digits(t.nextRun)| <= NUMBER_DIGITS
    && |Digits(t.runs)| <= NUMBER_DIGITS && |Digits(t.fails)| <= NUMBER_DIGITS
  }

  lemma {:induction false} DigitsFree(n: nat)
    ensures Free(Digits(n), BAR_OR_EOL) && Free(Digits(n), BAR)
  {
  }

  lemma {:induction false} NextField(fs: seq<string>, k: nat)
    requires k + 1 < |fs| && fs[k] != "" && Free(fs[k], BAR_OR_EOL)
    ensures Strtok(JoinBar(fs[k..]) + "\n", BAR) == (Some(fs[k]), JoinBar(fs[k + 1..]) + "\n")
  {
    assert fs[k..][1..] == fs[k + 1..];
    var rest := JoinBar(fs[k + 1..]);
    assert JoinBar(fs[k..]) + "\n" == fs[k] + ['|'] + (rest + "\n");
    StrtokField(fs[k], '|', rest + "\n", BAR);
  }

  lemma {:induction false} LastField(f: string)
    requires f != "" && Free(f, BAR_OR_EOL)
    ensures Strtok(f + "\n", BAR_OR_EOL).0 == Some(f)
  {
    assert f + "\n" == f + ['\n'] + "";
    StrtokField(f, '\n', "", BAR_OR_EOL);
  }

  ghost predicate FieldsOk(fs: seq<string>) {
    |fs| == 8 && forall k :: 0 <= k < 8 ==> fs[k] != "" && Free(fs[k], BAR_OR_EOL)
  }

  lemma {:induction false} FieldsOfOk(t: Task)
    requires TextOk(t.id, ID_SIZE) && TextOk(t.expr, EXPR_SIZE) && TextOk(t.cmd, CMD_SIZE)
    ensures FieldsOk(FieldsOf(t))
  {
    DigitsFree(t.fails); DigitsFree(t.runs); DigitsFree(t.nextRun); DigitsFree(t.lastRun);
  }

  function Present(fs: seq<string>): (r: seq<Option<string>>)
    ensures |r| == |fs| && forall k :: 0 <= k < |fs| ==> r[k] == Some(fs[k])
  {
    seq(|fs|, k requires 0 <= k < |fs| => Some(fs[k]))
  }

  lemma {:induction false} CutStep(s: string, n: nat, f: string, rest: string)
    requires n > 0 && Strtok(s, BAR) == (Some(f), rest)
    ensures Cut(s, n) == ([Some(f)] + Cut(rest, n - 1).0, Cut(rest, n - 1).1)
  {
  }

  /** The line is cut into exactly the fields it was joined from. */
  lemma {:induction false} CutJoined(f: seq<string>, k: nat)
    requires FieldsOk(f) && k <= 7
    ensures Cut(JoinBar(f[k..]) + "\n", 7 - k) == (Present(f[k..7]), f[7] + "\n")
    decreases 7 - k
  {
    if k == 7 {
      assert JoinBar(f[7..]) == f[7];
      assert Present(f[7..7]) == [];
    } else {
      NextField(f, k);
      CutStep(JoinBar(f[k..]) + "\n", 7 - k, f[k], JoinBar(f[k + 1..]) + "\n");
      CutJoined(f, k + 1);
      PresentSplit(f, k, 7);
    }
  }

  lemma {:induction false} PresentSplit(f: seq<string>, i: nat, j: nat)
    requires i < j <= |f|
    ensures Present(f[i..j]) == [Some(f[i])] + Present(f[i + 1..j])
    ensures Present(f[i..j]) == Present(f[i..j - 1]) + [Some(f[j - 1])]
  {
  }

  lemma {:induction false} ParseFromCut(line: string, ts: seq<Option<string>>, rest: string, last: Option<string>,
                                        now: nat)
    requires |ts| == 7 && Cut(line, 7) == (ts, rest) && Strtok(rest, BAR_OR_EOL).0 == last
    ensures ParseLine(line, now) == TaskFrom(ts + [last], now)
  {
  }

  lemma {:induction false} FieldsRoundTrip(f: seq<string>, now: nat)
    requires FieldsOk(f)
    ensures ParseLine(JoinBar(f) + "\n", now) == TaskFrom(Present(f), now)
  {
    CutJoined(f, 0);
    LastField(f[7]);
    ParseFromCut(JoinBar(f[0..]) + "\n", Present(f[0..7]), f[7] + "\n", Some(f[7]), now);
    PresentSplit(f, 0, 8);
    assert f[0..] == f[0..8] == f;
  }

  /** Reading back one printed line. */
  lemma {:induction false} LineReads(t: Task, now: nat)
    requires TextOk(t.id, ID_SIZE) && TextOk(t.expr, EXPR_SIZE) && TextOk(t.cmd, CMD_SIZE)
    ensures ParseLine(LineFor(t) + "\n", now) == Some(Refreshed(t, now))
  {
    FieldsOfOk(t);
    FieldsRoundTrip(FieldsOf(t), now);
    AtoiDigits(t.lastRun); AtoiDigits(t.nextRun); AtoiDigits(t.runs); AtoiDigits(t.fails);
    FlagReads(t.enabled);
  }

  /** Fields that fit and hold no line end, whatever else is in them. */
  predicate Sized(t: Task) {
    && |t.id| < ID_SIZE && |t.expr| < EXPR_SIZE && |t.cmd| < CMD_SIZE
    && Free(t.id, {'\n'}) && Free(t.expr, {'\n'}) && Free(t.cmd, {'\n'})
    && |Digits(t.lastRun)| <= NUMBER_DIGITS && |Digits(t.nextRun)| <= NUMBER_DIGITS
    && |Digits(t.runs)| <= NUMBER_DIGITS && |Digits(t.fails)| <= NUMBER_DIGITS
  }

  predicate Clean(f: string) {
    f != "" && Free(f, BAR)
  }

  lemma {:induction false} CutIsClean(s: string, n: nat, k: nat)
    requires k < n && Cut(s, n).0[k].Some?
    ensures Clean(Cut(s, n).0[k].value)
    decreases n
  {
    if k > 0 {
      CutIsClean(Strtok(s, BAR).1, n - 1, k - 1);
    }
  }

  lemma {:induction false} BoundedIsClean(f: string, size: nat)
    requires Clean(f) && size > 1
    ensures Clean(Bounded(f, size))
  {
  }

  /** What is read has clean text fields. */
  lemma {:induction false} ParsedIsClean(line: string, now: nat)
    requires ParseLine(line, now).Some?
    ensures var t := ParseLine(line, now).value; Clean(t.id) && Clean(t.expr) && Clean(t.cmd)
  {
    var ts := Cut(line, 7).0;
    CutIsClean(line, 7, 0);
    CutIsClean(line, 7, 1);
    CutIsClean(line, 7, 2);
    BoundedIsClean(ts[0].value, ID_SIZE);
    BoundedIsClean(ts[1].value, EXPR_SIZE);
    BoundedIsClean(ts[2].value, CMD_SIZE);
  }

  lemma {:induction false} CleanIsOk(f: string, size: nat)
    requires Clean(f) && |f| < size && Free(f, {'\n'})
    ensures TextOk(f, size)
  {
  }

  /** A printed line reads back as its task exactly when none of its text fields is empty or holds a bar. */
  lemma {:induction false} LineRoundTripIff(t: Task, now: nat)
    requires Sized(t)
    ensures ParseLine(LineFor(t) + "\n", now) == Some(Refreshed(t, now)) <==>
            Clean(t.id) && Clean(t.expr) && Clean(t.cmd)
  {
    if Clean(t.id) && Clean(t.expr) && Clean(t.cmd) {
      CleanIsOk(t.id, ID_SIZE);
      CleanIsOk(t.expr, EXPR_SIZE);
      CleanIsOk(t.cmd, CMD_SIZE);
      LineReads(t, now);
    } else if ParseLine(LineFor(t) + "\n", now).Some? {
      ParsedIsClean(LineFor(t) + "\n", now);
    }
  }

  lemma {:induction false} FirstBar(cmd: string)
    requires !Free(cmd, BAR)
    ensures var n := Span(cmd, BAR); n < |cmd| && cmd == cmd[..n] + ['|'] + cmd[n + 1..]
  {
    assert cmd[..|cmd|] == cmd;
  }

  lemma {:induction false} PipeToken(cmd: string, tail: seq<string>) returns (rest: string)
    requires cmd != "" && cmd[0] != '|' && !Free(cmd, BAR) && tail != []
    ensures var n := Span(cmd, BAR);
      && 0 < n < |cmd| && rest == cmd[n + 1..] + ['|'] + (JoinBar(tail) + "\n")
      && Strtok(JoinBar([cmd] + tail) + "\n", BAR) == (Some(cmd[..n]), rest)
  {
    FirstBar(cmd);
    var n := Span(cmd, BAR);
    assert ([cmd] + tail)[1..] == tail;
    rest := cmd[n + 1..] + ['|'] + (JoinBar(tail) + "\n");
    assert JoinBar([cmd] + tail) + "\n" == cmd[..n] + ['|'] + rest;
    StrtokField(cmd[..n], '|', rest, BAR);
  }

  lemma {:induction false} ThirdField(fs: seq<string>, c: string, rest: string, now: nat)
    requires |fs| == 8 && TextOk(fs[0], ID_SIZE) && TextOk(fs[1], EXPR_SIZE) && |c| < CMD_SIZE
    requires Strtok(JoinBar(fs[2..]) + "\n", BAR) == (Some(c), rest)
    ensures var p := ParseLine(JoinBar(fs) + "\n", now);
      && p.Some? && p.value.id == fs[0] && p.value.expr == fs[1] && p.value.cmd == c
      && p.value.enabled == FlagIs(Strtok(rest, BAR).0)
  {
    assert fs[0..] == fs;
    NextField(fs, 0);
    NextField(fs, 1);
    FirstThree(JoinBar(fs) + "\n", fs[0], fs[1], c, JoinBar(fs[1..]) + "\n", JoinBar(fs[2..]) + "\n", rest, now);
  }

  /** What is read from the flag's place. */
  predicate FlagIs(field: Option<string>) {
    field.Some? && Atoi(field.value) == 1
  }

  /** The first token of a text that a delimiter follows; without one, that of what comes after. */
  lemma {:induction false} StrtokBefore(a: string, c: char, b: string, delims: set<char>)
    requires c in delims
    ensures Strtok(a + [c] + b, delims).0 == if Strtok(a, delims).0.Some? then Strtok(a, delims).0 else
            Strtok(b, delims).0
    decreases a
  {
    var s := a + [c] + b;
    if a == "" {
      assert s[1..] == b;
    } else if a[0] in delims {
      StrtokBefore(a[1..], c, b, delims);
      assert s[1..] == a[1..] + [c] + b;
    } else {
      var n := Span(a, delims);
      var tail := a[n..] + [c] + b;
      assert s == a[..n] + tail && s[..n] == a[..n];
      SpanExact(a[..n], tail, delims);
    }
  }

  lemma {:induction false} FlagAfterPipe(fs: seq<string>, more: string, on: bool)
    requires |fs| == 8 && fs[3] == if on then "1" else "0"
    ensures FlagIs(Strtok(more + ['|'] + (JoinBar(fs[3..]) + "\n"), BAR).0) ==
            if Strtok(more, BAR).0.Some? then FlagIs(Strtok(more, BAR).0) else on
  {
    StrtokBefore(more, '|', JoinBar(fs[3..]) + "\n", BAR);
    NextField(fs, 3);
    FlagReads(on);
  }

  /**
   * A command with a bar in it, a shell pipe say, comes back cut at its first bar, and what follows the bar is
   * read as the flag: the task comes back enabled exactly if that text starts with the number 1. A bar with
   * nothing but bars behind it leaves the flag alone.
   */
  lemma {:induction false} PipeIsCut(t: Task, now: nat)
    requires TextOk(t.id, ID_SIZE) && TextOk(t.expr, EXPR_SIZE) && |t.cmd| < CMD_SIZE
    requires t.cmd != "" && t.cmd[0] != '|' && !Free(t.cmd, BAR)
    ensures var n, r := Span(t.cmd, BAR), ParseLine(LineFor(t) + "\n", now);
      && 0 < n < |t.cmd| && r.Some? && r.value.id == t.id && r.value.expr == t.expr && r.value.cmd == t.cmd[..n]
      && var next := Strtok(t.cmd[n + 1..], BAR).0;
         r.value.enabled == if next.Some? then Atoi(next.value) == 1 else t.enabled
  {
    var fs := FieldsOf(t);
    FirstBar(t.cmd);
    var rest := PipeToken(t.cmd, fs[3..]);
    assert fs[2..] == [t.cmd] + fs[3..];
    ThirdField(fs, t.cmd[..Span(t.cmd, BAR)], rest, now);
    FlagAfterPipe(fs, t.cmd[Span(t.cmd, BAR) + 1..], t.enabled);
  }

  lemma {:induction false} ThreeTokens(line: string)
    ensures var r1 := Strtok(line, BAR).1;
      && Cut(line, 7).0[0] == Strtok(line, BAR).0 && Cut(line, 7).0[1] == Strtok(r1, BAR).0
      && Cut(line, 7).0[2] == Strtok(Strtok(r1, BAR).1, BAR).0
  {
    var r1 := Strtok(line, BAR).1;
    var r2 := Strtok(r1, BAR).1;
    assert Cut(r2, 5).0[0] == Strtok(r2, BAR).0;
    assert Cut(r1, 6).0[1] == Cut(r2, 5).0[0] && Cut(r1, 6).0[0] == Strtok(r1, BAR).0;
    assert Cut(line, 7).0[1] == Cut(r1, 6).0[0] && Cut(line, 7).0[2] == Cut(r1, 6).0[1];
  }

  lemma {:induction false} FourthField(line: string, r1: string, r2: string, r3: string)
    requires Strtok(line, BAR).1 == r1 && Strtok(r1, BAR).1 == r2 && Strtok(r2, BAR).1 == r3
    ensures Cut(line, 7).0[3] == Strtok(r3, BAR).0
  {
    assert Cut(r3, 4).0[0] == Strtok(r3, BAR).0;
    assert Cut(r2, 5).0[1] == Cut(r3, 4).0[0];
    assert Cut(r1, 6).0[2] == Cut(r2, 5).0[1];
    assert Cut(line, 7).0[3] == Cut(r1, 6).0[2];
  }

  lemma {:induction false} FirstThree(line: string, a: string, b: string, c: string,
                                      r1: string, r2: string, r3: string, now: nat)
    requires Strtok(line, BAR) == (Some(a), r1) && Strtok(r1, BAR) == (Some(b), r2) && Strtok(r2, BAR) == (Some(c), r3)
    ensures var p := ParseLine(line, now);
      && p.Some? && p.value.id == Bounded(a, ID_SIZE) && p.value.expr == Bounded(b, EXPR_SIZE)
      && p.value.cmd == Bounded(c, CMD_SIZE) && p.value.enabled == FlagIs(Strtok(r3, BAR).0)
  {
    ThreeTokens(line);
    FourthField(line, r1, r2, r3);
  }

  lemma {:induction false} FlagReads(on: bool)
    ensures Atoi(if on then "1" else "0") == if on then 1 else 0
  {
    AtoiDigits(1);
    AtoiDigits(0);
    assert Digits(1) == "1" && Digits(0) == "0";
  }

  lemma {:induction false} JoinStep(fs: seq<string>, k: nat)
    requires k + 1 < |fs|
    ensures |JoinBar(fs[k..])| == |fs[k]| + 1 + |JoinBar(fs[k + 1..])|
  {
    assert fs[k..][1..] == fs[k + 1..];
  }

  lemma {:induction false} JoinFree(fs: seq<string>)
    requires fs != [] && forall k :: 0 <= k < |fs| ==> Free(fs[k], {'\n'})
    ensures Free(JoinBar(fs), {'\n'})
    decreases fs
  {
    assert Free(fs[0], {'\n'});
    if |fs| > 1 {
      JoinFree(fs[1..]);
      assert Free(fs[0] + ['|'], {'\n'});
      FreeConcat(fs[0] + ['|'], JoinBar(fs[1..]), {'\n'});
    }
  }

  lemma {:induction false} JoinFits(f: seq<string>)
    requires |f| == 8
    requires |f[0]| < ID_SIZE && |f[1]| < EXPR_SIZE && |f[2]| < CMD_SIZE && |f[3]| == 1
    requires forall k :: 4 <= k < 8 ==> |f[k]| <= NUMBER_DIGITS
    ensures |JoinBar(f)| < LINE_ROOM
  {
    assert f[0..] == f;
    JoinStep(f, 0); JoinStep(f, 1); JoinStep(f, 2); JoinStep(f, 3); JoinStep(f, 4); JoinStep(f, 5); JoinStep(f, 6);
    assert JoinBar(f[7..]) == f[7];
  }

  lemma {:induction false} LineFits(t: Task)
    requires Sized(t)
    ensures |LineFor(t)| < LINE_ROOM && Free(LineFor(t), {'\n'})
    ensures LineFor(t) != "" && LineFor(t)[0] == if t.id == "" then '|' else t.id[0]
  {
    DigitsFree(t.fails); DigitsFree(t.runs); DigitsFree(t.nextRun); DigitsFree(t.lastRun);
    JoinFree(FieldsOf(t));
    JoinFits(FieldsOf(t));
  }

  lemma {:induction false} StorableIsSized(t: Task)
    requires Storable(t)
    ensures Sized(t)
  {
  }

  lemma {:induction false} LoadSkipsLine(line: string, rest: string, acc: seq<Task>, now: nat)
    requires IsComment(line) && |acc| < MAX_TASKS
    ensures LoadFrom(line + "\n" + rest, acc, now) == LoadFrom(rest, acc, now)
  {
    LineLenExact(line, rest, LINE_ROOM);
    var s := line + "\n" + rest;
    assert s[..|line| + 1] == line + "\n";
    assert s[|line| + 1..] == rest;
  }

  lemma {:induction false} LoadReadsLine(t: Task, rest: string, acc: seq<Task>, now: nat)
    requires Storable(t) && |acc| < MAX_TASKS
    ensures LoadFrom(LineFor(t) + "\n" + rest, acc, now) == LoadFrom(rest, acc + [Refreshed(t, now)], now)
  {
    StorableIsSized(t);
    LineFits(t);
    var line := LineFor(t);
    LineLenExact(line, rest, LINE_ROOM);
    var s := line + "\n" + rest;
    assert s[..|line| + 1] == line + "\n";
    assert s[|line| + 1..] == rest;
    LineReads(t, now);
  }

  function RefreshedAll(ts: seq<Task>, now: nat): (r: seq<Task>)
    ensures |r| == |ts|
    ensures forall i :: 0 <= i < |ts| ==> r[i] == Refreshed(ts[i], now)
  {
    seq(|ts|, i requires 0 <= i < |ts| => Refreshed(ts[i], now))
  }

  lemma {:induction false} RefreshedCons(ts: seq<Task>, acc: seq<Task>, now: nat)
    requires ts != []
    ensures acc + [Refreshed(ts[0], now)] + RefreshedAll(ts[1..], now) == acc + RefreshedAll(ts, now)
  {
    var r, rest := RefreshedAll(ts, now), RefreshedAll(ts[1..], now);
    forall i | 0 <= i < |rest|
      ensures r[i + 1] == rest[i]
    {
      assert ts[1..][i] == ts[i + 1];
    }
    ConsOnto(acc, r, rest);
  }

  lemma {:induction false} ConsOnto(acc: seq<Task>, r: seq<Task>, rest: seq<Task>)
    requires |r| == |rest| + 1 && forall i :: 0 <= i < |rest| ==> r[i + 1] == rest[i]
    ensures acc + [r[0]] + rest == acc + r
  {
    assert r == [r[0]] + rest;
  }

  lemma {:induction false} BodyStep(ts: seq<Task>, acc: seq<Task>, now: nat)
    requires ts != [] && Storable(ts[0]) && |acc| < MAX_TASKS
    ensures LoadFrom(Body(ts), acc, now) == LoadFrom(Body(ts[1..]), acc + [Refreshed(ts[0], now)], now)
  {
    LoadReadsLine(ts[0], Body(ts[1..]), acc, now);
  }

  lemma {:induction false} BodyRoundTrip(ts: seq<Task>, acc: seq<Task>, now: nat)
    requires (forall t <- ts :: Storable(t)) && |acc| + |ts| <= MAX_TASKS
    ensures LoadFrom(Body(ts), acc, now) == acc + RefreshedAll(ts, now)
    decreases ts
  {
    if ts == [] {
      assert acc + RefreshedAll(ts, now) == acc;
    } else {
      BodyStep(ts, acc, now);
      BodyRoundTrip(ts[1..], acc + [Refreshed(ts[0], now)], now);
      RefreshedCons(ts, acc, now);
    }
  }

  lemma {:induction false} FreeConcat(a: string, b: string, delims: set<char>)
    requires Free(a, delims) && Free(b, delims)
    ensures Free(a + b, delims)
  {
  }

  ghost predicate IsComment(h: string) {
    h != "" && h[0] == '#' && |h| < LINE_ROOM && Free(h, {'\n'})
  }

  lemma {:induction false} Header1IsComment()
    ensures IsComment(Header1())
  {
  }

  lemma {:induction false} Header2IsComment()
    ensures IsComment(Header2())
  {
    var a, b, c := "# Format: id|expression|command|", "enabled|last_run|next_run|", "run_count|fail_count";
    assert Free(a, {'\n'});
    FreeConcat(b, c, {'\n'});
    FreeConcat(a, b + c, {'\n'});
  }

  lemma {:induction false} LoadSkipsTwo(h1: string, h2: string, rest: string, now: nat)
    requires IsComment(h1) && IsComment(h2)
    ensures LoadFrom(h1 + "\n" + (h2 + "\n") + rest, [], now) == LoadFrom(rest, [], now)
  {
    LoadSkipsLine(h1, h2 + "\n" + rest, [], now);
    LoadSkipsLine(h2, rest, [], now);
    assert h1 + "\n" + (h2 + "\n") + rest == h1 + "\n" + (h2 + "\n" + rest);
  }

  /** A restart through the file gives back every task, with overdue ones moved ahead. */
  lemma {:induction false} FileRoundTrip(ts: seq<Task>, now: nat)
    requires (forall t <- ts :: Storable(t)) && |ts| <= MAX_TASKS
    ensures Load(Save(ts), now) == RefreshedAll(ts, now)
  {
    Header1IsComment();
    Header2IsComment();
    LoadSkipsTwo(Header1(), Header2(), Body(ts), now);
    BodyRoundTrip(ts, [], now);
  }
}
