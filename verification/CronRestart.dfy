/** What a restart brings back of any task table (src/cron/cron.c): exactly which tables survive the file. */
module CronRestart {
  import opened Basics
  import opened CText
  import opened Cron
  import opened CronFile

  // ---------------------------------------------------------------- tables without line ends

  /** What the printed line of a task is read as; a line that starts like a comment is skipped. */
  function Recovered(t: Task, now: nat): Option<Task> {
    if t.id != "" && t.id[0] == '#' then None else ParseLine(LineFor(t) + "\n", now)
  }

  function AsSeq(r: Option<Task>): seq<Task> {
    if r.Some? then [r.value] else []
  }

  function RecoveredAll(ts: seq<Task>, now: nat): (r: seq<Task>)
    ensures |r| <= |ts|
  {
    if ts == [] then [] else AsSeq(Recovered(ts[0], now)) + RecoveredAll(ts[1..], now)
  }

  lemma {:induction false} LoadReadsAny(t: Task, rest: string, acc: seq<Task>, now: nat)
    requires Sized(t) && |acc| < MAX_TASKS
    ensures LoadFrom(LineFor(t) + "\n" + rest, acc, now) == LoadFrom(rest, acc + AsSeq(Recovered(t, now)), now)
  {
    LineFits(t);
    var line := LineFor(t);
    LineLenExact(line, rest, LINE_ROOM);
    var s := line + "\n" + rest;
    assert s[..|line| + 1] == line + "\n";
    assert s[|line| + 1..] == rest;
    assert line[0] in line;
    assert acc + [] == acc;
  }

  lemma {:induction false} BodyStarts(ts: seq<Task>, acc: seq<Task>, now: nat)
    requires ts != [] && Sized(ts[0]) && |acc| < MAX_TASKS
    ensures LoadFrom(Body(ts), acc, now) == LoadFrom(Body(ts[1..]), acc + AsSeq(Recovered(ts[0], now)), now)
  {
    LoadReadsAny(ts[0], Body(ts[1..]), acc, now);
  }

  lemma {:induction false} Regroup(a: seq<Task>, b: seq<Task>, c: seq<Task>)
    ensures a + b + c == a + (b + c)
  {
  }

  lemma {:induction false} BodyRecovers(ts: seq<Task>, acc: seq<Task>, now: nat)
    requires (forall t <- ts :: Sized(t)) && |acc| + |ts| <= MAX_TASKS
    ensures LoadFrom(Body(ts), acc, now) == acc + RecoveredAll(ts, now)
    decreases ts
  {
    if ts == [] {
      assert acc + RecoveredAll(ts, now) == acc;
    } else {
      BodyStarts(ts, acc, now);
      BodyRecovers(ts[1..], acc + AsSeq(Recovered(ts[0], now)), now);
      Regroup(acc, AsSeq(Recovered(ts[0], now)), RecoveredAll(ts[1..], now));
    }
  }

  /** A restart gives back, in order, what each line is read as by itself. */
  lemma {:induction false} FileRecovers(ts: seq<Task>, now: nat)
    requires (forall t <- ts :: Sized(t)) && |ts| <= MAX_TASKS
    ensures Load(Save(ts), now) == RecoveredAll(ts, now)
  {
    Header1IsComment();
    Header2IsComment();
    LoadSkipsTwo(Header1(), Header2(), Body(ts), now);
    BodyRecovers(ts, [], now);
    assert [] + RecoveredAll(ts, now) == RecoveredAll(ts, now);
  }

  /** No text field is empty or holds a bar, and the line does not start like a comment. */
  predicate Survives(t: Task) {
    Clean(t.id) && Clean(t.expr) && Clean(t.cmd) && t.id[0] != '#'
  }

  lemma {:induction false} RecoveredIff(t: Task, now: nat)
    requires Sized(t)
    ensures Recovered(t, now) == Some(Refreshed(t, now)) <==> Survives(t)
  {
    LineRoundTripIff(t, now);
  }

  lemma {:induction false} RefreshedSplit(ts: seq<Task>, now: nat)
    requires ts != []
    ensures RefreshedAll(ts, now) == [Refreshed(ts[0], now)] + RefreshedAll(ts[1..], now)
  {
    RefreshedCons(ts, [], now);
    var tail := RefreshedAll(ts[1..], now);
    assert [] + [Refreshed(ts[0], now)] + tail == [Refreshed(ts[0], now)] + tail;
    assert [] + RefreshedAll(ts, now) == RefreshedAll(ts, now);
  }

  lemma {:induction false} SurvivorsSplit(ts: seq<Task>)
    requires ts != []
    ensures (forall t <- ts :: Survives(t)) <==> Survives(ts[0]) && forall t <- ts[1..] :: Survives(t)
  {
    assert ts == [ts[0]] + ts[1..];
  }

  lemma {:induction false} AllRecovered(ts: seq<Task>, now: nat)
    requires forall t <- ts :: Sized(t)
    ensures RecoveredAll(ts, now) == RefreshedAll(ts, now) <==> forall t <- ts :: Survives(t)
    decreases ts
  {
    if ts != [] {
      AllRecovered(ts[1..], now);
      RecoveredIff(ts[0], now);
      RefreshedSplit(ts, now);
      FirstDecides(Recovered(ts[0], now), RecoveredAll(ts[1..], now), Refreshed(ts[0], now),
          RefreshedAll(ts[1..], now));
      SurvivorsSplit(ts);
    }
  }

  lemma {:induction false} FirstDecides(r: Option<Task>, rest: seq<Task>, first: Task, others: seq<Task>)
    requires |rest| <= |others|
    ensures AsSeq(r) + rest == [first] + others <==> r == Some(first) && rest == others
  {
    var a, b := AsSeq(r) + rest, [first] + others;
    if a == b {
      assert |a| == |b| && a[0] == b[0] && a[1..] == b[1..];
      assert b[1..] == others;
      assert r.Some? ==> a[1..] == rest;
    }
  }

  /** A table without line ends survives a restart exactly if each of its tasks does. */
  lemma {:induction false} FileRoundTripIff(ts: seq<Task>, now: nat)
    requires (forall t <- ts :: Sized(t)) && |ts| <= MAX_TASKS
    ensures Load(Save(ts), now) == RefreshedAll(ts, now) <==> forall t <- ts :: Survives(t)
  {
    FileRecovers(ts, now);
    AllRecovered(ts, now);
  }

  // ---------------------------------------------------------------- line ends

  const EOL: set<char> := {'\n'}

  /** A line end, if any, is the last character. */
  predicate OneLine(s: string) {
    s == "" || Free(s[..|s| - 1], EOL)
  }

  lemma {:induction false} LineIsOne(s: string, room: nat)
    ensures OneLine(s[..LineLen(s, room)])
    decreases |s|
  {
    if s != "" && room > 0 && s[0] != '\n' {
      LineIsOne(s[1..], room - 1);
      var n := LineLen(s[1..], room - 1);
      assert s[..n + 1] == [s[0]] + s[1..][..n];
      assert n > 0 ==> s[..n] == [s[0]] + s[1..][..n - 1];
    }
  }

  lemma {:induction false} TailOneLine(s: string, k: nat)
    requires k <= |s| && OneLine(s)
    ensures OneLine(s[k..])
  {
    if k < |s| {
      assert s[k..][..|s| - k - 1] == s[..|s| - 1][k..];
    }
  }

  /** A token with a line end in it is the last one. */
  lemma {:induction false} TokenWithEnd(s: string)
    requires OneLine(s)
    ensures var (f, rest) := Strtok(s, BAR);
      OneLine(rest) && (f.Some? && !Free(f.value, EOL) ==> rest == "")
    decreases |s|
  {
    if s != "" && s[0] in BAR {
      TailOneLine(s, 1);
      TokenWithEnd(s[1..]);
    } else if s != "" {
      var n := Span(s, BAR);
      TailOneLine(s, if n < |s| then n + 1 else n);
      assert forall i :: 0 <= i < |s| - 1 ==> s[i] in s[..|s| - 1];
    }
  }

  /** Nothing but text was read. */
  predicate Bare(t: Task, now: nat) {
    !t.enabled && t.lastRun == 0 && t.runs == 0 && t.fails == 0 && t.nextRun == now + 60
  }

  /** What can be read at all: clean fields; a line end only in the command of a task without flag and history. */
  predicate Readable(t: Task, now: nat) {
    && Clean(t.id) && Clean(t.expr) && Clean(t.cmd) && Free(t.id, EOL) && Free(t.expr, EOL)
    && (Free(t.cmd, EOL) || Bare(t, now))
  }

  lemma {:induction false} NoMoreTokens(n: nat, k: nat)
    requires k < n
    ensures Cut("", n).0[k] == None && Cut("", n).1 == ""
    decreases n
  {
    if k > 0 {
      NoMoreTokens(n - 1, k - 1);
    } else if n > 1 {
      NoMoreTokens(n - 1, 0);
    }
  }

  lemma {:induction false} BoundedFree(f: string, size: nat)
    requires size > 0 && Free(f, EOL)
    ensures Free(Bounded(f, size), EOL)
  {
  }

  lemma {:induction false} EndedIsBare(ts: seq<Option<string>>, now: nat)
    requires |ts| == 8 && ts[0].Some? && ts[1].Some? && ts[2].Some?
    requires ts[3] == ts[4] == ts[5] == ts[6] == ts[7] == None
    ensures Bare(TaskFrom(ts, now).value, now)
  {
  }

  /** A line that ends in the command is read without flag and history. */
  lemma {:induction false} CutEnded(line: string, r1: string, r2: string, k: nat)
    requires Strtok(line, BAR).1 == r1 && Strtok(r1, BAR).1 == r2 && Strtok(r2, BAR).1 == "" && 3 <= k < 7
    ensures Cut(line, 7).0[k] == None && Cut(line, 7).1 == ""
  {
    NoMoreTokens(4, k - 3);
    assert Cut(r2, 5).0[k - 2] == Cut("", 4).0[k - 3] && Cut(r2, 5).1 == Cut("", 4).1;
    assert Cut(r1, 6).0[k - 1] == Cut(r2, 5).0[k - 2] && Cut(r1, 6).1 == Cut(r2, 5).1;
    assert Cut(line, 7).0[k] == Cut(r1, 6).0[k - 1] && Cut(line, 7).1 == Cut(r1, 6).1;
  }

  lemma {:induction false} CommandEnds(line: string, now: nat)
    requires OneLine(line) && ParseLine(line, now).Some? && !Free(ParseLine(line, now).value.cmd, EOL)
    ensures Bare(ParseLine(line, now).value, now)
  {
    var r1 := Strtok(line, BAR).1;
    var r2 := Strtok(r1, BAR).1;
    TokenWithEnd(line);
    TokenWithEnd(r1);
    TokenWithEnd(r2);
    var ts := Cut(line, 7).0;
    ThreeTokens(line);
    if Free(ts[2].value, EOL) {
      BoundedFree(ts[2].value, CMD_SIZE);
    } else {
      CutEnded(line, r1, r2, 3);
      CutEnded(line, r1, r2, 4);
      CutEnded(line, r1, r2, 5);
      CutEnded(line, r1, r2, 6);
      EndedIsBare(ts + [None], now);
    }
  }

  lemma {:induction false} ParsedIsReadable(line: string, now: nat)
    requires OneLine(line) && ParseLine(line, now).Some?
    ensures Readable(ParseLine(line, now).value, now)
  {
    var t := ParseLine(line, now).value;
    var r1 := Strtok(line, BAR).1;
    ParsedIsClean(line, now);
    ThreeTokens(line);
    TokenWithEnd(line);
    TokenWithEnd(r1);
    BoundedFree(Strtok(line, BAR).0.value, ID_SIZE);
    BoundedFree(Strtok(r1, BAR).0.value, EXPR_SIZE);
    if !Free(t.cmd, EOL) {
      CommandEnds(line, now);
    }
  }

  /** Whatever the file holds, only readable tasks are loaded. */
  lemma {:induction false} LoadedAreReadable(s: string, acc: seq<Task>, now: nat)
    requires forall t <- acc :: Readable(t, now)
    ensures forall t <- LoadFrom(s, acc, now) :: Readable(t, now)
    decreases |s|
  {
    if s != "" && |acc| < MAX_TASKS {
      var n := LineLen(s, LINE_ROOM);
      LineIsOne(s, LINE_ROOM);
      if Skipped(s[..n]) || ParseLine(s[..n], now).None? {
        LoadedAreReadable(s[n..], acc, now);
      } else {
        ParsedIsReadable(s[..n], now);
        LoadedAreReadable(s[n..], acc + [ParseLine(s[..n], now).value], now);
      }
    }
  }

  /**
   * So no table survives that holds a line end in an id or an expression, or in the command of a task that is
   * enabled or has run.
   */
  lemma {:induction false} LineEndIsLost(ts: seq<Task>, i: nat, now: nat)
    requires i < |ts|
    requires !Free(ts[i].id, EOL) || !Free(ts[i].expr, EOL) ||
             (!Free(ts[i].cmd, EOL) && (ts[i].enabled || ts[i].lastRun + ts[i].runs + ts[i].fails > 0))
    ensures Load(Save(ts), now) != RefreshedAll(ts, now)
  {
    LoadedAreReadable(Save(ts), [], now);
    var r := RefreshedAll(ts, now);
    assert r[i] in r && r[i] == Refreshed(ts[i], now);
  }
}
