/**
 * When dispatches take effect. cron_run_pending reads the clock once, and the push of a job can then wait for
 * room in the ring, or the shell for an earlier command, so a dispatch takes effect at some later moment. The
 * next call of the scheduler waits for its lock, so it reads the clock after that moment.
 */
module CronDelay {
  import opened Basics
  import opened CText
  import opened Cron
  import opened CronFile
  import opened CronSched

  /** The dispatches of a whole run, in order. */
  function LogOf(calls: seq<Call>): seq<Event> {
    Exec(EMPTY, calls).log
  }

  /**
   * `done` gives the moment at which each dispatch of the run took effect: not before its own call read the
   * clock, not after the next call did, and not after `end`, when the run is over.
   */
  ghost predicate Timed(calls: seq<Call>, done: seq<nat>, end: nat) {
    if calls == [] then done == []
    else
      var n := |calls| - 1;
      var k := |LogOf(calls[..n])|;
      && k <= |done| == |LogOf(calls)|
      && Timed(calls[..n], done[..k], calls[n].now)
      && (forall i :: k <= i < |done| ==> calls[n].now <= done[i] <= end)
      && (forall i, j :: k <= i < j < |done| ==> done[i] <= done[j])
  }

  lemma {:induction false} LogGrows(calls: seq<Call>)
    requires calls != []
    ensures LogOf(calls[..|calls| - 1]) <= LogOf(calls)
    ensures forall i :: |LogOf(calls[..|calls| - 1])| <= i < |LogOf(calls)| ==>
            LogOf(calls)[i].time == calls[|calls| - 1].now
  {
    var n := |calls| - 1;
    var s := Exec(EMPTY, calls[..n]);
    forall e <- DueEvents(s.tasks, calls[n].now)
      ensures e.time == calls[n].now
    {
      DueEventsFrom(s.tasks, calls[n].now, e);
    }
  }

  /** A dispatch takes effect after the clock reading that decided it and before the end. */
  lemma {:induction false} DoneBetween(calls: seq<Call>, done: seq<nat>, end: nat, i: nat)
    requires Timed(calls, done, end) && GoodRun(calls) && ClockOf(calls) <= end && i < |done|
    ensures |done| == |LogOf(calls)| && LogOf(calls)[i].time <= done[i] <= end
    decreases calls
  {
    var n := |calls| - 1;
    var k := |LogOf(calls[..n])|;
    LogGrows(calls);
    if i < k {
      PriorRun(calls);
      DoneBetween(calls[..n], done[..k], calls[n].now, i);
    }
  }

  /** And before the reading that decides a dispatch of a later call. */
  lemma {:induction false} DoneBefore(calls: seq<Call>, done: seq<nat>, end: nat, i: nat, j: nat)
    requires Timed(calls, done, end) && GoodRun(calls) && ClockOf(calls) <= end
    requires i < j < |done| && |done| == |LogOf(calls)| && LogOf(calls)[i].time < LogOf(calls)[j].time
    ensures done[i] <= LogOf(calls)[j].time
    decreases calls
  {
    var n := |calls| - 1;
    var k := |LogOf(calls[..n])|;
    LogGrows(calls);
    PriorRun(calls);
    if j < k {
      DoneBefore(calls[..n], done[..k], calls[n].now, i, j);
    } else {
      assert i < k;
      DoneBetween(calls[..n], done[..k], calls[n].now, i);
    }
  }

  // ---------------------------------------------------------------- two dispatches of one task

  /** Dispatch `j` is decided after dispatch `i` took effect, in a later period than `i` was decided. */
  ghost predicate Follows(log: seq<Event>, done: seq<nat>, i: nat, j: nat)
    requires i < |log| == |done| && j < |log|
  {
    log[i].time <= done[i] <= log[j].time <= done[j] && Earlier(log[j].expr, log[i].time, log[j].time)
  }

  /** So do any two dispatches of one task. */
  ghost predicate Delayed(log: seq<Event>, done: seq<nat>) {
    |log| == |done| && forall i, j :: 0 <= i < j < |log| && log[i].id == log[j].id ==> Follows(log, done, i, j)
  }

  lemma {:induction false} EarlierIsBefore(e: Event, f: Event)
    requires Earlier(f.expr, e.time, f.time)
    ensures e.time < f.time
  {
  }

  lemma {:induction false} LaterFollows(calls: seq<Call>, done: seq<nat>, end: nat, i: nat, j: nat)
    requires Timed(calls, done, end) && GoodRun(calls) && ClockOf(calls) <= end
    requires i < j < |done| && |done| == |LogOf(calls)|
    requires Earlier(LogOf(calls)[j].expr, LogOf(calls)[i].time, LogOf(calls)[j].time)
    ensures Follows(LogOf(calls), done, i, j)
  {
    EarlierIsBefore(LogOf(calls)[i], LogOf(calls)[j]);
    DoneBetween(calls, done, end, i);
    DoneBetween(calls, done, end, j);
    DoneBefore(calls, done, end, i, j);
  }

  /** Every run and all delays make such a log. */
  lemma {:induction false} RunIsDelayed(calls: seq<Call>, done: seq<nat>, end: nat)
    requires Timed(calls, done, end) && GoodRun(calls) && ClockOf(calls) <= end
    ensures Delayed(LogOf(calls), done)
  {
    var log := LogOf(calls);
    forall i, j | 0 <= i < j < |log| && log[i].id == log[j].id
      ensures Follows(log, done, i, j)
    {
      OncePerPeriod(calls, i, j);
      LaterFollows(calls, done, end, i, j);
    }
  }

  lemma {:induction false} Monotone(a: nat, b: nat, p: nat)
    requires a <= b && (p == 60 || p == 3600)
    ensures a / p <= b / p
  {
    if p == 60 {
    } else {
    }
  }

  /**
   * Two dispatches of one task take effect in the same period exactly when the earlier one was delayed into
   * the period in which the later one was both decided and carried out.
   */
  lemma {:induction false} SharesPeriodIff(calls: seq<Call>, done: seq<nat>, end: nat, i: nat, j: nat, p: nat)
    requires Timed(calls, done, end) && GoodRun(calls) && ClockOf(calls) <= end
    requires i < j < |done| && |done| == |LogOf(calls)| && LogOf(calls)[i].id == LogOf(calls)[j].id
    requires Period(LogOf(calls)[j].expr) == Some(p)
    ensures done[i] / p == done[j] / p <==>
            done[i] / p == LogOf(calls)[j].time / p && LogOf(calls)[j].time / p == done[j] / p
    ensures done[i] / p == done[j] / p ==> LogOf(calls)[i].time / p < done[i] / p
  {
    RunIsDelayed(calls, done, end);
    assert Follows(LogOf(calls), done, i, j);
    Monotone(done[i], LogOf(calls)[j].time, p);
    Monotone(LogOf(calls)[j].time, done[j], p);
  }

  /** So none do while every dispatch takes effect within the period of its reading. */
  lemma {:induction false} PromptOncePerPeriod(calls: seq<Call>, done: seq<nat>, end: nat, i: nat, j: nat, p: nat)
    requires Timed(calls, done, end) && GoodRun(calls) && ClockOf(calls) <= end
    requires i < j < |done| && |done| == |LogOf(calls)| && LogOf(calls)[i].id == LogOf(calls)[j].id
    requires Period(LogOf(calls)[j].expr) == Some(p) && done[i] / p == LogOf(calls)[i].time / p
    ensures done[i] / p < done[j] / p
  {
    RunIsDelayed(calls, done, end);
    assert Follows(LogOf(calls), done, i, j);
    Monotone(LogOf(calls)[j].time, done[j], p);
  }

  // ---------------------------------------------------------------- how many take effect in a time span

  /** The dispatches of `id` that took effect from `from` to `until`, by their places in the log. */
  function Effects(log: seq<Event>, done: seq<nat>, id: string, from: nat, until: nat): (at: seq<nat>)
    requires |done| == |log|
    ensures forall k :: 0 <= k < |at| ==>
              at[k] < |log| && log[at[k]].id == id && from <= done[at[k]] <= until
    ensures forall k, l :: 0 <= k < l < |at| ==> at[k] < at[l]
    decreases |log|
  {
    if log == [] then []
    else
      var n := |log| - 1;
      Effects(log[..n], done[..n], id, from, until)
      + if log[n].id == id && from <= done[n] <= until then [n] else []
  }

  /** The clock readings of the dispatches at these places, but for the first. */
  function LaterReadings(log: seq<Event>, at: seq<nat>): (ts: seq<nat>)
    requires forall k :: 0 <= k < |at| ==> at[k] < |log|
    ensures |ts| == if at == [] then 0 else |at| - 1
    ensures forall k :: 0 <= k < |ts| ==> ts[k] == log[at[k + 1]].time
  {
    if at == [] then [] else seq(|at| - 1, k requires 0 <= k < |at| - 1 => log[at[k + 1]].time)
  }

  ghost predicate AllPeriod(log: seq<Event>, id: string, p: nat) {
    forall e <- log :: e.id == id ==> Period(e.expr) == Some(p)
  }

  lemma {:induction false} ReadingsRise(log: seq<Event>, done: seq<nat>, id: string, p: nat, i: nat, j: nat)
    requires Delayed(log, done) && AllPeriod(log, id, p) && (p == 60 || p == 3600)
    requires i < j < |log| && log[i].id == log[j].id == id
    ensures Before(log[i].time, log[j].time, p) && done[i] <= log[j].time <= done[j]
  {
    assert Follows(log, done, i, j) && log[j] in log;
  }

  lemma {:induction false} EffectsFit(log: seq<Event>, done: seq<nat>, id: string, p: nat, from: nat, span: nat)
    requires Delayed(log, done) && AllPeriod(log, id, p) && (p == 60 || p == 3600)
    ensures |Effects(log, done, id, from, from + span)| <= span / p + 3
  {
    var at := Effects(log, done, id, from, from + span);
    var ts := LaterReadings(log, at);
    forall k | 0 <= k < |ts|
      ensures from / p <= ts[k] / p <= (from + span) / p
    {
      ReadingsRise(log, done, id, p, at[0], at[k + 1]);
      Monotone(from, ts[k], p);
      Monotone(ts[k], from + span, p);
    }
    forall k, l | 0 <= k < l < |ts|
      ensures Before(ts[k], ts[l], p)
    {
      ReadingsRise(log, done, id, p, at[k + 1], at[l + 1]);
    }
    SpanBuckets(from, span, p);
    RisingFits(ts, p, from / p, (from + span) / p);
  }

  /** Whatever the delays, in T seconds at most T / interval + 3 dispatches of a task take effect. */
  lemma {:induction false} EffectRate(calls: seq<Call>, done: seq<nat>, end: nat, id: string, expr: string, p: nat,
                                      from: nat, span: nat)
    requires Timed(calls, done, end) && GoodRun(calls) && ClockOf(calls) <= end && |done| == |LogOf(calls)|
    requires Period(expr) == Some(p) && forall c <- calls :: AddsOnly(c.op, id, expr)
    ensures |Effects(LogOf(calls), done, id, from, from + span)| <= span / p + 3
  {
    RunCarries(calls, id, expr);
    RunIsDelayed(calls, done, end);
    EffectsFit(LogOf(calls), done, id, p, from, span);
  }

  // ---------------------------------------------------------------- the bound is reached

  /** A reading of `now` by cron_run_pending. */
  function TickAt(now: nat): Call {
    Call(Tick(true, _ => 0), now)
  }

  /** One task, added at 0; ticks that read 60 and 179, and 189 and every full minute after that. */
  function LateCalls(id: string, expr: string, cmd: string, m: nat): (calls: seq<Call>)
    ensures |calls| == m + 4
  {
    if m > 0 then LateCalls(id, expr, cmd, m - 1) + [TickAt(189 + 60 * m)]
    else [Call(Add(id, expr, cmd), 0)] + [TickAt(60)] + [TickAt(179)] + [TickAt(189)]
  }

  /** The push of the first job has to wait until 169, those of the others return at once. */
  function LateDone(m: nat): (done: seq<nat>)
    ensures |done| == m + 3 && forall i :: 0 <= i < |done| ==> 169 <= done[i] <= 189 + 60 * m
    ensures done[0] == 169 && done[1] == 179
  {
    if m > 0 then LateDone(m - 1) + [189 + 60 * m] else [] + [169] + [179] + [189]
  }

  /** The one task, when it is next due, and how often it was dispatched. */
  ghost predicate AtStep(s: Sched, id: string, expr: string, next: nat, n: nat) {
    && |s.tasks| == 1 && s.tasks[0].id == id && s.tasks[0].expr == expr && s.tasks[0].enabled
    && s.tasks[0].nextRun == next && |s.log| == n && forall e <- s.log :: e.id == id
  }

  lemma {:induction false} TickOfOne(s: Sched, t: Task, now: nat)
    requires s.tasks == [t] && Due(t, now)
    ensures var s' := Apply(s, TickAt(now).op, now);
      s'.tasks == [Dispatched(t, now, true)] && s'.log == s.log + [Event(t.id, t.expr, now)]
  {
    assert [t][..0] == [];
    assert DueEvents([t], now) == [Event(t.id, t.expr, now)];
  }

  lemma {:induction false} StepOfOne(s: Sched, id: string, expr: string, next: nat, n: nat, now: nat)
    requires AtStep(s, id, expr, next, n) && next <= now && Period(expr) == Some(60)
    ensures AtStep(Apply(s, TickAt(now).op, now), id, expr, (now / 60 + 1) * 60, n + 1)
  {
    assert s.tasks == [s.tasks[0]];
    TickOfOne(s, s.tasks[0], now);
  }

  lemma {:induction false} ExecSnoc(calls: seq<Call>, c: Call)
    ensures Exec(EMPTY, calls + [c]) == Apply(Exec(EMPTY, calls), c.op, c.now)
    ensures (calls + [c])[..|calls|] == calls
  {
  }

  lemma {:induction false} TimedSnoc(calls: seq<Call>, done: seq<nat>, c: Call, d: nat, end: nat)
    requires |done| == |LogOf(calls)| && |LogOf(calls + [c])| == |done| + 1
    requires Timed(calls, done, c.now) && c.now <= d <= end
    ensures Timed(calls + [c], done + [d], end)
  {
    ExecSnoc(calls, c);
    assert (done + [d])[..|done|] == done;
  }

  /** The one task was dispatched, and took effect, once for each of `done`. */
  ghost predicate Going(calls: seq<Call>, done: seq<nat>, id: string, expr: string, next: nat, end: nat) {
    AtStep(Exec(EMPTY, calls), id, expr, next, |done|) && Timed(calls, done, end)
  }

  /** One more tick, decided at `now` and carried out at `d`. */
  lemma {:induction false} OneMore(calls: seq<Call>, done: seq<nat>, id: string, expr: string, next: nat,
                                   now: nat, d: nat, end: nat)
    requires Going(calls, done, id, expr, next, now) && Period(expr) == Some(60) && next <= now <= d <= end
    ensures Going(calls + [TickAt(now)], done + [d], id, expr, (now / 60 + 1) * 60, end)
  {
    ExecSnoc(calls, TickAt(now));
    StepOfOne(Exec(EMPTY, calls), id, expr, next, |done|, now);
    TimedSnoc(calls, done, TickAt(now), d, end);
  }

  lemma {:induction false} LateAdd(id: string, expr: string, cmd: string)
    requires TextOk(id, ID_SIZE) && TextOk(expr, EXPR_SIZE) && Period(expr) == Some(60)
    ensures Going([Call(Add(id, expr, cmd), 0)], [], id, expr, 60, 60)
  {
    ExecSnoc([], Call(Add(id, expr, cmd), 0));
    assert [] + [Call(Add(id, expr, cmd), 0)] == [Call(Add(id, expr, cmd), 0)];
  }

  lemma {:induction false} LateStarts(id: string, expr: string, cmd: string, end: nat)
    requires TextOk(id, ID_SIZE) && TextOk(expr, EXPR_SIZE) && Period(expr) == Some(60) && end >= 189
    ensures Going(LateCalls(id, expr, cmd, 0), LateDone(0), id, expr, 240, end)
  {
    var add := [Call(Add(id, expr, cmd), 0)];
    LateAdd(id, expr, cmd);
    OneMore(add, [], id, expr, 60, 60, 169, 179);
    OneMore(add + [TickAt(60)], [] + [169], id, expr, 120, 179, 179, 189);
    OneMore(add + [TickAt(60)] + [TickAt(179)], [] + [169] + [179], id, expr, 180, 189, 189, end);
  }

  lemma {:induction false} NextMinute(m: nat)
    ensures ((189 + 60 * m) / 60 + 1) * 60 == 240 + 60 * m
  {
  }

  lemma {:induction false} MinuteMore(calls: seq<Call>, done: seq<nat>, id: string, expr: string, m: nat, end: nat)
    requires Going(calls, done, id, expr, 180 + 60 * m, 189 + 60 * m) && Period(expr) == Some(60)
    requires end >= 189 + 60 * m
    ensures Going(calls + [TickAt(189 + 60 * m)], done + [189 + 60 * m], id, expr, 240 + 60 * m, end)
  {
    NextMinute(m);
    OneMore(calls, done, id, expr, 180 + 60 * m, 189 + 60 * m, 189 + 60 * m, end);
  }

  lemma {:induction false} LateGoesOn(id: string, expr: string, cmd: string, m: nat, end: nat)
    requires TextOk(id, ID_SIZE) && TextOk(expr, EXPR_SIZE) && Period(expr) == Some(60) && end >= 189 + 60 * m
    ensures Going(LateCalls(id, expr, cmd, m), LateDone(m), id, expr, 240 + 60 * m, end)
    decreases m
  {
    if m == 0 {
      LateStarts(id, expr, cmd, end);
    } else {
      LateGoesOn(id, expr, cmd, m - 1, 189 + 60 * m);
      MinuteMore(LateCalls(id, expr, cmd, m - 1), LateDone(m - 1), id, expr, m, end);
    }
  }

  lemma {:induction false} GoodSnoc(calls: seq<Call>, c: Call)
    requires GoodRun(calls) && GoodCall(c) && ClockOf(calls) <= c.now && |calls| + 1 < Pow10(CLOCK_DIGITS)
    ensures GoodRun(calls + [c])
  {
    assert forall i :: 0 <= i < |calls| ==> calls[i].now <= ClockOf(calls);
  }

  ghost predicate GoodUntil(calls: seq<Call>, now: nat) {
    GoodRun(calls) && ClockOf(calls) == now && |calls| <= now + 1
  }

  lemma {:induction false} GoodTick(calls: seq<Call>, before: nat, now: nat)
    requires GoodUntil(calls, before) && before < now && now + 3600 < Pow10(CLOCK_DIGITS)
    ensures GoodUntil(calls + [TickAt(now)], now)
  {
    GoodSnoc(calls, TickAt(now));
  }

  lemma {:induction false} StartIsGood(add: Call)
    requires GoodCall(add) && add.now == 0 && 189 + 3600 < Pow10(CLOCK_DIGITS)
    ensures var calls := [add] + [TickAt(60)] + [TickAt(179)] + [TickAt(189)];
      GoodUntil(calls, 189)
  {
    assert GoodUntil([add], 0);
    GoodTick([add], 0, 60);
    GoodTick([add] + [TickAt(60)], 60, 179);
    GoodTick([add] + [TickAt(60)] + [TickAt(179)], 179, 189);
  }

  lemma {:induction false} LateIsGood(id: string, expr: string, cmd: string, m: nat)
    requires TextOk(id, ID_SIZE) && id[0] != '#' && TextOk(expr, EXPR_SIZE) && TextOk(cmd, CMD_SIZE)
    requires 189 + 60 * m + 3600 < Pow10(CLOCK_DIGITS)
    ensures GoodUntil(LateCalls(id, expr, cmd, m), 189 + 60 * m)
    decreases m
  {
    if m == 0 {
      StartIsGood(Call(Add(id, expr, cmd), 0));
    } else {
      LateIsGood(id, expr, cmd, m - 1);
      GoodTick(LateCalls(id, expr, cmd, m - 1), 129 + 60 * m, 189 + 60 * m);
    }
  }

  lemma {:induction false} AllTakeEffect(log: seq<Event>, done: seq<nat>, id: string, from: nat, until: nat)
    requires |done| == |log| && (forall e <- log :: e.id == id)
    requires forall i :: 0 <= i < |done| ==> from <= done[i] <= until
    ensures |Effects(log, done, id, from, until)| == |log|
    decreases |log|
  {
    if log != [] {
      var n := |log| - 1;
      AllTakeEffect(log[..n], done[..n], id, from, until);
    }
  }

  /**
   * The bound is reached for every number of minutes, after one push that had to wait: a task that runs every
   * minute takes effect m + 3 times in 60 m + 20 seconds, its first two times in the same minute.
   */
  lemma {:induction false} DelaysBunch(id: string, expr: string, cmd: string, m: nat)
    requires TextOk(id, ID_SIZE) && id[0] != '#' && TextOk(expr, EXPR_SIZE) && TextOk(cmd, CMD_SIZE)
    requires Period(expr) == Some(60) && 189 + 60 * m + 3600 < Pow10(CLOCK_DIGITS)
    ensures GoodRun(LateCalls(id, expr, cmd, m)) && ClockOf(LateCalls(id, expr, cmd, m)) == 189 + 60 * m
    ensures Timed(LateCalls(id, expr, cmd, m), LateDone(m), 189 + 60 * m)
    ensures |LogOf(LateCalls(id, expr, cmd, m))| == |LateDone(m)| && LateDone(m)[0] / 60 == LateDone(m)[1] / 60
    ensures var span := 60 * m + 20;
      |Effects(LogOf(LateCalls(id, expr, cmd, m)), LateDone(m), id, 169, 169 + span)| == m + 3 == span / 60 + 3
  {
    LateIsGood(id, expr, cmd, m);
    LateGoesOn(id, expr, cmd, m, 189 + 60 * m);
    AllTakeEffect(LogOf(LateCalls(id, expr, cmd, m)), LateDone(m), id, 169, 189 + 60 * m);
  }

  // ---------------------------------------------------------------- an expression for every minute

  function StarThen(rest: string): string {
    "*" + [' '] + rest
  }

  lemma {:induction false} OneStar(s: string)
    requires s == "*"
    ensures Tokens(s, BLANKS) == [s]
  {
    SpanExact(s, "", BLANKS);
    assert s + "" == s;
    assert Strtok(s, BLANKS) == (Some(s), "");
  }

  lemma {:induction false} StarMore(rest: string, s: string, star: string)
    requires s == StarThen(rest) && star == "*"
    ensures Tokens(s, BLANKS) == [star] + Tokens(rest, BLANKS)
  {
    StrtokField(star, ' ', rest, BLANKS);
  }

  lemma {:induction false} FiveTokens(a: string, b: string, c: string, d: string, e: string)
    requires a == "*" && b == StarThen(a) && c == StarThen(b) && d == StarThen(c) && e == StarThen(d)
    ensures Tokens(e, BLANKS) == [a] + ([a] + ([a] + ([a] + [a])))
  {
    OneStar(a);
    StarMore(a, b, a);
    StarMore(b, c, a);
    StarMore(c, d, a);
    StarMore(d, e, a);
  }

  lemma {:induction false} StarsFree(rest: string)
    requires Free(rest, BAR_OR_EOL)
    ensures Free(StarThen(rest), BAR_OR_EOL)
  {
  }

  lemma {:induction false} HourIsStar(s: string, star: string)
    requires Tokens(s, BLANKS) == [star] + ([star] + ([star] + ([star] + [star]))) && star == "*"
    ensures Period(s) == Some(60)
  {
  }

  /** Five stars run every minute. */
  lemma {:induction false} EveryMinute(a: string, b: string, c: string, d: string, e: string)
    requires a == "*" && b == StarThen(a) && c == StarThen(b) && d == StarThen(c) && e == StarThen(d)
    ensures Period(e) == Some(60) && TextOk(e, EXPR_SIZE)
  {
    FiveTokens(a, b, c, d, e);
    HourIsStar(e, a);
    StarsFree(a);
    StarsFree(b);
    StarsFree(c);
    StarsFree(d);
  }
}
