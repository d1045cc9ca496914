/** What a cron expression means to the scheduler (src/cron/cron.c), told from its fields. */
module CronExpr {
  import opened Basics
  import opened CText
  import opened Cron

  /** A field and the blanks before it. */
  datatype Word = Word(gap: string, text: string)

  predicate Blank(s: string) {
    forall c <- s :: c == ' ' || c == '\t'
  }

  predicate NoBlank(s: string) {
    forall c <- s :: c != ' ' && c != '\t'
  }

  /** Fields are nonempty and hold no blank; blanks stand between them, and may stand before the first. */
  ghost predicate Worded(ws: seq<Word>) {
    && (forall w <- ws :: Blank(w.gap) && w.text != "" && NoBlank(w.text))
    && (forall i :: 0 < i < |ws| ==> ws[i].gap != "")
  }

  function Spell(ws: seq<Word>): string {
    if ws == [] then "" else ws[0].gap + ws[0].text + Spell(ws[1..])
  }

  function Texts(ws: seq<Word>): (ts: seq<string>)
    ensures |ts| == |ws| && forall i :: 0 <= i < |ws| ==> ts[i] == ws[i].text
  {
    seq(|ws|, i requires 0 <= i < |ws| => ws[i].text)
  }

  // ---------------------------------------------------------------- the fields of an expression

  lemma {:induction false} SkipBlanks(gap: string, rest: string)
    requires Blank(gap)
    ensures Strtok(gap + rest, BLANKS) == Strtok(rest, BLANKS)
    decreases gap
  {
    if gap == "" {
      assert gap + rest == rest;
    } else {
      assert (gap + rest)[1..] == gap[1..] + rest;
      assert gap[0] in gap && forall c <- gap[1..] :: c in gap;
      SkipBlanks(gap[1..], rest);
    }
  }

  lemma {:induction false} TokensSkip(gap: string, rest: string)
    requires Blank(gap)
    ensures Tokens(gap + rest, BLANKS) == Tokens(rest, BLANKS)
  {
    SkipBlanks(gap, rest);
  }

  lemma {:induction false} TakeField(f: string, rest: string)
    requires f != "" && Free(f, BLANKS) && (rest != "" ==> rest[0] in BLANKS)
    ensures Tokens(f + rest, BLANKS) == [f] + Tokens(rest, BLANKS)
  {
    var s := f + rest;
    SpanExact(f, rest, BLANKS);
    assert f[0] in f && s[0] == f[0] && s[..|f|] == f;
    if rest == "" {
      assert Strtok(s, BLANKS) == (Some(f), "");
    } else {
      assert s[|f| + 1..] == rest[1..];
      assert Strtok(s, BLANKS) == (Some(f), rest[1..]);
    }
  }

  lemma {:induction false} SpelledHead(ws: seq<Word>, tail: string)
    requires Worded(ws) && Blank(tail) && (ws != [] ==> ws[0].gap != "")
    ensures Spell(ws) + tail != "" ==> (Spell(ws) + tail)[0] in BLANKS
  {
    if ws != [] {
      assert ws[0] in ws && ws[0].gap[0] in ws[0].gap;
    } else if tail != "" {
      assert tail[0] in tail;
    }
  }

  lemma {:induction false} WordedTail(ws: seq<Word>)
    requires Worded(ws) && ws != []
    ensures Worded(ws[1..]) && (ws[1..] != [] ==> ws[1..][0].gap != "")
  {
    assert forall w <- ws[1..] :: w in ws;
  }

  lemma {:induction false} NoFields(tail: string, s: string)
    requires Blank(tail) && s == tail
    ensures Tokens(s, BLANKS) == []
  {
    TokensSkip(tail, "");
    assert tail + "" == tail;
  }

  lemma {:induction false} TakeWord(w: Word, rest: string, s: string)
    requires Blank(w.gap) && w.text != "" && NoBlank(w.text) && (rest != "" ==> rest[0] in BLANKS)
    requires s == w.gap + (w.text + rest)
    ensures Tokens(s, BLANKS) == [w.text] + Tokens(rest, BLANKS)
  {
    TakeField(w.text, rest);
    TokensSkip(w.gap, w.text + rest);
  }

  lemma {:induction false} SpelledStep(ws: seq<Word>, tail: string)
    requires ws != []
    ensures Spell(ws) + tail == ws[0].gap + (ws[0].text + (Spell(ws[1..]) + tail))
  {
    Regroup(ws[0].gap, ws[0].text, Spell(ws[1..]), tail);
  }

  lemma {:induction false} Regroup(a: string, b: string, c: string, d: string)
    ensures a + b + c + d == a + (b + (c + d))
  {
  }

  lemma {:induction false} TextsStep(ws: seq<Word>)
    requires ws != []
    ensures Texts(ws) == [ws[0].text] + Texts(ws[1..])
  {
  }

  /** The token loop finds exactly the fields, whatever blanks separate them. */
  lemma {:induction false} TokensAreFields(ws: seq<Word>, tail: string)
    requires Worded(ws) && Blank(tail)
    ensures Tokens(Spell(ws) + tail, BLANKS) == Texts(ws)
    decreases |ws|
  {
    if ws == [] {
      NoFields(tail, Spell(ws) + tail);
    } else {
      WordedTail(ws);
      SpelledHead(ws[1..], tail);
      TokensAreFields(ws[1..], tail);
      assert ws[0] in ws;
      SpelledStep(ws, tail);
      TextsStep(ws);
      TakeWord(ws[0], Spell(ws[1..]) + tail, Spell(ws) + tail);
    }
  }

  // ---------------------------------------------------------------- what the fields decide

  /** The second field names an hour: as kept in 32 bytes it is no lone star and starts with a number up to 23. */
  predicate NamesHour(f: string) {
    var kept := if |f| <= 31 then f else f[..31];
    kept != "*" && 0 <= Atoi(kept) <= 23
  }

  /** The first time after `now` that is a multiple of `p`. */
  ghost predicate NextMultiple(now: nat, p: nat, t: nat)
    requires p > 0
  {
    now < t <= now + p && t % p == 0
  }

  /**
   * The next run, told from the fields: an hour boundary exactly if the second field names an hour, else a
   * minute boundary, and with fewer than five fields a minute from now. No other field matters.
   */
  lemma {:induction false} NextRunByFields(ws: seq<Word>, tail: string, now: nat)
    requires Worded(ws) && Blank(tail)
    ensures var t := NextRun(Spell(ws) + tail, now);
      if |ws| < 5 then t == now + 60
      else NextMultiple(now, if NamesHour(ws[1].text) then 3600 else 60, t)
  {
    TokensAreFields(ws, tail);
    var expr := Spell(ws) + tail;
    NextRunIsAhead(expr, now);
    if |ws| >= 5 {
      BucketOfNext(now, Period(expr).value);
    }
  }

  /** Two expressions of five or more fields that agree in the second have the same next runs. */
  lemma {:induction false} OnlyTheHourMatters(ws: seq<Word>, tail: string, vs: seq<Word>, end: string, now: nat)
    requires Worded(ws) && Blank(tail) && Worded(vs) && Blank(end) && |ws| >= 5 && |vs| >= 5
    requires ws[1].text == vs[1].text
    ensures NextRun(Spell(ws) + tail, now) == NextRun(Spell(vs) + end, now)
  {
    TokensAreFields(ws, tail);
    TokensAreFields(vs, end);
  }

  /** A number is an hour up to 23, and a lone star is none. */
  lemma {:induction false} HoursAre(n: nat)
    requires n < Pow10(9)
    ensures NamesHour(Digits(n)) <==> n <= 23
    ensures !NamesHour("*")
  {
    AtoiDigits(n);
    DigitsLength(n, 9);
    assert Digits(n)[0] in Digits(n);
  }
}
