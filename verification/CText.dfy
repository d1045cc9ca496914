/** The C text routines the programs lean on: atoi, "%d", strtok, fgets and bounded copies. */
module CText {
  import opened Basics

  // ---------------------------------------------------------------- numbers

  predicate IsDigit(c: char) {
    '0' <= c <= '9'
  }

  predicate IsSpace(c: char) {
    c == ' ' || '\t' <= c <= '\r'
  }

  function DigitChar(d: nat): (c: char)
    requires d < 10
    ensures IsDigit(c) && c as int - '0' as int == d
  {
    ('0' as int + d) as char
  }

  /** "%d" and "%ld" of a nonnegative number. */
  function Digits(n: nat): (s: string)
    ensures |s| >= 1
    ensures forall c <- s :: IsDigit(c)
  {
    if n < 10 then [DigitChar(n)] else Digits(n / 10) + [DigitChar(n % 10)]
  }

  function ReadNat(s: string, acc: nat): nat {
    if s == "" || !IsDigit(s[0]) then acc
    else ReadNat(s[1..], 10 * acc + (s[0] as int - '0' as int))
  }

  function SkipSpace(s: string): (r: string)
    ensures |r| <= |s|
  {
    if s != "" && IsSpace(s[0]) then SkipSpace(s[1..]) else s
  }

  /** atoi and atol, without the machine bound on the result. */
  function Atoi(s: string): int {
    var t := SkipSpace(s);
    if t != "" && t[0] == '-' then 0 - ReadNat(t[1..], 0) as int
    else if t != "" && t[0] == '+' then ReadNat(t[1..], 0)
    else ReadNat(t, 0)
  }

  lemma {:induction false} ReadNatAppend(a: string, b: string, acc: nat)
    requires forall c <- a :: IsDigit(c)
    ensures ReadNat(a + b, acc) == ReadNat(b, ReadNat(a, acc))
    decreases a
  {
    if a == "" {
      assert a + b == b;
    } else {
      assert (a + b)[1..] == a[1..] + b;
      assert IsDigit(a[0]);
      ReadNatAppend(a[1..], b, 10 * acc + (a[0] as int - '0' as int));
    }
  }

  lemma {:induction false} ReadDigits(n: nat)
    ensures ReadNat(Digits(n), 0) == n
  {
    if n < 10 {
      assert Digits(n)[1..] == "";
    } else {
      ReadDigits(n / 10);
      var last := [DigitChar(n % 10)];
      ReadNatAppend(Digits(n / 10), last, 0);
      assert last[1..] == "";
    }
  }

  /** Reading back what was printed. */
  lemma {:induction false} AtoiDigits(n: nat)
    ensures Atoi(Digits(n)) == n
  {
    ReadDigits(n);
    assert IsDigit(Digits(n)[0]);
  }

  /** "%d" of any number. */
  function Decimal(n: int): string {
    if n < 0 then "-" + Digits(-n) else Digits(n)
  }

  lemma {:induction false} AtoiDecimal(n: int)
    ensures Atoi(Decimal(n)) == n
  {
    if n < 0 {
      ReadDigits(-n);
      assert ("-" + Digits(-n))[1..] == Digits(-n);
    } else {
      AtoiDigits(n);
    }
  }

  lemma {:induction false} SkipSpaces(blanks: string, s: string)
    requires (forall c <- blanks :: IsSpace(c)) && (s != "" ==> !IsSpace(s[0]))
    ensures SkipSpace(blanks + s) == s
    decreases blanks
  {
    if blanks == "" {
      assert blanks + s == s;
    } else {
      assert (blanks + s)[1..] == blanks[1..] + s;
      SkipSpaces(blanks[1..], s);
    }
  }

  lemma {:induction false} ReadsNumber(n: nat, rest: string)
    requires rest != "" ==> !IsDigit(rest[0])
    ensures ReadNat(Digits(n) + rest, 0) == n && IsDigit((Digits(n) + rest)[0])
  {
    ReadDigits(n);
    ReadNatAppend(Digits(n), rest, 0);
    assert Digits(n)[0] in Digits(n);
  }

  /** atoi reads the number behind any white space, up to the first character that is no digit. */
  lemma {:induction false} AtoiReads(blanks: string, n: int, rest: string)
    requires forall c <- blanks :: c in {' ', '\t', '\n', '\r'}
    requires rest != "" ==> !IsDigit(rest[0])
    ensures Atoi(blanks + (Decimal(n) + rest)) == n
  {
    var s := Decimal(n) + rest;
    if n < 0 {
      ReadsNumber(-n, rest);
      assert s == ['-'] + (Digits(-n) + rest);
      assert s[1..] == Digits(-n) + rest;
    } else {
      ReadsNumber(n, rest);
    }
    SkipSpaces(blanks, s);
  }

  function Pow10(k: nat): nat {
    if k == 0 then 1 else 10 * Pow10(k - 1)
  }

  lemma {:induction false} DigitsLength(n: nat, k: nat)
    requires 1 <= k && n < Pow10(k)
    ensures |Digits(n)| <= k
    decreases k
  {
    if n >= 10 {
      assert k > 1;
      DigitsLength(n / 10, k - 1);
    }
  }

  // ---------------------------------------------------------------- strtok

  predicate Free(s: string, delims: set<char>) {
    forall c <- s :: c !in delims
  }

  /** Length of the longest prefix without a delimiter. */
  function Span(s: string, delims: set<char>): (n: nat)
    ensures n <= |s| && Free(s[..n], delims)
    ensures n < |s| ==> s[n] in delims
  {
    if s == "" || s[0] in delims then 0
    else
      var n := Span(s[1..], delims);
      assert s[..n + 1] == [s[0]] + s[1..][..n];
      n + 1
  }

  /** One strtok call: the token, if any, and where the next call continues. */
  function Strtok(s: string, delims: set<char>): (r: (Option<string>, string))
    ensures |r.1| <= |s|
    ensures r.0.Some? ==> r.0.value != "" && Free(r.0.value, delims) && |r.1| < |s|
  {
    if s == "" then (None, "")
    else if s[0] in delims then Strtok(s[1..], delims)
    else
      var n := Span(s, delims);
      (Some(s[..n]), if n < |s| then s[n + 1..] else "")
  }

  lemma {:induction false} SpanExact(f: string, tail: string, delims: set<char>)
    requires Free(f, delims) && (tail != "" ==> tail[0] in delims)
    ensures Span(f + tail, delims) == |f|
    decreases f
  {
    if f == "" {
      assert f + tail == tail;
    } else {
      assert (f + tail)[1..] == f[1..] + tail;
      SpanExact(f[1..], tail, delims);
    }
  }

  /** A nonempty field followed by a delimiter is what strtok returns. */
  lemma {:induction false} StrtokField(f: string, c: char, rest: string, delims: set<char>)
    requires f != "" && Free(f, delims) && c in delims
    ensures Strtok(f + [c] + rest, delims) == (Some(f), rest)
  {
    var s := f + [c] + rest;
    assert s == f + ([c] + rest);
    SpanExact(f, [c] + rest, delims);
    assert s[0] == f[0];
  }

  // ---------------------------------------------------------------- fgets and snprintf

  /** snprintf(buf, size, "%s", s). */
  function Bounded(s: string, size: nat): (r: string)
    requires size > 0
    ensures r <= s && |r| < size
    ensures |s| < size ==> r == s
  {
    if |s| < size then s else s[..size - 1]
  }

  /** Length of what one fgets call with room for `room` characters takes. */
  function LineLen(s: string, room: nat): (n: nat)
    ensures n <= |s| && n <= room
    ensures s != "" && room > 0 ==> n > 0
  {
    if s == "" || room == 0 then 0
    else if s[0] == '\n' then 1
    else 1 + LineLen(s[1..], room - 1)
  }

  lemma {:induction false} LineLenExact(f: string, rest: string, room: nat)
    requires Free(f, {'\n'}) && |f| < room
    ensures LineLen(f + "\n" + rest, room) == |f| + 1
    decreases f
  {
    if f != "" {
      assert (f + "\n" + rest)[1..] == f[1..] + "\n" + rest;
      LineLenExact(f[1..], rest, room - 1);
    }
  }
}
