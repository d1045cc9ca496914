/**
 * Percent-encoding (src/util/util.c) and JSON string escaping (src/gateway/gateway.c, src/util/util.c), with
 * their buffer limits.
 */
module Escape {
  import opened Basics
  import opened CText

  /** The characters of a C string: bytes, none of them NUL. */
  predicate Bytes(s: string) {
    forall i :: 0 <= i < |s| ==> IsByte(s[i])
  }

  predicate IsByte(c: char) {
    0 < c as int < 256
  }

  lemma {:induction false} FirstAndRest(s: string, room: nat)
    requires s != "" && room > 0
    ensures s[..Min(|s|, room)] == [s[0]] + s[1..][..Min(|s| - 1, room - 1)]
  {
  }

  // ---------------------------------------------------------------- encoding character by character

  /** All of `s`, each character replaced by its piece. */
  function Full(piece: char -> string, s: string): string {
    if s == "" then "" else piece(s[0]) + Full(piece, s[1..])
  }

  /** How many characters the loop takes that goes on while fewer than `limit` characters are written. */
  function Taken(piece: char -> string, s: string, limit: int): (n: nat)
    ensures n <= |s|
  {
    if s == "" || limit <= 0 then 0 else 1 + Taken(piece, s[1..], limit - |piece(s[0])|)
  }

  /** What such a loop writes: no piece is ever split. */
  function Encoded(piece: char -> string, s: string, limit: int): string {
    Full(piece, s[..Taken(piece, s, limit)])
  }

  lemma {:induction false} FullSnoc(piece: char -> string, s: string, i: nat)
    requires i < |s|
    ensures Full(piece, s[..i + 1]) == Full(piece, s[..i]) + piece(s[i])
    decreases s
  {
    if i == 0 {
      assert s[..1][1..] == "" && s[..0] == "";
      assert piece(s[0]) + "" == piece(s[0]) && "" + piece(s[0]) == piece(s[0]);
    } else {
      FullSnoc(piece, s[1..], i - 1);
      assert s[..i + 1][1..] == s[1..][..i];
      assert s[..i][1..] == s[1..][..i - 1];
    }
  }

  /** The loop takes everything exactly when there is still room before the last character. */
  lemma {:induction false} TakesAll(piece: char -> string, s: string, limit: int)
    requires s != ""
    ensures Taken(piece, s, limit) == |s| <==> |Full(piece, s[..|s| - 1])| < limit
    decreases s
  {
    if |s| == 1 {
      assert s[..0] == "";
    } else {
      TakesAll(piece, s[1..], limit - |piece(s[0])|);
      assert s[..|s| - 1][1..] == s[1..][..|s| - 2];
    }
  }

  // ---------------------------------------------------------------- percent-encoding

  function HexDigit(d: nat): char
    requires d < 16
  {
    if d < 10 then ('0' as int + d) as char else ('A' as int + d - 10) as char
  }

  /** The unreserved characters of section 2.3 of RFC 3986. */
  predicate Unreserved(c: char) {
    'a' <= c <= 'z' || 'A' <= c <= 'Z' || '0' <= c <= '9' || c == '-' || c == '_' || c == '.' || c == '~'
  }

  /** The cast to unsigned char. */
  function Byte(c: char): (b: nat)
    ensures b < 256
  {
    if c as int < 256 then c as int else c as int % 256
  }

  function UrlPiece(c: char): (r: string)
    ensures 1 <= |r| <= 3
  {
    if Unreserved(c) then [c]
    else ['%', HexDigit(Byte(c) / 16), HexDigit(Byte(c) % 16)]
  }

  function HexValue(c: char): (v: nat)
    ensures v <= 16
  {
    if '0' <= c <= '9' then c as int - '0' as int
    else if 'a' <= c <= 'f' then c as int - 'a' as int + 10
    else if 'A' <= c <= 'F' then c as int - 'A' as int + 10
    else 16
  }

  /** strtol of two characters in base 16, cut to a byte; text that is no number counts as far as it goes. */
  function HexPair(a: char, b: char): (c: char)
    ensures c as int < 256
  {
    var x, y := HexValue(a), HexValue(b);
    if x < 16 then (if y < 16 then (16 * x + y) as char else x as char)
    else if y < 16 && (IsSpace(a) || a == '+') then y as char
    else if y < 16 && a == '-' then ((256 - y) % 256) as char
    else 0 as char
  }

  /** The digits are the sixteen hexadecimal ones, written in capitals and read in both cases. */
  lemma {:induction false} HexDigitsAre(d: nat)
    requires d < 16
    ensures HexDigit(d) == "0123456789ABCDEF"[d]
    ensures HexValue("0123456789ABCDEF"[d]) == d == HexValue("0123456789abcdef"[d])
  {
  }

  /** A character stays as it is exactly if it is a letter, a digit or one of four marks; else it is three. */
  lemma {:induction false} UrlPieceIs(c: char)
    ensures |UrlPiece(c)| == 1 <==>
            'a' <= c <= 'z' || 'A' <= c <= 'Z' || '0' <= c <= '9' || c in "-_.~"
    ensures |UrlPiece(c)| == 1 ==> UrlPiece(c) == [c]
    ensures |UrlPiece(c)| != 1 ==> |UrlPiece(c)| == 3 && UrlPiece(c)[0] == '%'
  {
  }

  /** util_url_decode with room for `room` characters. */
  function UrlDecoded(t: string, room: nat): (r: string)
    ensures |r| <= room
  {
    if t == "" || room == 0 then ""
    else if t[0] == '%' && |t| >= 3 then [HexPair(t[1], t[2])] + UrlDecoded(t[3..], room - 1)
    else [if t[0] == '+' then ' ' else t[0]] + UrlDecoded(t[1..], room - 1)
  }

  lemma {:induction false} PairReadsByte(c: char)
    requires IsByte(c)
    ensures HexPair(HexDigit(c as int / 16), HexDigit(c as int % 16)) == c
  {
  }

  lemma {:induction false} DecodePlain(c: char, t: string, room: nat)
    requires Unreserved(c) && room > 0
    ensures UrlDecoded([c] + t, room) == [c] + UrlDecoded(t, room - 1)
  {
    assert ([c] + t)[1..] == t;
  }

  lemma {:induction false} DecodeHex(a: char, b: char, t: string, room: nat)
    requires room > 0
    ensures UrlDecoded(['%', a, b] + t, room) == [HexPair(a, b)] + UrlDecoded(t, room - 1)
  {
    assert (['%', a, b] + t)[3..] == t;
  }

  /** A plus is a blank, a percent sign without two characters behind it stands for itself. */
  lemma {:induction false} DecodeOther(c: char, t: string, room: nat)
    requires room > 0 && (c == '%' ==> |t| < 2)
    ensures UrlDecoded([c] + t, room) == [if c == '+' then ' ' else c] + UrlDecoded(t, room - 1)
  {
    assert ([c] + t)[1..] == t;
  }

  /** Two digits are a byte; one digit counts by itself, also behind a blank or a sign; anything else is 0. */
  lemma {:induction false} PairIs(a: char, b: char, d: nat, e: nat)
    requires d < 16 && e < 16
    ensures HexValue(a) == d && HexValue(b) == e ==> HexPair(a, b) as int == 16 * d + e
    ensures HexValue(a) == d && HexValue(b) == 16 ==> HexPair(a, b) as int == d
    ensures HexValue(b) == e && (a == ' ' || a == '+') ==> HexPair(a, b) as int == e
    ensures HexValue(b) == e && a == '-' ==> HexPair(a, b) as int == (256 - e) % 256
    ensures HexValue(a) == 16 && HexValue(b) == 16 ==> HexPair(a, b) as int == 0
  {
  }

  lemma {:induction false} PieceOfByte(c: char)
    requires IsByte(c) && !Unreserved(c)
    ensures UrlPiece(c) == ['%', HexDigit(c as int / 16), HexDigit(c as int % 16)]
  {
  }

  lemma {:induction false} DecodePiece(c: char, t: string, room: nat)
    requires IsByte(c) && room > 0
    ensures UrlDecoded(UrlPiece(c) + t, room) == [c] + UrlDecoded(t, room - 1)
  {
    if Unreserved(c) {
      DecodePlain(c, t, room);
    } else {
      PieceOfByte(c);
      PairReadsByte(c);
      DecodeHex(UrlPiece(c)[1], UrlPiece(c)[2], t, room);
    }
  }

  lemma {:induction false} DecodeFull(s: string, room: nat)
    requires Bytes(s)
    ensures UrlDecoded(Full(UrlPiece, s), room) == s[..Min(|s|, room)]
    decreases s
  {
    if s != "" && room > 0 {
      assert IsByte(s[0]);
      DecodePiece(s[0], Full(UrlPiece, s[1..]), room);
      DecodeFull(s[1..], room - 1);
      FirstAndRest(s, room);
    }
  }

  /** Decoding what was encoded gives back what was taken, as far as the second buffer holds it. */
  lemma {:induction false} UrlRoundTrip(s: string, size: nat, decodeSize: nat)
    requires Bytes(s) && size >= 4 && decodeSize >= 1
    ensures UrlDecoded(Encoded(UrlPiece, s, size - 4), decodeSize - 1) ==
            s[..Min(Taken(UrlPiece, s, size - 4), decodeSize - 1)]
  {
    var n := Taken(UrlPiece, s, size - 4);
    DecodeFull(s[..n], decodeSize - 1);
    assert s[..n][..Min(n, decodeSize - 1)] == s[..Min(n, decodeSize - 1)];
  }

  /** It gives back all of a nonempty text exactly when neither buffer runs out. */
  lemma {:induction false} UrlRoundTripWhole(s: string, size: nat, decodeSize: nat)
    requires Bytes(s) && s != "" && size >= 4 && decodeSize >= 1
    ensures UrlDecoded(Encoded(UrlPiece, s, size - 4), decodeSize - 1) == s <==>
            |Full(UrlPiece, s[..|s| - 1])| < size - 4 && |s| < decodeSize
  {
    UrlRoundTrip(s, size, decodeSize);
    TakesAll(UrlPiece, s, size - 4);
    assert s[..|s|] == s;
  }

  // ---------------------------------------------------------------- JSON strings

  function JsonPiece(c: char): (r: string)
    ensures 1 <= |r| <= 2
  {
    if c == '"' || c == '\\' then ['\\', c]
    else if c == '\n' then "\\n"
    else if c == '\r' then "\\r"
    else [c]
  }

  function Unescaped(c: char): char {
    if c == 'n' then '\n' else if c == 'r' then '\r' else if c == 't' then '\t' else c
  }

  /** The loop of json_parse_string: the text so far and where it stopped. */
  function JsonBody(t: string, room: nat): (string, string)
    decreases t
  {
    if t == "" || t[0] == '"' || room == 0 then ("", t)
    else if t[0] == '\\' && |t| >= 2 then
      var (r, rest) := JsonBody(t[2..], room - 1);
      ([Unescaped(t[1])] + r, rest)
    else
      var (r, rest) := JsonBody(t[1..], room - 1);
      ([t[0]] + r, rest)
  }

  /** json_parse_string with a buffer of `size`. */
  function JsonParsed(p: string, size: nat): Option<(string, string)>
    requires size > 0
  {
    if p == "" || p[0] != '"' then None
    else
      var (r, rest) := JsonBody(p[1..], size - 1);
      Some((r, if rest != "" && rest[0] == '"' then rest[1..] else rest))
  }

  lemma {:induction false} BodyPiece(c: char, t: string, room: nat)
    requires room > 0
    ensures var (r, rest) := JsonBody(t, room - 1); JsonBody(JsonPiece(c) + t, room) == ([c] + r, rest)
  {
    var u := JsonPiece(c) + t;
    if |JsonPiece(c)| == 2 {
      assert u[2..] == t;
    } else {
      assert u[1..] == t;
    }
  }

  /** What the parser makes of an escape: three stand for controls, any other character for itself. */
  lemma {:induction false} BodyEscape(c: char, t: string, room: nat)
    requires room > 0
    ensures var (r, rest) := JsonBody(t, room - 1);
      JsonBody(['\\', c] + t, room) ==
      ([if c == 'n' then '\n' else if c == 'r' then '\r' else if c == 't' then '\t' else c] + r, rest)
  {
    assert (['\\', c] + t)[2..] == t;
  }

  /** The escaped text behind the opening quote. */
  function Quoted(s: string, after: string): string {
    Full(JsonPiece, s) + "\"" + after
  }

  lemma {:induction false} QuotedStep(s: string, after: string)
    requires s != ""
    ensures Quoted(s, after) == JsonPiece(s[0]) + Quoted(s[1..], after)
  {
  }

  lemma {:induction false} BodyFull(s: string, after: string, room: nat)
    ensures JsonBody(Quoted(s, after), room).0 == s[..Min(|s|, room)]
    decreases s
  {
    if s == "" {
      assert Quoted(s, after) == "\"" + after;
    } else if room > 0 {
      QuotedStep(s, after);
      BodyPiece(s[0], Quoted(s[1..], after), room);
      BodyFull(s[1..], after, room - 1);
      FirstAndRest(s, room);
    }
  }

  lemma {:induction false} BodyEnd(s: string, after: string, room: nat)
    requires |s| <= room
    ensures JsonBody(Quoted(s, after), room).1 == "\"" + after
    decreases s
  {
    if s == "" {
      assert Quoted(s, after) == "\"" + after;
    } else {
      QuotedStep(s, after);
      BodyPiece(s[0], Quoted(s[1..], after), room);
      BodyEnd(s[1..], after, room - 1);
    }
  }

  /**
   * Parsing the quoted escaped text gives back what was taken, as far as the parser's buffer holds it,
   * and when all of that fits the parser ends right behind the closing quote.
   */
  lemma {:induction false} JsonRoundTrip(s: string, size: nat, parseSize: nat, after: string)
    requires parseSize > 0
    ensures var n := Taken(JsonPiece, s, size - 2);
      var r := JsonParsed("\"" + Encoded(JsonPiece, s, size - 2) + "\"" + after, parseSize);
      && r.Some? && r.value.0 == s[..Min(n, parseSize - 1)]
      && (n < parseSize ==> r.value.1 == after)
  {
    var n := Taken(JsonPiece, s, size - 2);
    var text := Quoted(s[..n], after);
    assert "\"" + Encoded(JsonPiece, s, size - 2) + "\"" + after == "\"" + text;
    assert ("\"" + text)[1..] == text;
    BodyFull(s[..n], after, parseSize - 1);
    if n < parseSize {
      BodyEnd(s[..n], after, parseSize - 1);
    }
    assert s[..n][..Min(n, parseSize - 1)] == s[..Min(n, parseSize - 1)];
    assert ("\"" + after)[1..] == after;
  }

  /** It gives back all of a nonempty text exactly when neither buffer runs out. */
  lemma {:induction false} JsonRoundTripWhole(s: string, size: nat, parseSize: nat, after: string)
    requires s != "" && parseSize > 0
    ensures JsonParsed("\"" + Encoded(JsonPiece, s, size - 2) + "\"" + after, parseSize) == Some((s, after)) <==>
            |Full(JsonPiece, s[..|s| - 1])| < size - 2 && |s| < parseSize
  {
    JsonRoundTrip(s, size, parseSize, after);
    TakesAll(JsonPiece, s, size - 2);
    assert s[..|s|] == s;
  }

  /** The characters that section 7 of RFC 8259 bars from a string unless they are escaped. */
  predicate Control(c: char) {
    c < ' '
  }

  /** The escaped text meets that rule exactly when the source has no control character but line ends. */
  lemma {:induction false} ControlsLeft(s: string)
    ensures (exists c <- Full(JsonPiece, s) :: Control(c)) <==> (exists c <- s :: Control(c) && c != '\n' && c != '\r')
    decreases s
  {
    if s != "" {
      ControlsLeft(s[1..]);
      var rest := Full(JsonPiece, s[1..]);
      assert forall c :: c in Full(JsonPiece, s) <==> c in JsonPiece(s[0]) || c in rest;
      assert forall c :: c in s <==> c == s[0] || c in s[1..];
      assert s[0] in s && (|JsonPiece(s[0])| == 1 ==> JsonPiece(s[0])[0] in JsonPiece(s[0]));
    }
  }

  // ---------------------------------------------------------------- the loops

  /** With `i` characters taken, `done` is written and the loop takes what it would have taken. */
  ghost predicate Encoding(piece: char -> string, s: string, i: nat, limit: int, done: string)
    requires i <= |s|
  {
    done == Full(piece, s[..i]) && i + Taken(piece, s[i..], limit - |done|) == Taken(piece, s, limit)
  }

  lemma {:induction false} EncodingStarts(piece: char -> string, s: string, limit: int)
    ensures Encoding(piece, s, 0, limit, "")
  {
    assert s[0..] == s && s[..0] == "";
  }

  lemma {:induction false} EncodingStep(piece: char -> string, s: string, i: nat, limit: int, done: string)
    requires i < |s| && |done| < limit && Encoding(piece, s, i, limit, done)
    ensures Encoding(piece, s, i + 1, limit, done + piece(s[i]))
  {
    FullSnoc(piece, s, i);
    assert s[i..][1..] == s[i + 1..];
  }

  lemma {:induction false} EncodingEnds(piece: char -> string, s: string, i: nat, limit: int, done: string)
    requires i <= |s| && (i == |s| || |done| >= limit) && Encoding(piece, s, i, limit, done)
    ensures done == Encoded(piece, s, limit)
  {
  }

  /** Writing a piece of at most three characters. */
  method Put(out: array<char>, j: nat, piece: string)
    requires j + |piece| <= out.Length
    modifies out
    ensures out[..j + |piece|] == old(out[..j]) + piece
  {
    for k := 0 to |piece|
      invariant out[..j] == old(out[..j])
      invariant out[j..j + k] == piece[..k]
    {
      out[j + k] := piece[k];
    }
    assert out[..j + |piece|] == out[..j] + out[j..j + |piece|];
  }

  method UrlEncode(input: string, out: array<char>) returns (n: nat)
    requires out.Length >= 4
    modifies out
    ensures n < out.Length && out[n] == '\0'
    ensures out[..n] == Encoded(UrlPiece, input, out.Length - 4)
  {
    var i := 0;
    n := 0;
    ghost var limit := out.Length - 4;
    EncodingStarts(UrlPiece, input, limit);
    assert out[..0] == "";
    while i < |input| && n < out.Length - 4
      invariant 0 <= i <= |input| && n + 2 <= out.Length
      invariant Encoding(UrlPiece, input, i, limit, out[..n])
    {
      EncodingStep(UrlPiece, input, i, limit, out[..n]);
      var piece := UrlPiece(input[i]);
      Put(out, n, piece);
      n := n + |piece|;
      i := i + 1;
    }
    EncodingEnds(UrlPiece, input, i, limit, out[..n]);
    out[n] := '\0';
  }

  method JsonEscape(input: string, out: array<char>) returns (n: nat)
    requires out.Length >= 1
    modifies out
    ensures n < out.Length && out[n] == '\0'
    ensures out[..n] == Encoded(JsonPiece, input, out.Length - 2)
  {
    var i := 0;
    n := 0;
    ghost var limit := out.Length - 2;
    EncodingStarts(JsonPiece, input, limit);
    assert out[..0] == "";
    while i < |input| && n + 2 < out.Length
      invariant 0 <= i <= |input| && n < out.Length
      invariant Encoding(JsonPiece, input, i, limit, out[..n])
    {
      EncodingStep(JsonPiece, input, i, limit, out[..n]);
      var piece := JsonPiece(input[i]);
      Put(out, n, piece);
      n := n + |piece|;
      i := i + 1;
    }
    EncodingEnds(JsonPiece, input, i, limit, out[..n]);
    out[n] := '\0';
  }

  /** The character that decoding makes of the text at `i`, and how much text it takes. */
  function UrlAt(t: string, i: nat): (r: (char, nat))
    requires i < |t|
    ensures 0 < r.1 <= |t| - i
  {
    if t[i] == '%' && i + 2 < |t| then (HexPair(t[i + 1], t[i + 2]), 3)
    else (if t[i] == '+' then ' ' else t[i], 1)
  }

  lemma {:induction false} UrlDecodedAt(t: string, i: nat, room: nat, done: string)
    requires i < |t| && room > 0
    ensures var (c, k) := UrlAt(t, i);
      done + UrlDecoded(t[i..], room) == done + [c] + UrlDecoded(t[i + k..], room - 1)
  {
    var k := UrlAt(t, i).1;
    assert t[i..][k..] == t[i + k..];
  }

  lemma {:induction false} UrlDecodedEnd(t: string, i: nat, room: nat, done: string)
    requires i <= |t| && (i == |t| || room == 0)
    ensures done + UrlDecoded(t[i..], room) == done
  {
  }

  method UrlStep(input: string, i: nat, out: array<char>, n: nat) returns (next: nat)
    requires i < |input| && n < out.Length
    modifies out
    ensures next == i + UrlAt(input, i).1 && out[..n + 1] == old(out[..n]) + [UrlAt(input, i).0]
  {
    next := i;
    if input[i] == '%' && i + 2 < |input| {
      out[n] := HexPair(input[i + 1], input[i + 2]);
      next := next + 2;
    } else if input[i] == '+' {
      out[n] := ' ';
    } else {
      out[n] := input[i];
    }
    next := next + 1;
  }

  method UrlDecode(input: string, out: array<char>) returns (n: nat)
    requires out.Length >= 1
    modifies out
    ensures n < out.Length && out[n] == '\0' && out[..n] == UrlDecoded(input, out.Length - 1)
  {
    var i := 0;
    n := 0;
    assert input[0..] == input;
    while i < |input| && n < out.Length - 1
      invariant 0 <= i <= |input| && n < out.Length
      invariant out[..n] + UrlDecoded(input[i..], out.Length - 1 - n) == UrlDecoded(input, out.Length - 1)
    {
      UrlDecodedAt(input, i, out.Length - 1 - n, out[..n]);
      i := UrlStep(input, i, out, n);
      n := n + 1;
    }
    UrlDecodedEnd(input, i, out.Length - 1 - n, out[..n]);
    out[n] := '\0';
  }

  /** The same for the JSON parser, at a character that does not end the string. */
  function JsonAt(t: string, i: nat): (r: (char, nat))
    requires i < |t|
    ensures 0 < r.1 <= |t| - i
  {
    if t[i] == '\\' && i + 1 < |t| then (Unescaped(t[i + 1]), 2) else (t[i], 1)
  }

  /** With `done` stored and the text from `i` on to come, the whole result will be `all`. */
  ghost predicate OnCourse(p: string, i: nat, room: nat, done: string, all: (string, string))
    requires i <= |p|
  {
    var (r, rest) := JsonBody(p[i..], room);
    done + r == all.0 && rest == all.1
  }

  lemma {:induction false} JsonBodyAt(p: string, i: nat, room: nat, done: string, all: (string, string))
    requires i < |p| && p[i] != '"' && room > 0 && OnCourse(p, i, room, done, all)
    ensures var (c, k) := JsonAt(p, i); OnCourse(p, i + k, room - 1, done + [c], all)
  {
    var (c, k) := JsonAt(p, i);
    assert p[i..][k..] == p[i + k..];
    var (r, rest) := JsonBody(p[i..], room);
    var (r', rest') := JsonBody(p[i + k..], room - 1);
    assert r == [c] + r' && rest == rest';
    assert done + r == done + [c] + r';
  }

  lemma {:induction false} JsonBodyEnd(p: string, i: nat, room: nat, done: string, all: (string, string))
    requires i <= |p| && (i == |p| || p[i] == '"' || room == 0) && OnCourse(p, i, room, done, all)
    ensures all == (done, p[i..])
  {
    assert JsonBody(p[i..], room) == ("", p[i..]);
    assert done + "" == done;
  }

  method JsonStep(p: string, i: nat, out: array<char>, n: nat) returns (next: nat)
    requires i < |p| && n < out.Length
    modifies out
    ensures next == i + JsonAt(p, i).1 && out[..n + 1] == old(out[..n]) + [JsonAt(p, i).0]
  {
    next := i;
    if p[i] == '\\' && i + 1 < |p| {
      next := next + 1;
      out[n] := Unescaped(p[next]);
    } else {
      out[n] := p[i];
    }
    next := next + 1;
  }

  /** The loop of json_parse_string from the character behind the opening quote. */
  method JsonLoop(p: string, out: array<char>) returns (i: nat, n: nat)
    requires out.Length >= 1 && |p| >= 1
    modifies out
    ensures n < out.Length && 1 <= i <= |p| && JsonBody(p[1..], out.Length - 1) == (out[..n], p[i..])
  {
    i, n := 1, 0;
    ghost var all := JsonBody(p[1..], out.Length - 1);
    assert out[..0] == "";
    while i < |p| && p[i] != '"' && n < out.Length - 1
      invariant 1 <= i <= |p| && n < out.Length
      invariant OnCourse(p, i, out.Length - 1 - n, out[..n], all)
    {
      JsonBodyAt(p, i, out.Length - 1 - n, out[..n], all);
      i := JsonStep(p, i, out, n);
      n := n + 1;
    }
    JsonBodyEnd(p, i, out.Length - 1 - n, out[..n], all);
  }

  /** json_parse_string: the number of characters stored and the text that is left, if there is a string at all. */
  method JsonParse(p: string, out: array<char>) returns (r: Option<(nat, string)>)
    requires out.Length >= 1
    modifies out
    ensures r.None? <==> JsonParsed(p, out.Length).None?
    ensures r.Some? ==> r.value.0 < out.Length && out[r.value.0] == '\0'
    ensures r.Some? ==> JsonParsed(p, out.Length) == Some((out[..r.value.0], r.value.1))
  {
    if p == "" || p[0] != '"' {
      return None;
    }
    var i, n := JsonLoop(p, out);
    ghost var text := out[..n];
    out[n] := '\0';
    assert out[..n] == text;
    if i < |p| && p[i] == '"' {
      assert p[i..][1..] == p[i + 1..];
      i := i + 1;
    }
    return Some((n, p[i..]));
  }
}
