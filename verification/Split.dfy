/** Message splitting (src/channels/channels.c) and text chunking (src/memory/memory.c, src/rag/rag.c). */
module Split {
  import opened Basics

  function Concat(chunks: seq<string>): string {
    if chunks == [] then "" else chunks[0] + Concat(chunks[1..])
  }

  lemma {:induction false} ConcatSnoc(chunks: seq<string>, c: string)
    ensures Concat(chunks + [c]) == Concat(chunks) + c
    decreases chunks
  {
    if chunks == [] {
      assert [c][1..] == [];
    } else {
      ConcatSnoc(chunks[1..], c);
      assert (chunks + [c])[1..] == chunks[1..] + [c];
    }
  }

  // ---------------------------------------------------------------- outbound messages

  /** A channel's message limit; `keepRest` when a rest within the limit goes out whole (Telegram). */
  datatype Channel = Channel(limit: nat, keepRest: bool)

  const Telegram := Channel(4096, true)
  const Discord := Channel(2000, false)
  const Slack := Channel(3000, false)

  predicate Blank(c: char) {
    c == ' ' || c == '\n'
  }

  predicate NoBlank(s: string) {
    forall i :: 0 <= i < |s| ==> !Blank(s[i])
  }

  /** The length of the longest prefix of `s[..n]` that ends in a blank; 0 if there is none. */
  function BreakAt(s: string, n: nat): (k: nat)
    requires n <= |s|
    ensures k <= n && (k > 0 ==> Blank(s[k - 1])) && forall i :: k <= i < n ==> !Blank(s[i])
  {
    if n == 0 || Blank(s[n - 1]) then n else BreakAt(s, n - 1)
  }

  /** The length of the next message. */
  function Cut(ch: Channel, s: string): (n: nat)
    requires ch.limit > 0 && s != ""
    ensures 0 < n <= Min(|s|, ch.limit)
  {
    var most := Min(|s|, ch.limit);
    if ch.keepRest && |s| <= ch.limit then |s|
    else if BreakAt(s, most) == 0 then most
    else BreakAt(s, most)
  }

  function Chunks(ch: Channel, s: string): (r: seq<string>)
    requires ch.limit > 0
  {
    if s == "" then [] else [s[..Cut(ch, s)]] + Chunks(ch, s[Cut(ch, s)..])
  }

  /** All messages together are the text, and each is nonempty and within the limit. */
  lemma {:induction false} ChunksAreWhole(ch: Channel, s: string)
    requires ch.limit > 0
    ensures Concat(Chunks(ch, s)) == s
    ensures forall c <- Chunks(ch, s) :: 0 < |c| <= ch.limit
    decreases s
  {
    if s != "" {
      var n := Cut(ch, s);
      ChunksAreWhole(ch, s[n..]);
      assert s == s[..n] + s[n..];
      assert Chunks(ch, s)[1..] == Chunks(ch, s[n..]);
    }
  }

  /** The message that does not take all of the text ends at a blank, unless it has none and fills the limit. */
  lemma {:induction false} CutEndsWell(ch: Channel, s: string)
    requires ch.limit > 0 && s != "" && Cut(ch, s) < |s|
    ensures var c := s[..Cut(ch, s)]; c != "" && (Blank(c[|c| - 1]) || (|c| == ch.limit && NoBlank(c)))
  {
    var n := Cut(ch, s);
    var c, k := s[..n], BreakAt(s, Min(|s|, ch.limit));
    assert c[n - 1] == s[n - 1];
    if k == 0 {
      assert n == Min(|s|, ch.limit) == ch.limit;
      assert forall i :: 0 <= i < n ==> c[i] == s[i];
    }
  }

  lemma {:induction false} ChunksCons(ch: Channel, s: string, i: nat)
    requires ch.limit > 0 && s != "" && i < |Chunks(ch, s)|
    ensures Chunks(ch, s)[i] == if i == 0 then s[..Cut(ch, s)] else Chunks(ch, s[Cut(ch, s)..])[i - 1]
  {
  }

  /** Every message but the last ends at a blank, unless it has no blank at all and fills the limit. */
  lemma {:induction false} BreaksAtBlanks(ch: Channel, s: string, i: nat)
    requires ch.limit > 0 && i + 1 < |Chunks(ch, s)|
    ensures var c := Chunks(ch, s)[i];
      c != "" && (c[|c| - 1] in " \n" || (|c| == ch.limit && ' ' !in c && '\n' !in c))
    decreases s
  {
    ChunksCons(ch, s, i);
    if i > 0 {
      BreaksAtBlanks(ch, s[Cut(ch, s)..], i - 1);
    } else {
      CutEndsWell(ch, s);
    }
  }

  /** No message is longer than its service takes. */
  lemma {:induction false} ServiceLimits(s: string)
    ensures forall c <- Chunks(Telegram, s) :: |c| <= 4096
    ensures forall c <- Chunks(Discord, s) :: |c| <= 2000
    ensures forall c <- Chunks(Slack, s) :: |c| <= 3000
  {
    ChunksAreWhole(Telegram, s);
    ChunksAreWhole(Discord, s);
    ChunksAreWhole(Slack, s);
  }

  lemma {:induction false} ChunksNonempty(ch: Channel, s: string)
    requires ch.limit > 0 && s != ""
    ensures Chunks(ch, s) != []
  {
  }

  /**
   * Telegram sends a text within the limit as one message; the others do so only if it has no blank or
   * ends in one, and otherwise send its last word apart.
   */
  lemma {:induction false} OneMessage(ch: Channel, s: string)
    requires ch.limit > 0 && 0 < |s| <= ch.limit
    ensures |Chunks(ch, s)| == 1 <==> ch.keepRest || (' ' !in s && '\n' !in s) || s[|s| - 1] in " \n"
  {
    var n := Cut(ch, s);
    var k := BreakAt(s, |s|);
    assert s[0..|s|] == s;
    assert n == |s| ==> s[n..] == "";
    if n < |s| {
      ChunksNonempty(ch, s[n..]);
    }
    assert k > 0 ==> !NoBlank(s) by {
      if k > 0 {
        assert Blank(s[k - 1]);
      }
    }
  }

  /**
   * When the next message fills the limit exactly: the text is that long and is kept whole, or the last
   * place within the limit is a blank, or there is no blank within it.
   */
  lemma {:induction false} FullMessage(ch: Channel, s: string)
    requires ch.limit > 0 && s != ""
    ensures Cut(ch, s) == ch.limit <==>
            |s| >= ch.limit && ((ch.keepRest && |s| == ch.limit) || Blank(s[ch.limit - 1]) || NoBlank(s[..ch.limit]))
  {
    if |s| >= ch.limit {
      var k := BreakAt(s, ch.limit);
      if 0 < k {
        assert s[..ch.limit][k - 1] == s[k - 1];
      } else {
        assert forall i :: 0 <= i < ch.limit ==> s[..ch.limit][i] == s[i];
      }
    }
  }

  /** The backward search for a blank. */
  method FindBreak(s: string, most: nat) returns (k: nat)
    requires most <= |s|
    ensures k == BreakAt(s, most)
  {
    k := most;
    while k > 0 && s[k - 1] != ' ' && s[k - 1] != '\n'
      invariant 0 <= k <= most
      invariant BreakAt(s, k) == BreakAt(s, most)
    {
      k := k - 1;
    }
  }

  method CutOne(ch: Channel, s: string) returns (n: nat)
    requires ch.limit > 0 && s != ""
    ensures n == Cut(ch, s)
  {
    n := if |s| > ch.limit then ch.limit else |s|;
    if |s| > ch.limit || !ch.keepRest {
      var most := n;
      n := FindBreak(s, most);
      if n == 0 {
        n := most;
      }
    }
  }

  /** `sent` are the first messages of `text`, and `rest` is what they leave. */
  ghost predicate Underway(ch: Channel, text: string, sent: seq<string>, rest: string)
    requires ch.limit > 0
  {
    Chunks(ch, text) == sent + Chunks(ch, rest) && text == Concat(sent) + rest
  }

  lemma {:induction false} Regroup<T>(a: seq<T>, b: seq<T>, c: seq<T>)
    ensures a + (b + c) == a + b + c
  {
  }

  lemma {:induction false} SendOne(ch: Channel, text: string, sent: seq<string>, rest: string)
    requires ch.limit > 0 && rest != "" && Underway(ch, text, sent, rest)
    ensures Underway(ch, text, sent + [rest[..Cut(ch, rest)]], rest[Cut(ch, rest)..])
  {
    var n := Cut(ch, rest);
    var next, left := rest[..n], rest[n..];
    ConcatSnoc(sent, next);
    assert rest == next + left;
    Regroup(Concat(sent), next, left);
    Regroup(sent, [next], Chunks(ch, left));
  }

  lemma {:induction false} UnderwayStart(ch: Channel, text: string)
    requires ch.limit > 0
    ensures Underway(ch, text, [], text)
  {
  }

  lemma {:induction false} UnderwayMeans(ch: Channel, text: string, sent: seq<string>, rest: string)
    requires ch.limit > 0 && Underway(ch, text, sent, rest)
    ensures sent <= Chunks(ch, text) && Concat(sent) <= text
    ensures rest == "" ==> sent == Chunks(ch, text) && Concat(sent) == text
    ensures rest != "" ==> |sent| < |Chunks(ch, text)|
  {
  }

  /** One message: what is sent next and what is left. */
  method Next(ch: Channel, rest: string, ghost text: string, ghost sent: seq<string>)
    returns (message: string, left: string)
    requires ch.limit > 0 && rest != "" && Underway(ch, text, sent, rest)
    ensures |left| < |rest| && Underway(ch, text, sent + [message], left)
  {
    SendOne(ch, text, sent, rest);
    var n := CutOne(ch, rest);
    message, left := rest[..n], rest[n..];
  }

  /**
   * The sending loop, when message number `fault` is the first that the service refuses: messages go out
   * in order up to that one, and all of the text does if there is no such message.
   */
  method Send(ch: Channel, text: string, fault: nat) returns (sent: seq<string>, ok: bool)
    requires ch.limit > 0
    ensures ok <==> fault >= |Chunks(ch, text)|
    ensures sent <= Chunks(ch, text) && |sent| == Min(fault + 1, |Chunks(ch, text)|)
    ensures Concat(sent) <= text && (ok ==> Concat(sent) == text)
  {
    var rest, message := text, "";
    sent, ok := [], true;
    UnderwayStart(ch, text);
    while rest != "" && ok
      invariant Underway(ch, text, sent, rest)
      invariant if ok then |sent| <= fault else |sent| == fault + 1
      decreases |rest|
    {
      ok := |sent| != fault;
      message, rest := Next(ch, rest, text, sent);
      sent := sent + [message];
    }
    UnderwayMeans(ch, text, sent, rest);
  }

  // ---------------------------------------------------------------- memory chunks

  datatype Chunk = Chunk(start: nat, end: nat, text: string)

  const LOOK_BACK := 20

  predicate Space(c: char) {
    c == ' ' || c == '\n' || c == '\t'
  }

  /** The chunks lie end to end from the start of the text, and each holds its part of it. */
  ghost predicate Tiles(text: string, size: nat, chunks: seq<Chunk>, upTo: nat) {
    if chunks == [] then upTo == 0
    else
      var c := chunks[|chunks| - 1];
      && c.start < c.end == upTo <= |text| && c.text == text[c.start..c.end] && |c.text| <= size
      && Tiles(text, size, chunks[..|chunks| - 1], c.start)
  }

  lemma {:induction false} TilesSnoc(text: string, size: nat, chunks: seq<Chunk>, start: nat, end: nat)
    requires Tiles(text, size, chunks, start) && start < end <= |text| && end - start <= size
    ensures Tiles(text, size, chunks + [Chunk(start, end, text[start..end])], end)
  {
    assert (chunks + [Chunk(start, end, text[start..end])])[..|chunks|] == chunks;
  }

  function Texts(chunks: seq<Chunk>): seq<string> {
    if chunks == [] then [] else Texts(chunks[..|chunks| - 1]) + [chunks[|chunks| - 1].text]
  }

  /** Put together they are a prefix of the text. */
  lemma {:induction false} TilesArePrefix(text: string, size: nat, chunks: seq<Chunk>, upTo: nat)
    requires Tiles(text, size, chunks, upTo)
    ensures upTo <= |text| && Concat(Texts(chunks)) == text[..upTo]
    decreases chunks
  {
    if chunks != [] {
      var before, c := chunks[..|chunks| - 1], chunks[|chunks| - 1];
      TilesArePrefix(text, size, before, c.start);
      ConcatSnoc(Texts(before), c.text);
      assert text[..upTo] == text[..c.start] + text[c.start..c.end];
    }
  }

  /** The number of chunks planned for. */
  function Planned(len: nat, size: nat): nat
    requires size > 0
  {
    (len + size - 1) / size
  }

  lemma {:induction false} PlanSuffices(len: nat, size: nat)
    requires size > 0
    ensures Planned(len, size) * size >= len
  {
    var x := len + size - 1;
    assert x == x / size * size + x % size;
  }

  predicate NoSpace(s: string, from: int) {
    forall j :: 0 <= j < |s| && from <= j ==> !Space(s[j])
  }

  /** Where to break `s` when its last `i` characters have been looked at. */
  function NearBreak(s: string, i: nat): (k: nat)
    requires i < |s| && i < LOOK_BACK
    ensures 0 < k <= |s| && |s| - k < LOOK_BACK
    decreases |s| - i
  {
    if Space(s[|s| - 1 - i]) then |s| - i
    else if i + 1 < |s| && i + 1 < LOOK_BACK then NearBreak(s, i + 1)
    else |s|
  }

  /** The break is behind the last space if there is one among the last twenty characters. */
  lemma {:induction false} NearBreakIsLastSpace(s: string, i: nat)
    requires i < |s| && i < LOOK_BACK && NoSpace(s, |s| - i)
    ensures var k := NearBreak(s, i);
      NoSpace(s, k) && (Space(s[k - 1]) || (k == |s| && NoSpace(s, |s| - LOOK_BACK)))
    decreases |s| - i
  {
    if !Space(s[|s| - 1 - i]) && i + 1 < |s| && i + 1 < LOOK_BACK {
      NearBreakIsLastSpace(s, i + 1);
    }
  }

  /** The backward search. */
  method BreakNear(s: string) returns (k: nat)
    requires s != ""
    ensures k == NearBreak(s, 0)
  {
    var i := 0;
    while i < LOOK_BACK && i < |s|
      invariant 0 <= i <= LOOK_BACK && i <= |s|
      invariant NearBreak(s, 0) == if i < LOOK_BACK && i < |s| then NearBreak(s, i) else |s|
    {
      if Space(s[|s| - 1 - i]) {
        return |s| - i;
      }
      i := i + 1;
    }
    k := |s|;
  }

  /** The length of the chunk that starts at `offset`. */
  function ChunkLength(text: string, size: nat, offset: nat): (n: nat)
    requires size > 0 && offset < |text|
    ensures 0 < n <= Min(size, |text| - offset) && Min(size, |text| - offset) - n < LOOK_BACK
  {
    NearBreak(text[offset..offset + Min(size, |text| - offset)], 0)
  }

  /** How far the text is covered when `left` more chunks may be cut from `offset` on. */
  function Covered(text: string, size: nat, offset: nat, left: nat): nat
    requires size > 0 && offset <= |text|
    decreases left
  {
    if offset == |text| || left == 0 then offset
    else Covered(text, size, offset + ChunkLength(text, size, offset), left - 1)
  }

  lemma {:induction false} GainPerChunk(len: nat, size: nat, offset: nat, k: nat, n: nat, taken: nat)
    requires offset >= Min(len, k * size) - (LOOK_BACK - 1) * k && offset < len
    requires n == Min(size, len - offset) && n - taken < LOOK_BACK
    ensures offset + taken >= Min(len, (k + 1) * size) - (LOOK_BACK - 1) * (k + 1)
  {
    assert (k + 1) * size == k * size + size;
  }

  lemma {:induction false} LossIsBounded(text: string, size: nat, offset: nat, k: nat, planned: nat)
    requires size > 0 && offset <= |text| && k <= planned && planned * size >= |text|
    requires offset >= Min(|text|, k * size) - (LOOK_BACK - 1) * k
    ensures |text| - Covered(text, size, offset, planned - k) <= (LOOK_BACK - 1) * planned
    decreases planned - k
  {
    if offset < |text| && k < planned {
      var n := ChunkLength(text, size, offset);
      GainPerChunk(|text|, size, offset, k, Min(size, |text| - offset), n);
      LossIsBounded(text, size, offset + n, k + 1, planned);
    }
  }

  /** What is left over is at most 19 characters for each planned chunk. */
  lemma {:induction false} ChunkingLosesLittle(text: string, size: nat)
    requires size > 0
    ensures |text| - Covered(text, size, 0, Planned(|text|, size)) <= (LOOK_BACK - 1) * Planned(|text|, size)
  {
    PlanSuffices(|text|, size);
    LossIsBounded(text, size, 0, 0, Planned(|text|, size));
  }

  /** One chunk, from `offset` to the break. */
  method CutChunk(text: string, size: nat, offset: nat, ghost before: seq<Chunk>) returns (c: Chunk)
    requires size > 0 && offset < |text| && Tiles(text, size, before, offset)
    ensures c.end == offset + ChunkLength(text, size, offset) && Tiles(text, size, before + [c], c.end)
  {
    var n := if offset + size > |text| then |text| - offset else size;
    var taken := BreakNear(text[offset..offset + n]);
    TilesSnoc(text, size, before, offset, offset + taken);
    c := Chunk(offset, offset + taken, text[offset..offset + taken]);
  }

  /** The loop over at most `planned` chunks. */
  method CutAll(text: string, size: nat, planned: nat) returns (chunks: seq<Chunk>, total: nat)
    requires size > 0
    ensures Tiles(text, size, chunks, total) && |chunks| <= planned
    ensures total == Covered(text, size, 0, planned)
  {
    chunks, total := [], 0;
    var offset: nat := 0;
    while offset < |text| && |chunks| < planned
      invariant Tiles(text, size, chunks, offset) && offset == total <= |text| && |chunks| <= planned
      invariant Covered(text, size, 0, planned) == Covered(text, size, offset, planned - |chunks|)
      decreases planned - |chunks|
    {
      var c := CutChunk(text, size, offset, chunks);
      chunks := chunks + [c];
      total := total + (c.end - offset);
      offset := c.end;
    }
  }

  /** memory_chunk_text: the chunks tile the text as far as the plan reaches. */
  method ChunkText(text: string, size: nat) returns (chunks: seq<Chunk>, total: nat)
    requires size > 0
    ensures Tiles(text, size, chunks, total) && |chunks| <= Planned(|text|, size)
    ensures total == Covered(text, size, 0, Planned(|text|, size))
  {
    if |text| == 0 {
      return [], 0;
    }
    chunks, total := CutAll(text, size, (|text| + size - 1) / size);
  }

  // ---------------------------------------------------------------- when memory chunks lose text

  /** A text that a chunk takes up to its end: it ends in a space, or has none among its last twenty characters. */
  predicate Whole(s: string) {
    s != "" && (Space(s[|s| - 1]) || NoSpace(s, |s| - LOOK_BACK))
  }

  lemma {:induction false} WholeIsTaken(s: string)
    requires s != ""
    ensures NearBreak(s, 0) == |s| <==> Whole(s)
  {
    NearBreakIsLastSpace(s, 0);
    if NearBreak(s, 0) < |s| {
      assert Space(s[NearBreak(s, 0) - 1]);
      assert !NoSpace(s, |s| - LOOK_BACK);
    }
  }

  /** The last chunk ends the text exactly when the rest fits one chunk and is taken whole. */
  lemma {:induction false} OneChunkEnds(text: string, size: nat, offset: nat)
    requires size > 0 && offset < |text|
    ensures Covered(text, size, offset, 1) == |text| <==> |text| - offset <= size && Whole(text[offset..])
  {
    var n := Min(size, |text| - offset);
    assert Covered(text, size, offset, 1) == offset + ChunkLength(text, size, offset);
    if |text| - offset <= size {
      assert text[offset..offset + n] == text[offset..];
      WholeIsTaken(text[offset..]);
    }
  }

  /**
   * A text of at most one chunk keeps its last word exactly when it ends in a space or has none among its
   * last twenty characters; otherwise everything behind its last space is dropped.
   */
  lemma {:induction false} ShortTextLosesLastWord(text: string, size: nat)
    requires 0 < |text| <= size
    ensures Planned(|text|, size) == 1
    ensures Covered(text, size, 0, 1) == |text| <==> Whole(text)
    ensures var k := Covered(text, size, 0, 1);
      0 < k <= |text| && (k < |text| ==> text[k - 1] in " \n\t") && forall c <- text[k..] :: c !in " \n\t"
  {
    OneIsPlanned(|text|, size);
    assert text[0..] == text && text[0..|text|] == text;
    OneChunkEnds(text, size, 0);
    NearBreakIsLastSpace(text, 0);
    assert Covered(text, size, 0, 1) == ChunkLength(text, size, 0) == NearBreak(text, 0);
  }

  lemma {:induction false} OneIsPlanned(len: nat, size: nat)
    requires 0 < len <= size
    ensures Planned(len, size) == 1
  {
    PlanIsTight(len, size);
    MultipleIsLarge(Planned(len, size) - 1, size);
  }

  lemma {:induction false} MultipleIsLarge(q: nat, size: nat)
    ensures q == 0 || q * size >= size
  {
    if q > 0 {
      assert q * size == size + (q - 1) * size;
    }
  }

  lemma {:induction false} CoveredSplit(text: string, size: nat, offset: nat, k: nat)
    requires size > 0 && offset <= |text|
    ensures Covered(text, size, offset, k) <= |text|
    ensures Covered(text, size, offset, k + 1) == Covered(text, size, Covered(text, size, offset, k), 1)
    decreases k
  {
    if offset < |text| && k > 0 {
      CoveredSplit(text, size, offset + ChunkLength(text, size, offset), k - 1);
    }
  }

  /** What the breaks of `k` chunks from `offset` on give back, when the text is long enough for all of them. */
  function GivenBack(text: string, size: nat, offset: nat, k: nat): nat
    requires size > 0 && offset + k * size <= |text|
    decreases k
  {
    if k == 0 then 0
    else
      var n := ChunkLength(text, size, offset);
      RoomAfterOne(|text|, size, offset, k, n);
      size - n + GivenBack(text, size, offset + n, k - 1)
  }

  lemma {:induction false} RoomAfterOne(len: nat, size: nat, offset: nat, k: nat, n: nat)
    requires k > 0 && n <= size && offset + k * size <= len
    ensures offset + n + (k - 1) * size <= len
  {
    assert k * size == (k - 1) * size + size;
  }

  lemma {:induction false} CoveredIsPlanLess(text: string, size: nat, offset: nat, k: nat)
    requires size > 0 && offset + k * size <= |text|
    ensures Covered(text, size, offset, k) == offset + k * size - GivenBack(text, size, offset, k)
    decreases k
  {
    if k > 0 {
      var n := ChunkLength(text, size, offset);
      RoomAfterOne(|text|, size, offset, k, n);
      CoveredIsPlanLess(text, size, offset + n, k - 1);
      assert k * size == (k - 1) * size + size;
    }
  }

  lemma {:induction false} PlanIsTight(len: nat, size: nat)
    requires size > 0 && len > 0
    ensures Planned(len, size) > 0 && (Planned(len, size) - 1) * size < len <= Planned(len, size) * size
  {
    var x := len + size - 1;
    var q := x / size;
    assert q * size <= x < q * size + size;
    assert q > 0;
    assert (q - 1) * size == q * size - size;
  }

  lemma {:induction false} LastChunkDecides(text: string, size: nat, k: nat, lead: nat)
    requires size > 0 && lead == k * size < |text|
    ensures var from := lead - GivenBack(text, size, 0, k);
      0 <= from && (Covered(text, size, 0, k + 1) == |text| <==> |text| - from <= size && Whole(text[from..]))
  {
    CoveredIsPlanLess(text, size, 0, k);
    CoveredSplit(text, size, 0, k);
    OneChunkEnds(text, size, Covered(text, size, 0, k));
  }

  /**
   * For every text, with `k` the planned chunks but one and `lead` what they could hold: nothing is lost
   * exactly when their breaks give back no more than the plan has to spare, and the rest is taken whole.
   */
  lemma {:induction false} NothingLostIff(text: string, size: nat, k: nat, lead: nat)
    requires size > 0 && text != "" && k + 1 == Planned(|text|, size) && lead == k * size
    ensures lead < |text| <= lead + size
    ensures var back := GivenBack(text, size, 0, k);
      back <= lead &&
      (Covered(text, size, 0, k + 1) == |text| <==> back <= lead + size - |text| && Whole(text[lead - back..]))
  {
    PlanIsTight(|text|, size);
    assert (k + 1) * size == k * size + size;
    LastChunkDecides(text, size, k, lead);
  }

  /** The chunks that a chunker without a plan would cut. */
  function Needed(text: string, size: nat, offset: nat): nat
    requires size > 0 && offset <= |text|
    decreases |text| - offset
  {
    if offset == |text| then 0 else 1 + Needed(text, size, offset + ChunkLength(text, size, offset))
  }

  /** The plan loses nothing exactly when it has as many chunks as are needed. */
  lemma {:induction false} PlanCoversIff(text: string, size: nat, offset: nat, left: nat)
    requires size > 0 && offset <= |text|
    ensures Covered(text, size, offset, left) == |text| <==> Needed(text, size, offset) <= left
    decreases left
  {
    if offset < |text| && left > 0 {
      PlanCoversIff(text, size, offset + ChunkLength(text, size, offset), left - 1);
    }
  }

  lemma {:induction false} OneLess(k: nat, size: nat)
    requires k > 0
    ensures k * size == (k - 1) * size + size && (k - 1) * size >= 0
  {
  }

  lemma {:induction false} SpacelessFills(text: string, size: nat, offset: nat)
    requires size > 0 && NoSpace(text, 0) && offset + size <= |text|
    ensures ChunkLength(text, size, offset) == size
  {
    var s := text[offset..offset + size];
    assert NoSpace(s, |s| - LOOK_BACK);
    WholeIsTaken(s);
  }

  lemma {:induction false} SpacelessGivesNothingBack(text: string, size: nat, offset: nat, k: nat)
    requires size > 0 && NoSpace(text, 0) && offset + k * size <= |text|
    ensures GivenBack(text, size, offset, k) == 0
    decreases k
  {
    if k > 0 {
      OneLess(k, size);
      SpacelessFills(text, size, offset);
      SpacelessGivesNothingBack(text, size, offset + size, k - 1);
    }
  }

  /** A text without spaces loses nothing. */
  lemma {:induction false} SpacelessLosesNothing(text: string, size: nat)
    requires size > 0 && NoSpace(text, 0)
    ensures Covered(text, size, 0, Planned(|text|, size)) == |text|
  {
    if text != "" {
      PlanIsTight(|text|, size);
      var k := Planned(|text|, size) - 1;
      var lead := k * size;
      NothingLostIff(text, size, k, lead);
      SpacelessGivesNothingBack(text, size, 0, k);
      assert Whole(text[lead..]);
    }
  }

  // ---------------------------------------------------------------- retrieval chunks

  const MOST := 10
  const OVERLAP := 50

  /** The distance between the starts of two chunks of size `c`. */
  function Stride(c: nat): nat {
    if c > OVERLAP then c - OVERLAP else c
  }

  /** How much of a text of length `len` ten chunks of size `c` reach. */
  function Reach(len: nat, c: nat): nat {
    Min(len, c + (MOST - 1) * Stride(c))
  }

  function Start(c: nat, k: nat): nat {
    k * Stride(c)
  }

  lemma {:induction false} StartNext(c: nat, k: nat)
    ensures Start(c, k + 1) == Start(c, k) + Stride(c)
  {
  }

  /** Chunk `k` is the text from its start on, cut at the size or the end. */
  ghost predicate IsChunk(text: string, c: nat, chunk: string, k: nat) {
    Start(c, k) <= |text| && chunk == text[Start(c, k)..Min(Start(c, k) + c, |text|)]
  }

  ghost predicate Sliced(text: string, c: nat, chunks: seq<string>) {
    forall k :: 0 <= k < |chunks| ==> IsChunk(text, c, chunks[k], k)
  }

  /** rag_chunk_text; it ends for every size, zero included. */
  method RagChunkText(text: string, c: nat) returns (chunks: seq<string>)
    ensures |chunks| <= MOST && Sliced(text, c, chunks)
    ensures text == "" ==> chunks == []
    ensures text != "" ==> chunks != [] && (|chunks| == MOST || Start(c, |chunks| - 1) + c >= |text|)
  {
    chunks := [];
    if text == "" {
      return;
    }
    var pos := 0;
    while pos < |text| && |chunks| < MOST
      invariant |chunks| <= MOST && Sliced(text, c, chunks)
      invariant pos < |text| && |chunks| < MOST ==> pos == Start(c, |chunks|)
      invariant pos >= |text| ==> chunks != [] && Start(c, |chunks| - 1) + c >= |text|
      decreases MOST - |chunks|
    {
      var n := if |text| - pos < c then |text| - pos else c;
      StartNext(c, |chunks|);
      assert IsChunk(text, c, text[pos..pos + n], |chunks|);
      chunks := chunks + [text[pos..pos + n]];
      pos := pos + n;
      if pos < |text| && |chunks| < MOST {
        pos := pos - if n > OVERLAP then OVERLAP else 0;
      }
    }
  }

  lemma {:induction false} StartGrows(c: nat, j: nat, k: nat)
    requires j <= k
    ensures Start(c, j) <= Start(c, k)
  {
    assert k * Stride(c) == j * Stride(c) + (k - j) * Stride(c);
  }

  /** The chunk in which position `p` lies. */
  function Holder(c: nat, count: nat, p: nat): (k: nat)
    requires c > 0 && count > 0
  {
    if Start(c, count - 1) <= p then count - 1 else p / Stride(c)
  }

  lemma {:induction false} HolderHolds(c: nat, count: nat, p: nat)
    requires c > 0 && count > 0 && p < Start(c, count - 1) + c
    ensures var k := Holder(c, count, p); k < count && Start(c, k) <= p < Start(c, k) + c
  {
    if p < Start(c, count - 1) {
      var k := p / Stride(c);
      assert p == k * Stride(c) + p % Stride(c);
      if k >= count {
        StartGrows(c, count - 1, k);
      }
    }
  }

  /** Together the chunks hold exactly the first min(length, c + 9 * stride) characters. */
  lemma {:induction false} RagCovers(text: string, c: nat, chunks: seq<string>, p: nat)
    requires c > 0 && 0 < |chunks| <= MOST && Sliced(text, c, chunks)
    requires |chunks| == MOST || Start(c, |chunks| - 1) + c >= |text|
    ensures p < Reach(|text|, c) <==>
            exists k :: 0 <= k < |chunks| && Start(c, k) <= p < Start(c, k) + |chunks[k]|
  {
    StartGrows(c, |chunks| - 1, MOST - 1);
    if p < Reach(|text|, c) {
      HolderHolds(c, |chunks|, p);
      var k := Holder(c, |chunks|, p);
      assert IsChunk(text, c, chunks[k], k);
    }
    if k :| 0 <= k < |chunks| && Start(c, k) <= p < Start(c, k) + |chunks[k]| {
      assert IsChunk(text, c, chunks[k], k);
      StartGrows(c, k, MOST - 1);
    }
  }
}
