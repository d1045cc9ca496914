/** The hash-chained audit log (src/security/security.c). Characters stand for bytes. */
module Audit {
  import opened Basics
  import opened CText

  const MAX_ENTRIES := 1000
  const ACTION_SIZE := 64
  const TARGET_SIZE := 256
  const PAYLOAD_SIZE := 512

  // ---------------------------------------------------------------- the chain hash

  const OFFSET := 0x811c9dc5
  const PRIME := 0x01000193
  const W32 := 0x1_0000_0000
  const W64 := 0x1_0000_0000_0000_0000

  function Byte(c: char): (b: nat)
    ensures b < 256
  {
    c as int % 256
  }

  function Xor8(a: nat, b: nat): (r: nat)
    requires a < 256 && b < 256
    ensures r < 256
  {
    ((a as bv8) ^ (b as bv8)) as nat
  }

  /** Exclusive or with a byte changes the lowest byte only. */
  function XorByte(h: nat, b: nat): nat
    requires b < 256
  {
    h - h % 256 + Xor8(h % 256, b)
  }

  /** One round in arithmetic modulo `width`. */
  function Round(h: nat, b: nat, width: nat): nat
    requires b < 256 && width > 0
  {
    (XorByte(h, b) * PRIME) % width
  }

  /** The first loop of chain_hash for width 2^64; the 32-bit FNV-1a hash for width 2^32. */
  function Fold(data: string, width: nat): nat
    requires width > 0
  {
    if data == "" then OFFSET
    else Round(Fold(data[..|data| - 1], width), Byte(data[|data| - 1]), width)
  }

  function MixStep(x: nat): nat {
    (x * 31 + x / W32) % W64
  }

  /** The second loop. */
  function Mix(data: string): nat {
    if data == "" then PRIME
    else MixStep((Mix(data[..|data| - 1]) + Byte(data[|data| - 1])) % W64)
  }

  function ChainHash(data: string): (h: nat)
    ensures h < W64
  {
    (Fold(data, W64) % W32) * W32 + Mix(data) % W32
  }

  method ComputeChainHash(data: string) returns (r: nat)
    ensures r == ChainHash(data)
  {
    var h := OFFSET;
    for i := 0 to |data|
      invariant h == Fold(data[..i], W64)
    {
      assert data[..i + 1][..i] == data[..i];
      h := XorByte(h, Byte(data[i]));
      h := (h * PRIME) % W64;
    }
    var h2 := PRIME;
    for i := 0 to |data|
      invariant h2 == Mix(data[..i])
    {
      assert data[..i + 1][..i] == data[..i];
      h2 := (h2 + Byte(data[i])) % W64;
      h2 := (h2 * 31 + h2 / W32) % W64;
    }
    assert data[..|data|] == data;
    r := (h % W32) * W32 + h2 % W32;
  }

  lemma {:induction false} AddMultiple(y: nat, m: int)
    requires y + m * W32 >= 0
    ensures (y + m * W32) % W32 == y % W32
  {
  }

  lemma {:induction false} CutTwice(y: nat, m: nat)
    ensures (y + m * W32) % W64 % W32 == y % W32
  {
    var z := y + m * W32;
    assert z % W64 == y + (m - z / W64 * W32) * W32;
    AddMultiple(y, m - z / W64 * W32);
  }

  lemma {:induction false} XorCut(x: nat, b: nat)
    requires b < 256
    ensures XorByte(x, b) == XorByte(x % W32, b) + x / W32 * W32
  {
    assert x % W32 % 256 == x % 256;
  }

  /** The low 32 bits of a 64-bit round depend only on the low 32 bits. */
  lemma {:induction false} RoundCut(x: nat, b: nat)
    requires b < 256
    ensures Round(x, b, W64) % W32 == Round(x % W32, b, W32)
  {
    XorCut(x, b);
    var y, k := XorByte(x % W32, b), x / W32;
    assert (y + k * W32) * PRIME == y * PRIME + k * PRIME * W32;
    CutTwice(y * PRIME, k * PRIME);
  }

  lemma {:induction false} UpperHalf(data: string)
    ensures ChainHash(data) / W32 == Fold(data, W64) % W32
  {
  }

  lemma {:induction false} FoldCut(data: string)
    ensures Fold(data, W64) % W32 == Fold(data, W32)
    decreases data
  {
    if data != "" {
      var n := |data| - 1;
      FoldCut(data[..n]);
      RoundCut(Fold(data[..n], W64), Byte(data[n]));
    }
  }

  /** The upper half of the chain hash is the 32-bit FNV-1a hash of the text, though computed in 64 bits. */
  lemma {:induction false} UpperHalfIsFnv(data: string)
    ensures ChainHash(data) / W32 == Fold(data, W32)
  {
    UpperHalf(data);
    FoldCut(data);
  }

  // ---------------------------------------------------------------- hexadecimal text

  function HexDigit(d: nat): (c: char)
    requires d < 16
  {
    if d < 10 then ('0' as int + d) as char else ('a' as int + d - 10) as char
  }

  lemma {:induction false} HexDigitInjective(d: nat, e: nat)
    requires d < 16 && e < 16 && HexDigit(d) == HexDigit(e)
    ensures d == e
  {
  }

  /** The lowest `k` hexadecimal digits. */
  function Hex(n: nat, k: nat): (s: string)
    ensures |s| == k
  {
    if k == 0 then "" else Hex(n / 16, k - 1) + [HexDigit(n % 16)]
  }

  function Pow16(k: nat): (p: nat)
    ensures p > 0
  {
    if k == 0 then 1 else 16 * Pow16(k - 1)
  }

  lemma {:induction false} HexInjective(m: nat, n: nat, k: nat)
    requires m < Pow16(k) && n < Pow16(k) && Hex(m, k) == Hex(n, k)
    ensures m == n
    decreases k
  {
    if k > 0 {
      assert Hex(m, k)[k - 1] == Hex(n, k)[k - 1];
      HexDigitInjective(m % 16, n % 16);
      assert Hex(m / 16, k - 1) == Hex(m, k)[..k - 1] == Hex(n, k)[..k - 1] == Hex(n / 16, k - 1);
      HexInjective(m / 16, n / 16, k - 1);
    }
  }

  /** "%016llx". */
  function HashText(h: nat): (s: string)
    requires h < W64
    ensures |s| == 16
  {
    Hex(h, 16)
  }

  lemma {:induction false} HashTextInjective(g: nat, h: nat)
    requires g < W64 && h < W64 && HashText(g) == HashText(h)
    ensures g == h
  {
    assert Pow16(4) == 0x1_0000 && Pow16(8) == W32 && Pow16(12) == 0x1_0000 * W32 && Pow16(16) == W64;
    HexInjective(g, h, 16);
  }

  // ---------------------------------------------------------------- a known answer

  lemma {:induction false} MixSnoc(data: string, c: char, before: nat, after: nat)
    requires Mix(data) == before && after == MixStep((before + Byte(c)) % W64)
    ensures Mix(data + [c]) == after
  {
    assert (data + [c])[..|data|] == data;
  }

  lemma {:induction false} FoldSnoc(data: string, c: char, before: nat, after: nat)
    requires Fold(data, W32) == before && Stirs(before, c, after)
    ensures Fold(data + [c], W32) == after
  {
    assert (data + [c])[..|data|] == data;
  }

  /** One round of the 32-bit hash leads from `before` to `after`. */
  predicate Stirs(before: nat, c: char, after: nat) {
    Round(before, Byte(c), W32) == after
  }

  lemma {:induction false} RoundIs(before: nat, c: char, low: nat, after: nat)
    requires Byte(c) < 256 && Xor8(before % 256, Byte(c)) == low && (before - before % 256 + low) * PRIME % W32 == after
    ensures Stirs(before, c, after)
  {
  }

  lemma {:induction false} FirstRound()
    ensures Stirs(0x811C_9DC5, 'a', 0xE40C_292C)
  {
    assert Xor8(0xC5, 0x61) == 0xA4;
    RoundIs(0x811C_9DC5, 'a', 0xA4, 0xE40C_292C);
  }

  lemma {:induction false} SecondRound()
    ensures Stirs(0xE40C_292C, 'b', 0x4D25_05CA)
  {
    assert Xor8(0x2C, 0x62) == 0x4E;
    RoundIs(0xE40C_292C, 'b', 0x4E, 0x4D25_05CA);
  }

  lemma {:induction false} ThirdRound()
    ensures Stirs(0x4D25_05CA, 'c', 0x1A47_E90B)
  {
    assert Xor8(0xCA, 0x63) == 0xA9;
    RoundIs(0x4D25_05CA, 'c', 0xA9, 0x1A47_E90B);
  }

  lemma {:induction false} FourthRound()
    ensures Stirs(0x1A47_E90B, 'd', 0xCE34_79BD)
  {
    assert Xor8(0x0B, 0x64) == 0x6F;
    RoundIs(0x1A47_E90B, 'd', 0x6F, 0xCE34_79BD);
  }

  lemma {:induction false} MixOfFour(a: string, b: string, c: string, d: string)
    requires a == ['a'] && b == a + ['b'] && c == b + ['c'] && d == c + ['d']
    ensures Mix(d) == 0xE17_9CB3_F4E2
  {
    assert [] + ['a'] == a;
    MixSnoc([], 'a', 0x0100_0193, 0x1F00_3C8C);
    MixSnoc(a, 'b', 0x1F00_3C8C, 0x3_C107_60D2);
    MixSnoc(b, 'c', 0x3_C107_60D2, 0x74_5FE4_C56E);
    MixSnoc(c, 'd', 0x74_5FE4_C56E, 0xE17_9CB3_F4E2);
  }

  lemma {:induction false} FnvOfFour(a: string, b: string, c: string, d: string)
    requires a == ['a'] && b == a + ['b'] && c == b + ['c'] && d == c + ['d']
    ensures Fold(d, W32) == 0xCE34_79BD
  {
    assert [] + ['a'] == a;
    FirstRound();
    SecondRound();
    ThirdRound();
    FourthRound();
    FoldSnoc([], 'a', 0x811C_9DC5, 0xE40C_292C);
    FoldSnoc(a, 'b', 0xE40C_292C, 0x4D25_05CA);
    FoldSnoc(b, 'c', 0x4D25_05CA, 0x1A47_E90B);
    FoldSnoc(c, 'd', 0x1A47_E90B, 0xCE34_79BD);
  }

  /** The chain hash of the text abcd; its upper half is the published FNV-1a value. */
  lemma {:induction false} KnownHash(d: string)
    requires d == "abcd"
    ensures ChainHash(d) == 0xCE34_79BD_9CB3_F4E2
  {
    var a, b, c := ['a'], ['a'] + ['b'], ['a'] + ['b'] + ['c'];
    MixOfFour(a, b, c, d);
    FnvOfFour(a, b, c, d);
    HalvesAre(d, 0xCE34_79BD, 0xE17_9CB3_F4E2);
  }

  lemma {:induction false} HalvesAre(data: string, upper: nat, mix: nat)
    requires Fold(data, W32) == upper && Mix(data) == mix
    ensures ChainHash(data) == upper * W32 + mix % W32
  {
    FoldCut(data);
  }

  /** Its digits, lower case and high digit first. */
  lemma {:induction false} DigitsAreHex(d: nat)
    requires d < 16
    ensures HexDigit(d) == "0123456789abcdef"[d]
  {
  }

  lemma {:induction false} HexAt(n: nat, k: nat)
    requires k > 0
    ensures Hex(n, k)[k - 1] == HexDigit(n % 16) && Hex(n, k)[..k - 1] == Hex(n / 16, k - 1)
  {
  }

  // ---------------------------------------------------------------- entries and the chain

  datatype Entry =
    Entry(action: string, target: string, time: nat, allowed: bool, previous: string, current: string)

  function Fields(e: Entry): string {
    e.action + e.target + Digits(e.time)
  }

  function Verdict(e: Entry): char {
    if e.allowed then '1' else '0'
  }

  /** The text that is hashed. */
  function Payload(e: Entry): string {
    Bounded(e.previous + Fields(e) + [Verdict(e)], PAYLOAD_SIZE)
  }

  /** The entry that follows the entries `s`. */
  function NewEntry(s: seq<Entry>, action: string, target: string, time: nat, allowed: bool): Entry {
    var previous := if s == [] then "0" else Bounded(s[|s| - 1].current, 17);
    var e := Entry(Bounded(action, ACTION_SIZE), Bounded(target, TARGET_SIZE), time, allowed, previous, "");
    e.(current := HashText(ChainHash(Payload(e))))
  }

  /** The log after one more entry: the oldest goes when there are a thousand. */
  function Logged(s: seq<Entry>, action: string, target: string, time: nat, allowed: bool): seq<Entry> {
    Kept(s) + [NewEntry(Kept(s), action, target, time, allowed)]
  }

  /** The entry's own hash matches its payload, and its fields fit. */
  ghost predicate Sealed(e: Entry) {
    && |e.action| < ACTION_SIZE && |e.target| < TARGET_SIZE && |e.previous| <= 16 && e.time < W64
    && e.current == HashText(ChainHash(Payload(e)))
  }

  /** Every entry names its predecessor's hash. */
  ghost predicate Linked(s: seq<Entry>) {
    forall i :: 0 < i < |s| ==> s[i].previous == s[i - 1].current
  }

  ghost predicate Chain(s: seq<Entry>) {
    |s| <= MAX_ENTRIES && Linked(s) && forall e <- s :: Sealed(e)
  }

  lemma {:induction false} NewEntryIsSealed(s: seq<Entry>, action: string, target: string, time: nat, allowed: bool)
    requires time < W64
    ensures Sealed(NewEntry(s, action, target, time, allowed))
  {
  }

  lemma {:induction false} NewEntryIsLinked(s: seq<Entry>, action: string, target: string, time: nat, allowed: bool)
    requires s != [] && Sealed(s[|s| - 1])
    ensures NewEntry(s, action, target, time, allowed).previous == s[|s| - 1].current
  {
  }

  /** What is hashed for a new entry: link, action, target, time and verdict, one after the other. */
  lemma {:induction false} NewEntryIs(s: seq<Entry>, action: string, target: string, time: nat, allowed: bool)
    requires |action| < 64 && |target| < 256 && time < W64 && (s != [] ==> Sealed(s[|s| - 1]))
    ensures var e := NewEntry(s, action, target, time, allowed);
      var link := if s == [] then "0" else s[|s| - 1].current;
      && e.action == action && e.target == target && e.time == time && e.allowed == allowed && e.previous == link
      && Payload(e) == link + (action + target + Digits(time)) + (if allowed then "1" else "0")
      && e.current == HashText(ChainHash(Payload(e)))
  {
    var e := NewEntry(s, action, target, time, allowed);
    NewEntryIsSealed(s, action, target, time, allowed);
    PayloadFits(e);
  }

  lemma {:induction false} ChainSnoc(s: seq<Entry>, e: Entry)
    requires Chain(s) && |s| < MAX_ENTRIES && Sealed(e) && (s != [] ==> e.previous == s[|s| - 1].current)
    ensures Chain(s + [e])
  {
  }

  function Kept(s: seq<Entry>): seq<Entry> {
    if |s| >= MAX_ENTRIES then s[1..] else s
  }

  lemma {:induction false} KeptChain(s: seq<Entry>)
    requires Chain(s)
    ensures Chain(Kept(s)) && |Kept(s)| < MAX_ENTRIES
  {
  }

  /** Appending keeps the chain, also when the log slides. */
  lemma {:induction false} LoggedKeepsChain(s: seq<Entry>, action: string, target: string, time: nat, allowed: bool)
    requires Chain(s) && time < W64
    ensures Chain(Logged(s, action, target, time, allowed))
  {
    KeptChain(s);
    var kept := Kept(s);
    NewEntryIsSealed(kept, action, target, time, allowed);
    if kept != [] {
      NewEntryIsLinked(kept, action, target, time, allowed);
    }
    ChainSnoc(kept, NewEntry(kept, action, target, time, allowed));
  }

  function Given(target: Option<string>): string {
    if target.Some? then target.value else ""
  }

  /** The last thousand. */
  function Latest(s: seq<Entry>): seq<Entry> {
    if |s| <= MAX_ENTRIES then s else s[|s| - MAX_ENTRIES..]
  }

  lemma {:induction false} LatestSnoc(s: seq<Entry>, e: Entry)
    ensures Latest(s + [e]) == Kept(Latest(s)) + [e]
  {
  }

  class AuditLog {
    const slots: array<Entry>
    var count: nat
    ghost var logged: seq<Entry>    // everything logged since the last clear

    ghost predicate Valid()
      reads this, slots
    {
      && slots.Length == MAX_ENTRIES && count <= MAX_ENTRIES
      && Chain(Contents()) && Contents() == Latest(logged)
    }

    ghost function Contents(): seq<Entry>
      requires slots.Length == MAX_ENTRIES && count <= MAX_ENTRIES
      reads this, slots
    {
      slots[..count]
    }

    constructor ()
      ensures Valid() && Contents() == [] && logged == [] && fresh(slots)
    {
      slots := new Entry[MAX_ENTRIES](_ => Entry("", "", 0, false, "", ""));
      count, logged := 0, [];
    }

    /** The memmove that drops the oldest entry of a full log. */
    method Slide()
      requires slots.Length == MAX_ENTRIES && count <= MAX_ENTRIES
      modifies this`count, slots
      ensures count < MAX_ENTRIES
      ensures Contents() == Kept(old(Contents()))
    {
      if count >= MAX_ENTRIES {
        var j := 0;
        while j < MAX_ENTRIES - 1
          invariant 0 <= j <= MAX_ENTRIES - 1 && count == old(count)
          invariant forall k :: 0 <= k < j ==> slots[k] == old(slots[k + 1])
          invariant forall k :: j <= k < MAX_ENTRIES ==> slots[k] == old(slots[k])
        {
          slots[j] := slots[j + 1];
          j := j + 1;
        }
        count := MAX_ENTRIES - 1;
      }
    }

    /** security_audit_log; a missing target counts as empty. */
    method Log(action: Option<string>, target: Option<string>, allowed: bool, time: nat) returns (code: int)
      requires Valid() && time < W64
      modifies this, slots
      ensures Valid()
      ensures action.None? ==> code == -1 && Contents() == old(Contents()) && logged == old(logged)
      ensures action.Some? ==> code == 0 && Contents() != [] && logged == old(logged) + [Contents()[|Contents()| - 1]]
      ensures action.Some? ==> Contents() == Logged(old(Contents()), action.value, Given(target), time, allowed)
    {
      if action.None? {
        return -1;
      }
      LogEntry(action.value, Given(target), allowed, time);
      return 0;
    }

    method LogEntry(action: string, target: string, allowed: bool, time: nat)
      requires Valid() && time < W64
      modifies this, slots
      ensures Valid() && Contents() == Logged(old(Contents()), action, target, time, allowed)
      ensures Contents() != [] && logged == old(logged) + [Contents()[|Contents()| - 1]]
    {
      ghost var e := NewEntry(Kept(Contents()), action, target, time, allowed);
      LoggedKeepsChain(Contents(), action, target, time, allowed);
      LatestSnoc(logged, e);
      Slide();
      Append(action, target, time, allowed);
      assert Contents()[|Contents()| - 1] == e;
    }

    /** The new entry is filled in and sealed behind the last one. */
    method Append(action: string, target: string, time: nat, allowed: bool)
      requires slots.Length == MAX_ENTRIES && count < MAX_ENTRIES
      modifies this, slots
      ensures count == old(count) + 1 && count <= MAX_ENTRIES
      ensures Contents() == old(Contents()) + [NewEntry(old(Contents()), action, target, time, allowed)]
      ensures logged == old(logged) + [NewEntry(old(Contents()), action, target, time, allowed)]
    {
      ghost var kept := Contents();
      var previous := if count > 0 then Bounded(slots[count - 1].current, 17) else "0";
      var e := Entry(Bounded(action, ACTION_SIZE), Bounded(target, TARGET_SIZE), time, allowed, previous, "");
      var h := ComputeChainHash(Payload(e));
      e := e.(current := HashText(h));
      assert e == NewEntry(kept, action, target, time, allowed);
      slots[count] := e;
      count := count + 1;
      logged := logged + [e];
    }

    /** security_audit_clear. */
    method Clear()
      requires Valid()
      modifies this
      ensures Valid() && Contents() == [] && logged == []
    {
      count, logged := 0, [];
    }
  }

  // ---------------------------------------------------------------- what the last hash pins down

  /** Nothing of a payload is ever cut off. */
  lemma {:induction false} PayloadFits(e: Entry)
    requires Sealed(e)
    ensures Payload(e) == e.previous + Fields(e) + [Verdict(e)]
  {
    assert Pow10(4) == 10_000 && Pow10(8) == 100_000_000 && Pow10(12) == 10_000 * Pow10(8);
    assert Pow10(16) == 10_000 * Pow10(12) && Pow10(20) == 10_000 * Pow10(16) && W64 <= Pow10(20);
    DigitsLength(e.time, 20);
  }

  /** No two of the payloads compared have the same chain hash unless they are the same text. */
  ghost predicate NoCollision(a: seq<Entry>, b: seq<Entry>)
    requires |a| == |b|
  {
    forall i :: 0 <= i < |a| ==> ChainHash(Payload(a[i])) == ChainHash(Payload(b[i])) ==> Payload(a[i]) == Payload(b[i])
  }

  lemma {:induction false} SameHashSamePayload(e: Entry, f: Entry)
    requires Sealed(e) && Sealed(f) && e.current == f.current
    requires ChainHash(Payload(e)) == ChainHash(Payload(f)) ==> Payload(e) == Payload(f)
    ensures Payload(e) == Payload(f)
  {
    HashTextInjective(ChainHash(Payload(e)), ChainHash(Payload(f)));
  }

  lemma {:induction false} SamePayloadSameLink(e: Entry, f: Entry)
    requires Sealed(e) && Sealed(f) && Payload(e) == Payload(f) && |e.previous| == |f.previous|
    ensures e.previous == f.previous
  {
    PayloadFits(e);
    PayloadFits(f);
    assert e.previous == Payload(e)[..|e.previous|];
    assert f.previous == Payload(f)[..|f.previous|];
  }

  /**
   * Two logs of the same length that end in the same hash have the same payload text at every position:
   * the last hash of a log pins down the whole log, up to hash collisions.
   */
  lemma {:induction false} LastHashPinsLog(a: seq<Entry>, b: seq<Entry>, i: nat)
    requires Chain(a) && Chain(b) && |a| == |b| && i < |a| && NoCollision(a, b)
    requires a[|a| - 1].current == b[|b| - 1].current
    ensures Payload(a[i]) == Payload(b[i]) && a[i].current == b[i].current
    decreases |a| - i
  {
    assert Sealed(a[i]) && Sealed(b[i]);
    if i < |a| - 1 {
      LastHashPinsLog(a, b, i + 1);
      assert Sealed(a[i + 1]) && Sealed(b[i + 1]);
      SamePayloadSameLink(a[i + 1], b[i + 1]);
    }
    SameHashSamePayload(a[i], b[i]);
  }

  lemma {:induction false} Cut(p: string, x: string, c: char, q: string, y: string, d: char)
    requires |p| == |q| && p + x + [c] == q + y + [d]
    ensures p == q && x == y && c == d
  {
    var s, t := p + x + [c], q + y + [d];
    assert p == s[..|p|] && q == t[..|q|];
    assert x == s[|p|..|s| - 1] && y == t[|q|..|t| - 1];
    assert c == s[|s| - 1] && d == t[|t| - 1];
  }

  /** The payload runs its fields together: what it fixes, given the link, is their concatenation. */
  lemma {:induction false} PayloadFixesFields(e: Entry, f: Entry)
    requires Sealed(e) && Sealed(f) && |e.previous| == |f.previous|
    ensures Payload(e) == Payload(f) <==> e.previous == f.previous && e.allowed == f.allowed && Fields(e) == Fields(f)
  {
    PayloadFits(e);
    PayloadFits(f);
    if Payload(e) == Payload(f) {
      Cut(e.previous, Fields(e), Verdict(e), f.previous, Fields(f), Verdict(f));
    }
  }

  /** So an entry with a character moved from target to action seals to the same hash. */
  lemma {:induction false} FieldsAreNotPinned(s: seq<Entry>, time: nat, allowed: bool)
    requires time < W64
    ensures var e, f := NewEntry(s, "read", "x", time, allowed), NewEntry(s, "readx", "", time, allowed);
      e.current == f.current && e.action != f.action
  {
    var e, f := NewEntry(s, "read", "x", time, allowed), NewEntry(s, "readx", "", time, allowed);
    NewEntryIsSealed(s, "read", "x", time, allowed);
    NewEntryIsSealed(s, "readx", "", time, allowed);
    assert "read" + "x" == "readx" + "";
    PayloadFixesFields(e, f);
  }
}
