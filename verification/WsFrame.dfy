/** WebSocket frames (src/gateway/gateway.c; sections 5.2 and 5.3 of RFC 6455). */
module WsFrame {
  import opened Basics
  import opened CText

  type Byte = x: nat | x < 256

  const W16 := 0x1_0000
  const W32 := 0x1_0000_0000
  const W63 := 0x8000_0000_0000_0000
  const W64 := 0x1_0000_0000_0000_0000

  // ---------------------------------------------------------------- bytes of a number

  function Pow256(k: nat): (p: nat)
    ensures p > 0
  {
    if k == 0 then 1 else 256 * Pow256(k - 1)
  }

  /** The `k` low bytes, high byte first. */
  function BigEndian(n: nat, k: nat): (s: seq<Byte>)
    ensures |s| == k
  {
    if k == 0 then [] else BigEndian(n / 256, k - 1) + [n % 256]
  }

  /** The `k` low bytes, low byte first. */
  function LittleEndian(n: nat, k: nat): (s: seq<Byte>)
    ensures |s| == k
  {
    if k == 0 then [] else [n % 256] + LittleEndian(n / 256, k - 1)
  }

  function Read(s: seq<Byte>): nat {
    if s == [] then 0 else 256 * Read(s[..|s| - 1]) + s[|s| - 1]
  }

  lemma {:induction false} ReadBigEndian(n: nat, k: nat)
    requires n < Pow256(k)
    ensures Read(BigEndian(n, k)) == n
    decreases k
  {
    if k > 0 {
      ReadBigEndian(n / 256, k - 1);
      assert BigEndian(n, k)[..k - 1] == BigEndian(n / 256, k - 1);
    }
  }

  lemma {:induction false} TwoBytes(n: nat)
    ensures BigEndian(n, 2) == [n / 256 % 256, n % 256]
  {
    assert BigEndian(n, 2) == BigEndian(n / 256, 1) + [n % 256];
    assert BigEndian(n / 256, 1) == BigEndian(n / 256 / 256, 0) + [n / 256 % 256];
  }

  lemma {:induction false} ReadTwo(data: seq<Byte>)
    requires |data| >= 4
    ensures Read(data[2..4]) == 256 * data[2] as nat + data[3]
  {
    var s := data[2..4];
    assert s[..1][..0] == [];
    assert Read(s) == 256 * Read(s[..1]) + s[1];
  }

  /** What the parser makes of a 64-bit length written low byte first. */
  function Swapped(n: nat): nat {
    Read(LittleEndian(n, 8))
  }

  lemma {:induction false} Carry(b: nat, p: nat, r: nat)
    ensures 256 * (b * p + r) == b * (256 * p) + 256 * r
  {
  }

  lemma {:induction false} ReadFront(b: Byte, s: seq<Byte>)
    ensures Read([b] + s) == b * Pow256(|s|) + Read(s)
    decreases s
  {
    if s == [] {
      assert [b] + s == [b] && [b][..0] == [];
    } else {
      var n := |s| - 1;
      ReadFront(b, s[..n]);
      var all := [b] + s;
      assert all[..n + 1] == [b] + s[..n] && all[n + 1] == s[n];
      Carry(b, Pow256(n), Read(s[..n]));
    }
  }

  lemma {:induction false} FirstByteCounts(b: Byte, rest: seq<Byte>, i: nat)
    requires b > 0 && i <= |rest|
    ensures Read([b] + rest) >= Pow256(i)
  {
    ReadFront(b, rest);
    PowGrows(i, |rest|);
    AtLeast(b, Pow256(|rest|));
  }

  lemma {:induction false} SwappedIsLarge(n: nat, k: nat, j: nat)
    requires 0 < n < Pow256(j) && j <= k
    ensures Read(LittleEndian(n, k)) >= Pow256(k - j)
    decreases k
  {
    var b, rest := n % 256, LittleEndian(n / 256, k - 1);
    assert LittleEndian(n, k) == [b] + rest;
    if b == 0 {
      SwappedIsLarge(n / 256, k - 1, j - 1);
      ReadFront(b, rest);
    } else {
      FirstByteCounts(b, rest, k - j);
    }
  }

  lemma {:induction false} AtLeast(b: nat, p: nat)
    requires b > 0
    ensures b * p >= p
  {
    assert b * p == p + (b - 1) * p;
  }

  lemma {:induction false} PowGrows(i: nat, j: nat)
    requires i <= j
    ensures Pow256(i) <= Pow256(j)
    decreases j
  {
    if i < j {
      PowGrows(i, j - 1);
    }
  }

  lemma {:induction false} Powers()
    ensures Pow256(2) == W16 && Pow256(4) == W32 && Pow256(8) == W64
  {
    assert Pow256(2) == 65536;
    assert Pow256(4) == W32;
    assert Pow256(6) == W16 * W32;
  }

  /** A length below 2^32 that needs the 64-bit form is read back as 2^32 or more. */
  lemma {:induction false} SwappedShort(n: nat)
    requires 0 < n < W32
    ensures Swapped(n) >= W32
  {
    Powers();
    SwappedIsLarge(n, 8, 4);
  }

  // ---------------------------------------------------------------- masks

  /** Exclusive or of the `k` low bits. */
  function Xor(a: nat, b: nat, k: nat): (r: nat)
    decreases k
  {
    if k == 0 then 0 else 2 * Xor(a / 2, b / 2, k - 1) + (a + b) % 2
  }

  function Pow2(k: nat): nat {
    if k == 0 then 1 else 2 * Pow2(k - 1)
  }

  lemma {:induction false} XorBound(a: nat, b: nat, k: nat)
    ensures Xor(a, b, k) < Pow2(k)
    decreases k
  {
    if k > 0 {
      XorBound(a / 2, b / 2, k - 1);
    }
  }

  lemma {:induction false} XorParts(a: nat, b: nat, k: nat)
    requires k > 0
    ensures Xor(a, b, k) / 2 == Xor(a / 2, b / 2, k - 1) && Xor(a, b, k) % 2 == (a + b) % 2
  {
  }

  lemma {:induction false} SameHalves(a: nat, y: nat)
    requires y / 2 == a / 2 && y % 2 == a % 2
    ensures y == a
  {
  }

  lemma {:induction false} BitBack(a: nat, b: nat, x: nat)
    requires x % 2 == (a + b) % 2
    ensures (x + b) % 2 == a % 2
  {
  }

  lemma {:induction false} XorTwice(a: nat, b: nat, k: nat)
    requires a < Pow2(k)
    ensures Xor(Xor(a, b, k), b, k) == a
    decreases k
  {
    if k > 0 {
      XorTwice(a / 2, b / 2, k - 1);
      var x := Xor(a, b, k);
      XorParts(a, b, k);
      XorParts(x, b, k);
      BitBack(a, b, x);
      SameHalves(a, Xor(x, b, k));
    }
  }

  function Bit(a: nat, i: nat): bool {
    if i == 0 then a % 2 == 1 else Bit(a / 2, i - 1)
  }

  lemma {:induction false} OddSum(a: nat, b: nat)
    ensures (a + b) % 2 == 1 <==> (a % 2 == 1) != (b % 2 == 1)
  {
  }

  lemma {:induction false} HigherBit(a: nat, half: nat, i: nat)
    requires i > 0 && half == a / 2
    ensures Bit(a, i) == Bit(half, i - 1)
  {
  }

  /** Bit by bit, exclusive or is difference. */
  lemma {:induction false} XorBits(a: nat, b: nat, k: nat, i: nat)
    requires i < k
    ensures Bit(Xor(a, b, k), i) == (Bit(a, i) != Bit(b, i))
    decreases k
  {
    XorParts(a, b, k);
    if i == 0 {
      OddSum(a, b);
    } else {
      var c, d := a / 2, b / 2;
      XorBits(c, d, k - 1, i - 1);
      HigherBit(a, c, i);
      HigherBit(b, d, i);
      HigherBit(Xor(a, b, k), Xor(c, d, k - 1), i);
    }
  }

  /** The mask works bit by bit on the eight bits of a byte. */
  lemma {:induction false} XorByteBits(a: Byte, b: Byte, i: nat)
    requires i < 8
    ensures Bit(XorByte(a, b), i) == (Bit(a, i) != Bit(b, i))
  {
    XorBits(a, b, 8, i);
  }

  function XorByte(a: Byte, b: Byte): Byte {
    XorBound(a, b, 8);
    assert Pow2(8) == 256;
    Xor(a, b, 8)
  }

  lemma {:induction false} XorByteTwice(a: Byte, b: Byte)
    ensures XorByte(XorByte(a, b), b) == a
  {
    assert Pow2(8) == 256;
    XorTwice(a, b, 8);
  }

  /** The payload under a four-byte key; no key leaves it as it is. */
  function Masked(m: seq<Byte>, key: seq<Byte>): (r: seq<Byte>)
    requires |key| == 0 || |key| == 4
    ensures |r| == |m|
    ensures forall i :: 0 <= i < |m| ==> r[i] == if key == [] then m[i] else XorByte(m[i], key[i % 4])
  {
    seq(|m|, i requires 0 <= i < |m| => if key == [] then m[i] else XorByte(m[i], key[i % 4]))
  }

  lemma {:induction false} MaskUndone(m: seq<Byte>, key: seq<Byte>)
    requires |key| == 0 || |key| == 4
    ensures Masked(Masked(m, key), key) == m
  {
    forall i | 0 <= i < |m|
      ensures Masked(Masked(m, key), key)[i] == m[i]
    {
      if key != [] {
        XorByteTwice(m[i], key[i % 4]);
      }
    }
  }

  // ---------------------------------------------------------------- frames

  /** A frame with its length coded as section 5.2 asks; the mask bit is set when there is a key. */
  function Standard(first: Byte, m: seq<Byte>, key: seq<Byte>): seq<Byte>
    requires |m| < W63 && (|key| == 0 || |key| == 4)
  {
    [first] + LengthBytes(|m|, if key == [] then 0 else 128) + key + Masked(m, key)
  }

  function LengthBytes(n: nat, bit: nat): (s: seq<Byte>)
    requires bit == 0 || bit == 128
    ensures |s| == if n < 126 then 1 else if n < W16 then 3 else 9
  {
    if n < 126 then [bit + n]
    else if n < W16 then [bit + 126] + BigEndian(n, 2)
    else [bit + 127] + BigEndian(n, 8)
  }

  /** ws_build_frame: the 64-bit length goes out low byte first. */
  function Build(m: seq<Byte>, binary: bool): seq<Byte> {
    [if binary then 0x82 else 0x81]
    + (if |m| < 126 then [|m|] else if |m| < W16 then [126] + BigEndian(|m|, 2) else [127] + LittleEndian(|m|, 8))
    + m
  }

  datatype Frame = Frame(fin: nat, binary: bool, copied: seq<Byte>, length: nat)

  /** Where the length field ends, and the announced length, if those bytes are there. */
  function Header(data: seq<Byte>): (r: Option<(nat, nat)>)
    ensures r.Some? ==> 2 <= r.value.0 <= |data|
  {
    if |data| < 2 then None
    else
      var n := data[1] % 128;
      if n == 126 then (if |data| < 4 then None else Some((4, Read(data[2..4]))))
      else if n == 127 then (if |data| < 10 then None else Some((10, Read(data[2..10]))))
      else Some((2, n))
  }

  /** How many bytes are copied out: a caller's size of 0 wraps around and bounds nothing. */
  function Copied(n: nat, room: nat): (k: nat)
    ensures k <= n && (n < room ==> k == n) && (0 < room <= n ==> k == room - 1) && (room == 0 ==> k == n)
  {
    if room == 0 || n < room then n else room - 1
  }

  /** ws_parse_frame, `room` being the caller's buffer size. */
  function Parse(data: seq<Byte>, room: nat): Option<Frame> {
    var h := Header(data);
    if h.None? then None
    else
      var (offset, n) := h.value;
      var masked := data[1] >= 128;
      var start := if masked then offset + 4 else offset;
      if |data| < start + n then None
      else
        var plain := Masked(data[start..start + n], if masked then data[offset..offset + 4] else []);
        Some(Frame(data[0] / 128, data[0] % 16 == 2, plain[..Copied(n, room)], n))
  }

  // ---------------------------------------------------------------- the parser on standard frames

  lemma {:induction false} ShortHeader(first: Byte, n: nat, bit: nat, rest: seq<Byte>)
    requires n < 126 && (bit == 0 || bit == 128)
    ensures Header([first] + LengthBytes(n, bit) + rest) == Some((2, n))
  {
  }

  lemma {:induction false} MediumHeader(first: Byte, n: nat, bit: nat, rest: seq<Byte>)
    requires 126 <= n < W16 && (bit == 0 || bit == 128)
    ensures Header([first] + LengthBytes(n, bit) + rest) == Some((4, n))
  {
    var data := [first] + LengthBytes(n, bit) + rest;
    TwoBytes(n);
    assert data[2] == n / 256 && data[3] == n % 256;
    ReadTwo(data);
  }

  lemma {:induction false} LongHeader(first: Byte, n: nat, bit: nat, rest: seq<Byte>)
    requires W16 <= n < W64 && (bit == 0 || bit == 128)
    ensures Header([first] + LengthBytes(n, bit) + rest) == Some((10, n))
  {
    var data := [first] + LengthBytes(n, bit) + rest;
    assert data[2..10] == BigEndian(n, 8);
    Powers();
    ReadBigEndian(n, 8);
  }

  lemma {:induction false} HeaderRead(first: Byte, n: nat, bit: nat, rest: seq<Byte>)
    requires n < W64 && (bit == 0 || bit == 128)
    ensures Header([first] + LengthBytes(n, bit) + rest) == Some((1 + |LengthBytes(n, bit)|, n))
    ensures LengthBytes(n, bit)[0] >= 128 <==> bit == 128
  {
    if n < 126 {
      ShortHeader(first, n, bit, rest);
    } else if n < W16 {
      MediumHeader(first, n, bit, rest);
    } else {
      LongHeader(first, n, bit, rest);
    }
  }

  lemma {:induction false} Layout(a: seq<Byte>, b: seq<Byte>, c: seq<Byte>, d: seq<Byte>)
    ensures var s := a + b + c + d;
      && s == a + (b + c + d)
      && s[|a|..|a| + |b|] == b
      && s[|a| + |b|..|a| + |b| + |c|] == c
  {
  }

  /**
   * The parser reads every frame of the standard, whatever its length form, first byte and mask, and
   * whatever bytes follow it: the payload comes out unmasked.
   */
  lemma {:induction false} ParsesStandard(first: Byte, m: seq<Byte>, key: seq<Byte>, rest: seq<Byte>, room: nat)
    requires |m| < W63 && (|key| == 0 || |key| == 4)
    ensures Parse(Standard(first, m, key) + rest, room) ==
            Some(Frame(first / 128, first % 16 == 2, m[..Copied(|m|, room)], |m|))
  {
    var bit := if key == [] then 0 else 128;
    var data := Standard(first, m, key) + rest;
    var front, body := [first] + LengthBytes(|m|, bit), Masked(m, key);
    Layout(front, key, body, rest);
    HeaderRead(first, |m|, bit, key + body + rest);
    assert data[0] == first && data[1] == LengthBytes(|m|, bit)[0];
    MaskUndone(m, key);
  }

  lemma {:induction false} HeaderPrefix(data: seq<Byte>, k: nat)
    requires k <= |data| && Header(data[..k]).Some?
    ensures Header(data) == Header(data[..k])
  {
    assert k >= 4 ==> data[..k][2..4] == data[2..4];
    assert k >= 10 ==> data[..k][2..10] == data[2..10];
  }

  /** The parser takes a frame only when it is all there: no strict prefix of a frame parses. */
  lemma {:induction false} NoPrefixParses(first: Byte, m: seq<Byte>, key: seq<Byte>, k: nat, room: nat)
    requires |m| < W63 && (|key| == 0 || |key| == 4) && k < |Standard(first, m, key)|
    ensures Parse(Standard(first, m, key)[..k], room) == None
  {
    var bit := if key == [] then 0 else 128;
    var data := Standard(first, m, key);
    assert data == [first] + LengthBytes(|m|, bit) + (key + Masked(m, key));
    HeaderRead(first, |m|, bit, key + Masked(m, key));
    if Header(data[..k]).Some? {
      HeaderPrefix(data, k);
      assert data[..k][1] == data[1] == LengthBytes(|m|, bit)[0];
    }
  }

  // ---------------------------------------------------------------- frames as built

  function FirstByte(binary: bool): Byte {
    if binary then 0x82 else 0x81
  }

  lemma {:induction false} BuildIsStandard(m: seq<Byte>, binary: bool)
    requires |m| < W16
    ensures Build(m, binary) == Standard(FirstByte(binary), m, [])
  {
    assert Masked(m, []) == m;
  }

  /** A built frame with the 64-bit length, read back. */
  lemma {:induction false} LongBuildParses(m: seq<Byte>, binary: bool, room: nat)
    requires W16 <= |m|
    ensures Parse(Build(m, binary), room) ==
            if Swapped(|m|) > |m| then None
            else Some(Frame(1, binary, m[..Copied(Swapped(|m|), room)], Swapped(|m|)))
  {
    var data, n := Build(m, binary), Swapped(|m|);
    assert data == [FirstByte(binary)] + [127] + LittleEndian(|m|, 8) + m;
    assert data[2..10] == LittleEndian(|m|, 8);
    assert Header(data) == Some((10, n));
    if n <= |m| {
      assert data[10..10 + n] == m[..n];
      assert Masked(m[..n], []) == m[..n];
      assert m[..n][..Copied(n, room)] == m[..Copied(n, room)];
    }
  }

  /** Parsing what was built gives the message back exactly when its length has a form both sides agree on. */
  lemma {:induction false} RoundTrip(m: seq<Byte>, binary: bool, room: nat)
    requires |m| < room
    ensures Parse(Build(m, binary), room) == Some(Frame(1, binary, m, |m|)) <==> |m| < W16 || Swapped(|m|) == |m|
  {
    assert m[..|m|] == m;
    if |m| < W16 {
      BuildIsStandard(m, binary);
      ParsesStandard(FirstByte(binary), m, [], [], room);
      assert Build(m, binary) + [] == Build(m, binary);
    } else {
      LongBuildParses(m, binary, room);
    }
  }

  /** In particular every built frame from 65536 bytes up to four gigabytes is rejected. */
  lemma {:induction false} LongBuildRejected(m: seq<Byte>, binary: bool, room: nat)
    requires W16 <= |m| < W32
    ensures Parse(Build(m, binary), room) == None
  {
    LongBuildParses(m, binary, room);
    SwappedShort(|m|);
  }

  // ---------------------------------------------------------------- the two functions as they run

  function Div256(n: nat, i: nat): nat {
    if i == 0 then n else Div256(n / 256, i - 1)
  }

  lemma {:induction false} LittleEndianAt(n: nat, k: nat, i: nat)
    requires i < k
    ensures LittleEndian(n, k)[i] == Div256(n, i) % 256
    decreases k
  {
    if i > 0 {
      LittleEndianAt(n / 256, k - 1, i - 1);
    }
  }

  /** The eight length bytes, from the last down to the first. */
  method WriteLong(n: nat, out: array<Byte>)
    requires out.Length >= 10
    modifies out
    ensures out[2..10] == LittleEndian(n, 8)
    ensures forall k :: 0 <= k < out.Length && !(2 <= k < 10) ==> out[k] == old(out[k])
  {
    var i := 8;
    while i > 0
      invariant 0 <= i <= 8
      invariant forall k :: i <= k < 8 ==> out[2 + k] == LittleEndian(n, 8)[k]
      invariant forall k :: 0 <= k < out.Length && !(2 <= k < 10) ==> out[k] == old(out[k])
    {
      i := i - 1;
      LittleEndianAt(n, 8, i);
      out[2 + i] := Div256(n, i) % 256;
    }
  }

  method Append(m: seq<Byte>, out: array<Byte>, at: nat)
    requires at + |m| <= out.Length
    modifies out
    ensures out[..at + |m|] == old(out[..at]) + m
  {
    for i := 0 to |m|
      invariant out[..at] == old(out[..at])
      invariant forall k :: 0 <= k < i ==> out[at + k] == m[k]
    {
      out[at + i] := m[i];
    }
  }

  /** Everything before the payload. */
  function Front(n: nat, binary: bool): seq<Byte> {
    [if binary then 0x82 else 0x81]
    + if n < 126 then [n] else if n < W16 then [126] + BigEndian(n, 2) else [127] + LittleEndian(n, 8)
  }

  lemma {:induction false} BuildIsFront(m: seq<Byte>, binary: bool)
    ensures Build(m, binary) == Front(|m|, binary) + m
  {
  }

  method WriteFront(len: nat, binary: bool, out: array<Byte>) returns (n: nat)
    requires out.Length >= 10
    modifies out
    ensures n == |Front(len, binary)| <= 10 && out[..n] == Front(len, binary)
  {
    out[0] := if binary then 0x82 else 0x81;
    if len < 126 {
      out[1] := len;
      n := 2;
    } else if len < 65536 {
      out[1] := 126;
      out[2], out[3] := len / 256 % 256, len % 256;
      TwoBytes(len);
      n := 4;
    } else {
      out[1] := 127;
      WriteLong(len, out);
      n := 10;
      assert out[..10] == out[..2] + out[2..10];
    }
  }

  method BuildFrame(m: seq<Byte>, binary: bool, out: array<Byte>) returns (n: nat)
    requires out.Length >= |m| + 10
    modifies out
    ensures n == |Build(m, binary)| && out[..n] == Build(m, binary)
    ensures out[0] == if binary then 0x82 else 0x81
  {
    BuildIsFront(m, binary);
    n := WriteFront(|m|, binary, out);
    assert Build(m, binary)[0] == if binary then 0x82 else 0x81;
    Append(m, out, n);
    n := n + |m|;
  }

  method ReadLong(data: seq<Byte>) returns (n: nat)
    requires |data| >= 10
    ensures n == Read(data[2..10])
  {
    n := 0;
    ghost var s := data[2..10];
    for i := 0 to 8
      invariant n == Read(s[..i])
    {
      assert s[..i + 1][..i] == s[..i];
      n := 256 * n + data[2 + i];
    }
    assert s[..8] == s;
  }

  method ReadHeader(data: seq<Byte>) returns (r: Option<(nat, nat)>)
    ensures r == Header(data)
  {
    if |data| < 2 {
      return None;
    }
    var n := data[1] % 128;
    if n == 126 {
      if |data| < 4 {
        return None;
      }
      ReadTwo(data);
      return Some((4, 256 * data[2] as nat + data[3]));
    } else if n == 127 {
      if |data| < 10 {
        return None;
      }
      n := ReadLong(data);
      return Some((10, n));
    }
    return Some((2, n));
  }

  /** The copy loop, which undoes the mask on the way. */
  method CopyOut(payload: seq<Byte>, key: seq<Byte>, room: nat) returns (out: seq<Byte>)
    requires |key| == 0 || |key| == 4
    ensures out == Masked(payload, key)[..Copied(|payload|, room)]
  {
    out := [];
    var i := 0;
    while i < |payload| && (room == 0 || i < room - 1)
      invariant 0 <= i <= Copied(|payload|, room)
      invariant out == Masked(payload, key)[..i]
    {
      var b := payload[i];
      if key != [] {
        b := XorByte(b, key[i % 4]);
      }
      out := out + [b];
      i := i + 1;
    }
  }

  method ParseFrame(data: seq<Byte>, room: nat) returns (r: Option<Frame>)
    ensures r == Parse(data, room)
  {
    var h := ReadHeader(data);
    if h.None? {
      return None;
    }
    var (offset, n) := h.value;
    var masked := data[1] >= 128;
    var start := if masked then offset + 4 else offset;
    if |data| < start + n {
      return None;
    }
    var key := if masked then data[offset..offset + 4] else [];
    var out := CopyOut(data[start..start + n], key, room);
    return Some(Frame(data[0] / 128, data[0] % 16 == 2, out, n));
  }
}
