/** Index arithmetic shared by the job ring and the event ring. */
module RingIndex {

  function Wrap(x: nat, cap: nat): (r: nat)
    requires x < 2 * cap
    ensures r < cap && (r == x || r + cap == x)
  {
    if x < cap then x else x - cap
  }

  /** The source's `% capacity` is one conditional subtraction for the indices that occur. */
  lemma {:induction false} ModIsWrap(x: nat, cap: nat)
    requires x < 2 * cap
    ensures x % cap == Wrap(x, cap)
  {
    if cap <= x {
      QuotientIsOne(x, cap);
      assert x == (x / cap) * cap + x % cap;
    }
  }

  lemma {:induction false} QuotientIsOne(x: nat, cap: nat)
    requires 0 < cap <= x < 2 * cap
    ensures x / cap == 1
  {
    var q := x / cap;
    assert q * cap <= x < q * cap + cap;
    assert q != 0;
    assert q < 2 by {
      if 2 <= q {
        MulAtLeast(q, cap);
        assert false;
      }
    }
  }

  lemma {:induction false} MulAtLeast(q: nat, cap: nat)
    requires 2 <= q
    ensures 2 * cap <= q * cap
  {
    assert q * cap == 2 * cap + (q - 2) * cap;
  }

  /** The `c` ring cells that start at `h`, in order. */
  function Window<T>(cells: seq<T>, h: nat, c: nat): (w: seq<T>)
    requires h < |cells| && c <= |cells|
    ensures |w| == c
    ensures forall i :: 0 <= i < c ==> w[i] == cells[Wrap(h + i, |cells|)]
  {
    seq(c, i requires 0 <= i < c => cells[Wrap(h + i, |cells|)])
  }

  /** Writing one past the last cell appends. */
  lemma {:induction false} WindowAppend<T>(cells: seq<T>, h: nat, c: nat, x: T)
    requires h < |cells| && c < |cells|
    ensures Window(cells[Wrap(h + c, |cells|) := x], h, c + 1) == Window(cells, h, c) + [x]
  {
  }

  /** Moving the head by one drops the oldest cell. */
  lemma {:induction false} WindowDrop<T>(cells: seq<T>, h: nat, c: nat)
    requires h < |cells| && 0 < c <= |cells|
    ensures Window(cells, h, c) == [cells[h]] + Window(cells, Wrap(h + 1, |cells|), c - 1)
  {
    var d := Window(cells, Wrap(h + 1, |cells|), c - 1);
    forall i | 1 <= i < c
      ensures Window(cells, h, c)[i] == d[i - 1]
    {
      assert Wrap(h + i, |cells|) == Wrap(Wrap(h + 1, |cells|) + (i - 1), |cells|);
    }
  }
}
