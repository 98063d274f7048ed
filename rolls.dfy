/**
 * Piano rolls: time x pitch boolean matrices, and the pure shape arithmetic
 * the `Midi` class performs on them (mused/Midi.py).
 */
module Rolls {

  /** Fixed configuration: the centre of the pitch window and the MIDI pitch range. */
  const MiddleC: nat := 64
  const MidiInputs: nat := 128

  /** A roll is a sequence of time steps, each a row of pitch flags. */
  type Row = seq<bool>
  type Roll = seq<Row>

  /** Every row of `r` is `w` pitches wide. */
  predicate HasWidth(r: Roll, w: nat)
  {
    forall t :: 0 <= t < |r| ==> |r[t]| == w
  }

  function ZeroRow(w: nat): (r: Row)
    ensures |r| == w && forall p :: 0 <= p < w ==> !r[p]
  {
    seq(w, _ => false)
  }

  /** `np.zeros((n, w), dtype=bool)`. */
  function ZeroRoll(n: nat, w: nat): (r: Roll)
    ensures |r| == n && HasWidth(r, w)
    ensures forall t :: 0 <= t < n ==> r[t] == ZeroRow(w)
  {
    seq(n, _ => ZeroRow(w))
  }

  /** Rolls stacked along the time axis, in order. */
  function Concat(rs: seq<Roll>): Roll
  {
    if rs == [] then [] else Concat(rs[..|rs| - 1]) + rs[|rs| - 1]
  }

  lemma {:induction false} ConcatPrefixLength(rs: seq<Roll>, j: nat)
    requires j <= |rs|
    ensures |Concat(rs[..j])| <= |Concat(rs)|
  {
    if j < |rs| {
      assert rs[..|rs| - 1][..j] == rs[..j];
      ConcatPrefixLength(rs[..|rs| - 1], j);
    } else {
      assert rs[..j] == rs;
    }
  }

  /** Roll `k` of a stack starts right after the rows of the rolls before it. */
  lemma {:induction false} ConcatBlock(rs: seq<Roll>, k: nat, t: nat)
    requires k < |rs| && t < |rs[k]|
    ensures |Concat(rs[..k])| + t < |Concat(rs)|
    ensures Concat(rs)[|Concat(rs[..k])| + t] == rs[k][t]
  {
    var init := rs[..|rs| - 1];
    if k == |rs| - 1 {
      assert rs[..k] == init;
    } else {
      assert init[..k] == rs[..k];
      ConcatBlock(init, k, t);
    }
  }

  /** Stacking one more roll appends its rows. */
  lemma ConcatSnoc(rs: seq<Roll>, r: Roll)
    ensures Concat(rs + [r]) == Concat(rs) + r
  {
    assert (rs + [r])[..|rs|] == rs;
  }

  lemma {:induction false} ConcatWidth(rs: seq<Roll>, w: nat)
    requires forall k :: 0 <= k < |rs| ==> HasWidth(rs[k], w)
    ensures HasWidth(Concat(rs), w)
  {
    if rs != [] {
      ConcatWidth(rs[..|rs| - 1], w);
    }
  }

  /** The number of sounding pitches in a row (`np.sum` of one row). */
  function Ones(row: Row): nat
  {
    if row == [] then 0 else (if row[0] then 1 else 0) + Ones(row[1..])
  }

  /** The number of sounding cells in a roll (`np.sum(roll)`). */
  function Total(r: Roll): nat
  {
    if r == [] then 0 else Ones(r[0]) + Total(r[1..])
  }

  lemma {:induction false} OnesAppend(a: Row, b: Row)
    ensures Ones(a + b) == Ones(a) + Ones(b)
  {
    if a == [] {
      assert a + b == b;
    } else {
      var ab := a + b;
      assert ab[0] == a[0];
      assert ab[1..] == a[1..] + b;
      OnesAppend(a[1..], b);
      assert Ones(ab) == (if ab[0] then 1 else 0) + Ones(ab[1..]);
    }
  }

  // ---------------------------------------------------------------------
  // Cutting to a pitch window, and widening back to the full range
  // ---------------------------------------------------------------------

  /** `roll[:, lo:hi]`: keep the pitch columns `lo .. hi-1` of every row. */
  function Cut(r: Roll, lo: nat, hi: nat): (c: Roll)
    requires lo <= hi
    requires forall t :: 0 <= t < |r| ==> hi <= |r[t]|
    ensures |c| == |r| && HasWidth(c, hi - lo)
    ensures forall t, p :: 0 <= t < |r| && 0 <= p < hi - lo ==> c[t][p] == r[t][lo + p]
  {
    seq(|r|, t requires 0 <= t < |r| => r[t][lo..hi])
  }

  /** Number of sounding cells of `r` outside the columns `lo .. hi-1`. */
  function OutsideWindow(r: Roll, lo: nat, hi: nat): nat
    requires lo <= hi
    requires forall t :: 0 <= t < |r| ==> hi <= |r[t]|
  {
    if r == [] then 0 else Ones(r[0][..lo]) + Ones(r[0][hi..]) + OutsideWindow(r[1..], lo, hi)
  }

  lemma {:induction false} TotalSplitsAtWindow(r: Roll, lo: nat, hi: nat)
    requires lo <= hi
    requires forall t :: 0 <= t < |r| ==> hi <= |r[t]|
    ensures Total(r) == Total(Cut(r, lo, hi)) + OutsideWindow(r, lo, hi)
  {
    if r != [] {
      var row := r[0];
      assert row == row[..lo] + row[lo..hi] + row[hi..];
      OnesAppend(row[..lo] + row[lo..hi], row[hi..]);
      OnesAppend(row[..lo], row[lo..hi]);
      TotalSplitsAtWindow(r[1..], lo, hi);
      assert Cut(r, lo, hi)[1..] == Cut(r[1..], lo, hi);
    }
  }

  /**
   * The note loss `np.sum(roll) - np.sum(refined)` of a cut: never negative, and
   * exactly the sounding cells that fall outside the window.
   */
  function NoteLoss(r: Roll, lo: nat, hi: nat): (loss: int)
    requires lo <= hi
    requires forall t :: 0 <= t < |r| ==> hi <= |r[t]|
    ensures loss >= 0
    ensures loss == OutsideWindow(r, lo, hi)
  {
    TotalSplitsAtWindow(r, lo, hi);
    Total(r) - Total(Cut(r, lo, hi))
  }

  /** The columns a cut keeps: `[MiddleC - notesAbove, MiddleC + notesAbove)`. */
  function CutWindow(r: Roll, notesAbove: nat): (c: Roll)
    requires notesAbove <= MiddleC
    requires HasWidth(r, MidiInputs)
    ensures |c| == |r| && HasWidth(c, 2 * notesAbove)
    ensures forall t, p :: 0 <= t < |r| && 0 <= p < 2 * notesAbove ==>
              c[t][p] == r[t][MiddleC - notesAbove + p]
  {
    Cut(r, MiddleC - notesAbove, MiddleC + notesAbove)
  }

  /**
   * `export[:, lo:lo+w] = r` on an all-false roll `full` pitches wide: row `t` is
   * `r[t]` placed at column `lo`, false everywhere else.
   */
  function Widen(r: Roll, lo: nat, full: nat): (e: Roll)
    requires forall t :: 0 <= t < |r| ==> lo + |r[t]| <= full
    ensures |e| == |r| && HasWidth(e, full)
    ensures forall t, p :: 0 <= t < |r| && 0 <= p < full ==>
              e[t][p] == (lo <= p < lo + |r[t]| && r[t][p - lo])
  {
    seq(|r|, t requires 0 <= t < |r| => ZeroRow(lo) + r[t] + ZeroRow(full - lo - |r[t]|))
  }

  /** Cutting a widened roll back to its window gives the roll again. */
  lemma WidenThenCut(r: Roll, w: nat, lo: nat, full: nat)
    requires HasWidth(r, w) && lo + w <= full
    ensures Cut(Widen(r, lo, full), lo, lo + w) == r
  {
    var c := Cut(Widen(r, lo, full), lo, lo + w);
    forall t | 0 <= t < |r|
      ensures c[t] == r[t]
    {
      forall p | 0 <= p < w
        ensures c[t][p] == r[t][p]
      {
        assert c[t][p] == Widen(r, lo, full)[t][lo + p];
      }
    }
  }

  /**
   * Widening a cut roll (what `reformat_roll` does after a cut load) leaves the
   * window's data in place and silences every pitch outside it.
   */
  lemma CutThenWiden(r: Roll, notesAbove: nat)
    requires notesAbove <= MiddleC
    requires HasWidth(r, MidiInputs)
    ensures var e := Widen(CutWindow(r, notesAbove), MiddleC - notesAbove, MidiInputs);
      |e| == |r| && HasWidth(e, MidiInputs) &&
      forall t, p :: 0 <= t < |r| && 0 <= p < MidiInputs ==>
        e[t][p] == (MiddleC - notesAbove <= p < MiddleC + notesAbove && r[t][p])
  {
    var lo := MiddleC - notesAbove;
    var c := CutWindow(r, notesAbove);
    var e := Widen(c, lo, MidiInputs);
    forall t, p | 0 <= t < |r| && 0 <= p < MidiInputs
      ensures e[t][p] == (lo <= p < MiddleC + notesAbove && r[t][p])
    {
      if lo <= p < MiddleC + notesAbove {
        assert c[t][p - lo] == r[t][lo + (p - lo)];
      }
    }
  }

  // ---------------------------------------------------------------------
  // Integer arithmetic used by the index bookkeeping
  // ---------------------------------------------------------------------

  lemma {:induction false} MulMono(a: int, b: int, n: nat)
    requires a <= b
    ensures a * n <= b * n
  {
    if n > 0 {
      MulMono(a, b, n - 1);
      assert a * n == a * (n - 1) + a;
      assert b * n == b * (n - 1) + b;
    }
  }

  /** Euclidean division is determined by the interval `[k*n, k*n + n)` that holds `x`. */
  lemma DivUnique(x: int, k: int, n: int)
    requires n > 0 && k * n <= x < k * n + n
    ensures x / n == k && x % n == x - k * n
  {
    var q := x / n;
    assert x == q * n + x % n;
    assert (k + 1) * n == k * n + n;
    assert (q + 1) * n == q * n + n;
    if q > k {
      MulMono(k + 1, q, n);
    } else if q < k {
      MulMono(q + 1, k, n);
    }
  }

  /** A representative of `x` modulo `n` that lies in `[0, n)` is `x % n`. */
  lemma ModUnique(q: int, x: int, m: int, n: int)
    requires n > 0 && 0 <= q < n && q == x + m * n
    ensures q == x % n
  {
    assert x == (-m) * n + q;
    DivUnique(x, -m, n);
  }

  // ---------------------------------------------------------------------
  // Circular pitch shift (`np.roll(roll, s, axis=1)`)
  // ---------------------------------------------------------------------

  /**
   * `np.roll(row, s)`: the row rotated by `s` pitches, wrapping around; pitch
   * `p` of the result is pitch `(p - s) mod P` of the input.
   */
  function RollRow(row: Row, s: int): (r: Row)
    ensures |r| == |row|
  {
    seq(|row|, p requires 0 <= p < |row| => row[(p - s) % |row|])
  }

  /**
   * The rotation as a cut-and-swap: rolling by `s` moves the first
   * `(-s) mod P` pitches to the end.
   */
  lemma RollRowRotation(row: Row, s: int)
    requires row != []
    ensures RollRow(row, s) == row[(-s) % |row|..] + row[..(-s) % |row|]
  {
    var n := |row|;
    var k := (-s) % n;
    var a := (-s) / n;
    var rotated := row[k..] + row[..k];
    assert -s == a * n + k;
    forall p | 0 <= p < n ensures RollRow(row, s)[p] == rotated[p] {
      if p < n - k {
        ModUnique(k + p, p - s, -a, n);
      } else {
        assert (-a - 1) * n == -(a * n) - n;
        ModUnique(p - (n - k), p - s, -a - 1, n);
      }
    }
  }

  /** A circular shift neither creates nor drops notes. */
  lemma RollRowOnes(row: Row, s: int)
    ensures Ones(RollRow(row, s)) == Ones(row)
  {
    if row != [] {
      var k := (-s) % |row|;
      RollRowRotation(row, s);
      OnesAppend(row[k..], row[..k]);
      OnesAppend(row[..k], row[k..]);
      assert row[..k] + row[k..] == row;
    }
  }

  /** `np.roll(r, s, axis=1)`: every row rotated by `s`. */
  function ShiftRoll(r: Roll, s: int): (q: Roll)
    ensures |q| == |r|
    ensures forall t :: 0 <= t < |r| ==> |q[t]| == |r[t]|
  {
    seq(|r|, t requires 0 <= t < |r| => RollRow(r[t], s))
  }

  // ---------------------------------------------------------------------
  // Augmentation
  // ---------------------------------------------------------------------

  /** The shifted copies for `i = 1 .. m`: the roll up by `i*v`, then down by `i*v`. */
  function ShiftedBlocks(r: Roll, m: nat, v: int): (b: Roll)
    ensures |b| == 2 * m * |r|
  {
    if m == 0 then []
    else
      assert 2 * m * |r| == 2 * (m - 1) * |r| + |r| + |r|;
      ShiftedBlocks(r, m - 1, v) + ShiftRoll(r, m * v) + ShiftRoll(r, -(m * v))
  }

  /** What `augment(n, v)` makes of a roll: the original, then the shifted copies. */
  function Augmented(r: Roll, n: nat, v: int): (a: Roll)
    ensures |a| == |r| * (2 * (n / 2) + 1)
  {
    assert |r| * (2 * (n / 2) + 1) == 2 * (n / 2) * |r| + |r|;
    r + ShiftedBlocks(r, n / 2, v)
  }

  /** Shifted copies of a roll of one width have that width. */
  lemma {:induction false} ShiftedBlocksWidth(r: Roll, m: nat, v: int, w: nat)
    requires HasWidth(r, w)
    ensures HasWidth(ShiftedBlocks(r, m, v), w)
  {
    if m > 0 {
      ShiftedBlocksWidth(r, m - 1, v, w);
    }
  }

  /** The augmented roll keeps the pitch width. */
  lemma AugmentedWidth(r: Roll, n: nat, v: int, w: nat)
    requires HasWidth(r, w)
    ensures HasWidth(Augmented(r, n, v), w)
  {
    ShiftedBlocksWidth(r, n / 2, v, w);
  }

  /** Appending pair `m` to the original followed by the first `m - 1` pairs gives the first `m` pairs. */
  lemma AugmentRegroup(r: Roll, m: nat, v: int, before: Roll, up: Roll, down: Roll)
    requires m >= 1 && before == r + ShiftedBlocks(r, m - 1, v)
    requires up == ShiftRoll(r, m * v) && down == ShiftRoll(r, -(m * v))
    ensures before + up + down == r + ShiftedBlocks(r, m, v)
  {
    assert ShiftedBlocks(r, m, v) == ShiftedBlocks(r, m - 1, v) + up + down;
    assert before + up + down == r + (ShiftedBlocks(r, m - 1, v) + up + down);
  }

  lemma {:induction false} ShiftedBlocksGrow(r: Roll, m: nat, m2: nat, v: int)
    requires m <= m2
    ensures |ShiftedBlocks(r, m, v)| <= |ShiftedBlocks(r, m2, v)|
  {
    if m < m2 {
      ShiftedBlocksGrow(r, m, m2 - 1, v);
    }
  }

  /** While pairs remain, the stack of all `m2` pairs has room for one more after the first `m - 1`. */
  lemma ShiftedBlocksRoom(r: Roll, m: nat, m2: nat, v: int)
    requires 1 <= m <= m2
    ensures |ShiftedBlocks(r, m - 1, v)| + |r| + |r| <= |ShiftedBlocks(r, m2, v)|
  {
    ShiftedBlocksGrow(r, m, m2, v);
  }

  /** Inside the shifted copies, pair `i` starts after the pairs before it: up-shift first, then down-shift. */
  lemma {:induction false} ShiftedBlocksAt(r: Roll, m: nat, v: int, i: nat, t: nat)
    requires 1 <= i <= m && t < |r|
    ensures |ShiftedBlocks(r, i - 1, v)| + |r| + t < |ShiftedBlocks(r, m, v)|
    ensures ShiftedBlocks(r, m, v)[|ShiftedBlocks(r, i - 1, v)| + t] == ShiftRoll(r, i * v)[t]
    ensures ShiftedBlocks(r, m, v)[|ShiftedBlocks(r, i - 1, v)| + |r| + t] == ShiftRoll(r, -(i * v))[t]
  {
    var prev := ShiftedBlocks(r, m - 1, v);
    assert ShiftedBlocks(r, m, v) == prev + ShiftRoll(r, m * v) + ShiftRoll(r, -(m * v));
    if i < m {
      ShiftedBlocksAt(r, m - 1, v, i, t);
    } else {
      assert prev == ShiftedBlocks(r, i - 1, v);
    }
  }

  /** The first `L` rows of an augmented roll are the original roll. */
  lemma AugmentedKeepsOriginal(r: Roll, n: nat, v: int)
    ensures |r| <= |Augmented(r, n, v)| && Augmented(r, n, v)[..|r|] == r
  {
  }

  /** Block `2i-1` of an augmented roll (`i = 1 .. n/2`) is the roll shifted up by `i*v`. */
  lemma AugmentedUpBlock(r: Roll, n: nat, v: int, i: nat, t: nat)
    requires 1 <= i <= n / 2 && t < |r|
    ensures (2 * i - 1) * |r| + t < |Augmented(r, n, v)|
    ensures Augmented(r, n, v)[(2 * i - 1) * |r| + t] == RollRow(r[t], i * v)
  {
    var L := |r|;
    var p := |ShiftedBlocks(r, i - 1, v)|;
    assert (2 * i - 1) * L == L + 2 * (i - 1) * L;
    ShiftedBlocksAt(r, n / 2, v, i, t);
    assert Augmented(r, n, v)[L + p + t] == ShiftedBlocks(r, n / 2, v)[p + t];
  }

  /** Block `2i` of an augmented roll (`i = 1 .. n/2`) is the roll shifted down by `i*v`. */
  lemma AugmentedDownBlock(r: Roll, n: nat, v: int, i: nat, t: nat)
    requires 1 <= i <= n / 2 && t < |r|
    ensures 2 * i * |r| + t < |Augmented(r, n, v)|
    ensures Augmented(r, n, v)[2 * i * |r| + t] == RollRow(r[t], -(i * v))
  {
    var L := |r|;
    var p := |ShiftedBlocks(r, i - 1, v)|;
    assert 2 * i * L == L + 2 * (i - 1) * L + L;
    ShiftedBlocksAt(r, n / 2, v, i, t);
    assert Augmented(r, n, v)[L + p + L + t] == ShiftedBlocks(r, n / 2, v)[p + L + t];
  }

  /** Every row of an augmented roll sounds as many notes as the row of the original it copies. */
  lemma AugmentedRowOnes(r: Roll, n: nat, v: int, i: nat, t: nat)
    requires 1 <= i <= n / 2 && t < |r|
    ensures (2 * i - 1) * |r| + t < |Augmented(r, n, v)| &&
            Ones(Augmented(r, n, v)[(2 * i - 1) * |r| + t]) == Ones(r[t])
    ensures 2 * i * |r| + t < |Augmented(r, n, v)| &&
            Ones(Augmented(r, n, v)[2 * i * |r| + t]) == Ones(r[t])
  {
    AugmentedUpBlock(r, n, v, i, t);
    AugmentedDownBlock(r, n, v, i, t);
    RollRowOnes(r[t], i * v);
    RollRowOnes(r[t], -(i * v));
  }

  // ---------------------------------------------------------------------
  // Vectorisation
  // ---------------------------------------------------------------------

  /** `len(range(0, length - lookback, step))`: `ceil((length - lookback) / step)`, or none. */
  function PairCount(length: nat, lookback: nat, step: nat): nat
    requires step >= 1
  {
    if length > lookback then (length - lookback + step - 1) / step else 0
  }

  /** There are no pairs exactly when the roll is no longer than the lookback. */
  lemma PairCountZero(length: nat, lookback: nat, step: nat)
    requires step >= 1
    ensures PairCount(length, lookback, step) == 0 <==> length <= lookback
  {
    if length > lookback {
      var x := length - lookback + step - 1;
      assert x == x / step * step + x % step;
    }
  }

  /** The `k`-th window start `k * step` leaves room for the lookback rows and the next row. */
  lemma PairInBounds(length: nat, lookback: nat, step: nat, k: nat)
    requires step >= 1 && k < PairCount(length, lookback, step)
    ensures k * step + lookback < length
  {
    var x := length - lookback + step - 1;
    var q := x / step;
    assert x == q * step + x % step;
    MulMono(k + 1, q, step);
    assert (k + 1) * step == k * step + step;
  }

  /** Window starts `0, step, ..., (k-1)*step`, stopping at the first start `>= d`, number the ceiling of `d / step`. */
  lemma CeilingCount(d: int, step: nat, k: nat)
    requires step >= 1 && d > 0
    requires (k - 1) * step < d <= k * step
    ensures k == (d + step - 1) / step
  {
    assert (k - 1) * step == k * step - step;
    DivUnique(d + step - 1, k, step);
  }

  /**
   * The loop `i = 0, step, 2*step, ...` while `i < length - lookback` stops after
   * exactly `PairCount(length, lookback, step)` iterations.
   */
  lemma StartsCount(length: nat, lookback: nat, step: nat, k: nat, i: int)
    requires step >= 1 && i == k * step && i >= length - lookback
    requires k > 0 ==> i - step < length - lookback
    ensures k == PairCount(length, lookback, step)
  {
    if length > lookback {
      assert (k - 1) * step == i - step;
      CeilingCount(length - lookback, step, k);
    } else if k > 0 {
      MulMono(1, k, step);
    }
  }

  /** `x` is the `lookback` rows of `r` from `start` and `y` the row right after them. */
  predicate IsPair(r: Roll, start: int, lookback: nat, x: Roll, y: Row)
  {
    0 <= start && start + lookback < |r| && x == r[start..start + lookback] && y == r[start + lookback]
  }
}
