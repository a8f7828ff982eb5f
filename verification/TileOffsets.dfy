/** Arithmetic of tiled loops: a range cut into blocks of `stride`, each walked over a width. */
module TileOffsets {
  import opened LoopLang
  import opened LoopHeader

  function Min(a: int, b: int): int { if a < b then a else b }

  /** Offsets visited by the blocks from `b` on; a checked block drops offsets past the range. */
  function Blocks(b: int, len: int, stride: int, width: int, step: int, check: bool): seq<int>
    requires stride > 0 && step > 0
    decreases len - b
  {
    if b < len
    then Strided(b, if check then Min(b + width, len) else b + width, step)
      + Blocks(b + stride, len, stride, width, step, check)
    else []
  }

  lemma {:induction false} TripsStep(len: int, step: int)
    requires step > 0 && len > 0
    ensures Trips(len, step) == 1 + Trips(len - step, step)
  {
    if len - step > 0 {
      TripsBounds(len - step, step);
      TripsUnique(len, step, 1 + Trips(len - step, step));
    } else {
      TripsUnique(len, step, 1);
    }
  }

  /** A pass of width `width` ends where the walk goes on after its full number of steps. */
  lemma {:induction false} PassThenRest(b: int, len: int, width: int, step: int)
    requires step > 0
    ensures Strided(b, Min(b + width, len), step) + Strided(b + step * Trips(width, step), len, step)
            == Strided(b, len, step)
    decreases width
  {
    StepsOf(width, step);
    if width > 0 && b < len {
      PassThenRest(b + step, len, width - step, step);
      ConcatStep(b, Strided(b + step, Min(b + width, len), step), Strided(b + step * Trips(width, step), len, step));
    }
  }

  /** The distance that the steps of a pass cover, one step at a time. */
  lemma {:induction false} StepsOf(width: int, step: int)
    requires step > 0
    ensures step * Trips(width, step) >= 0 && (width <= 0 ==> step * Trips(width, step) == 0)
    ensures width > 0 ==> step * Trips(width, step) == step + step * Trips(width - step, step)
  {
    if width > 0 { TripsStep(width, step); }
  }

  lemma {:induction false} ConcatStep(b: int, s: seq<int>, t: seq<int>)
    ensures ([b] + s) + t == [b] + (s + t)
  {
  }

  lemma {:induction false} MatchedBlocks(b: int, len: int, stride: int, width: int, step: int)
    requires stride > 0 && step > 0 && stride == step * Trips(width, step)
    ensures Blocks(b, len, stride, width, step, true) == Strided(b, len, step)
    decreases len - b
  {
    if b < len {
      PassThenRest(b, len, width, step);
      MatchedBlocks(b + stride, len, stride, width, step);
    }
  }

  /** With the check on, the blocks give the loop's own offsets in order exactly when each block
    * starts where the last one stops, or the first block is the only one that matters. */
  lemma {:induction false} CheckedBlocksExact(len: int, stride: int, width: int, step: int)
    requires stride > 0 && step > 0 && width > 0
    ensures Blocks(0, len, stride, width, step, true) == Strided(0, len, step)
            <==> (stride == step * Trips(width, step) || len <= Min(stride, step * Trips(width, step)))
  {
    var m := step * Trips(width, step);
    TripsBounds(width, step);
    PassThenRest(0, len, width, step);
    if stride == m {
      MatchedBlocks(0, len, stride, width, step);
    } else if len > 0 {
      var a := Strided(0, Min(width, len), step);
      var mine, theirs := Blocks(stride, len, stride, width, step, true), Strided(m, len, step);
      assert Blocks(0, len, stride, width, step, true) == a + mine;
      assert Strided(0, len, step) == a + theirs;
      if stride < len { assert Strided(stride, Min(stride + width, len), step)[0] == stride; assert mine[0] == stride; }
      if a + mine == a + theirs { assert mine == (a + mine)[|a|..] == (a + theirs)[|a|..] == theirs; }
    }
  }

  lemma {:induction false} StridedLength(lo: int, hi: int, step: int)
    requires step > 0
    ensures |Strided(lo, hi, step)| == Trips(hi - lo, step)
    decreases hi - lo
  {
    if lo < hi {
      StridedLength(lo + step, hi, step);
      TripsStep(hi - lo, step);
    }
  }

  lemma {:induction false} StridedAt(lo: int, hi: int, step: int, k: nat)
    requires step > 0 && k < |Strided(lo, hi, step)|
    ensures Strided(lo, hi, step)[k] == lo + k * step
    decreases hi - lo
  {
    if k > 0 { StridedAt(lo + step, hi, step, k - 1); }
  }

  lemma {:induction false} OneMore(a: int, k: nat)
    requires a > 0
    ensures a * (1 + k) == a + a * k && a * k >= 0
  {
  }

  lemma {:induction false} UncheckedBlocks(b: int, len: int, stride: int, width: int, step: int)
    requires stride > 0 && step > 0 && width > 0 && stride == step * Trips(width, step)
    ensures Blocks(b, len, stride, width, step, false) == Strided(b, b + stride * Trips(len - b, stride), step)
    decreases len - b
  {
    if b < len {
      UncheckedBlocks(b + stride, len, stride, width, step);
      TripsStep(len - b, stride);
      TripsBounds(width, step);
      var k := Trips(len - (b + stride), stride);
      OneMore(stride, k);
      PassThenRest(b, b + stride * (1 + k), width, step);
    }
  }

  lemma {:induction false} WholeBlocks(len: int, step: int, m: nat)
    requires step > 0 && m > 0 && step * m > 0
    ensures Trips(len, step) % m == 0 <==> Trips(len, step) == m * Trips(len, step * m)
  {
    var n, k := Trips(len, step), Trips(len, step * m);
    ModOfProduct(m, k);
    if n % m == 0 && len > 0 {
      var q := n / m;
      assert n == m * q;
      TripsBounds(len, step);
      assert step * (m * q) == (step * m) * q;
      assert step * (n - 1) == step * n - step;
      assert (step * m) * (q - 1) == (step * m) * q - step * m;
      MulMono(step, 1, m);
      TripsUnique(len, step * m, q);
    }
  }

  lemma {:induction false} SameCountSameOffsets(lo: int, a: int, b: int, step: int)
    requires step > 0
    ensures Strided(lo, a, step) == Strided(lo, b, step) <==> Trips(a - lo, step) == Trips(b - lo, step)
  {
    StridedLength(lo, a, step);
    StridedLength(lo, b, step);
    if Trips(a - lo, step) == Trips(b - lo, step) {
      forall i: nat | i < Trips(a - lo, step)
        ensures Strided(lo, a, step)[i] == Strided(lo, b, step)[i]
      {
        StridedAt(lo, a, step, i);
        StridedAt(lo, b, step, i);
      }
    }
  }

  /** With the check off, matched blocks give the loop's own offsets exactly when the number of
    * iterations is a multiple of the iterations of a full block. */
  lemma {:induction false} WholeBlocksExact(len: int, stride: int, width: int, step: int)
    requires stride > 0 && step > 0 && width > 0 && stride == step * Trips(width, step)
    ensures Blocks(0, len, stride, width, step, false) == Strided(0, len, step)
            <==> Trips(len, step) % Trips(width, step) == 0
  {
    var m, k := Trips(width, step), Trips(len, stride);
    assert m > 0 by { TripsBounds(width, step); }
    UncheckedBlocks(0, len, stride, width, step);
    SameCountSameOffsets(0, stride * k, len, step);
    assert Trips(stride * k, step) == m * k by {
      MulAssoc(step, m, k);
      BlockTrips(m, k, step);
    }
    WholeBlocks(len, step, m);
  }

  /** With the check off: nothing to run, or one block that stops where the range does, or whole blocks that start
    * where the last one stops. */
  predicate UncheckedCover(len: int, stride: int, width: int, step: int)
    requires stride > 0 && step > 0 && width > 0
  {
    var m, n := Trips(width, step), Trips(len, step);
    TripsBounds(width, step);
    len <= 0 || if len <= stride then m == n else stride == step * m && n % m == 0
  }

  /** With the check off the blocks give the loop's own offsets exactly then. */
  lemma {:induction false} UncheckedBlocksExact(len: int, stride: int, width: int, step: int)
    requires stride > 0 && step > 0 && width > 0
    ensures Blocks(0, len, stride, width, step, false) == Strided(0, len, step)
            <==> UncheckedCover(len, stride, width, step)
  {
    var m := Trips(width, step);
    TripsBounds(width, step);
    if 0 < len <= stride {
      assert Blocks(stride, len, stride, width, step, false) == [];
      assert Blocks(0, len, stride, width, step, false) == Strided(0, width, step);
      SameCountSameOffsets(0, width, len, step);
    } else if len > stride {
      if Blocks(0, len, stride, width, step, false) == Strided(0, len, step) {
        SecondBlockStart(len, stride, width, step);
      }
      if stride == step * m { WholeBlocksExact(len, stride, width, step); }
    }
  }

  /** The second block must start where the first one stops. */
  lemma {:induction false} SecondBlockStart(len: int, stride: int, width: int, step: int)
    requires 0 < stride < len && step > 0 && width > 0
    requires Blocks(0, len, stride, width, step, false) == Strided(0, len, step)
    ensures stride == step * Trips(width, step)
  {
    var m := Trips(width, step);
    var first, rest := Strided(0, width, step), Blocks(stride, len, stride, width, step, false);
    StridedLength(0, width, step);
    assert Strided(stride, stride + width, step)[0] == stride;
    assert rest[0] == stride;
    assert (first + rest)[m] == stride;
    StridedAt(0, len, step, m);
  }

  /** The blocks cover the range, with or without the check. */
  predicate BlocksCover(len: int, stride: int, width: int, step: int, check: bool)
    requires stride > 0 && step > 0 && width > 0
  {
    var pass := step * Trips(width, step);
    if check then stride == pass || len <= Min(stride, pass) else UncheckedCover(len, stride, width, step)
  }

  lemma {:induction false} BlocksExact(len: int, stride: int, width: int, step: int, check: bool)
    requires stride > 0 && step > 0 && width > 0
    ensures Blocks(0, len, stride, width, step, check) == Strided(0, len, step)
            <==> BlocksCover(len, stride, width, step, check)
  {
    if check { CheckedBlocksExact(len, stride, width, step); } else { UncheckedBlocksExact(len, stride, width, step); }
  }

  lemma {:induction false} MulAssoc(a: int, b: int, c: int)
    ensures (a * b) * c == a * (b * c)
  {
  }

  lemma {:induction false} BlockTrips(m: nat, k: nat, step: int)
    requires step > 0
    ensures Trips(step * (m * k), step) == m * k
  {
    if step * (m * k) > 0 {
      TripsUnique(step * (m * k), step, m * k);
      assert step * (m * k - 1) == step * (m * k) - step;
    } else if m * k > 0 {
      MulMono(step, 1, m * k);
    }
  }

  lemma {:induction false} ModOfProduct(m: nat, k: nat)
    requires m > 0
    ensures (m * k) % m == 0
  {
    var q, r := (m * k) / m, (m * k) % m;
    assert m * k == m * q + r;
    assert r == m * (k - q);
    if k - q >= 1 { MulMono(m, 1, k - q); } else if k - q <= -1 { MulMono(m, k - q, -1); }
  }
}
