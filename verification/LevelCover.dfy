/** Numbers: which blocks and threads of a tile meet each of n iterations exactly once, whatever the grid. */
module LevelCover {
  import opened LoopHeader
  import opened GridCoverage

  /** Thread j of block i runs iteration q. */
  predicate PairHits(n: int, t: int, check: bool, i: int, j: int, q: int) {
    q == t * i + j && (check ==> q < n)
  }

  predicate PairRuns(n: int, t: int, check: bool, b: int, s: int, i: int, j: int, q: int) {
    0 <= i < b && 0 <= j < s && PairHits(n, t, check, i, j, q)
  }

  /** b blocks of s threads, T apart: one block covers by its threads alone, several only with T threads each. */
  predicate PairFits(n: int, t: int, check: bool, b: int, s: int) {
    if check then if b == 1 || n <= t then n <= s else s == t && n <= t * b
    else if b == 1 then n == s else s == t && n == t * b
  }

  ghost predicate PairOnce(n: int, t: int, check: bool, b: int, s: int, q: int) {
    && (forall i, j, k, l :: PairRuns(n, t, check, b, s, i, j, q) && PairRuns(n, t, check, b, s, k, l, q) ==>
          i == k && j == l)
    && (PairSome(n, t, check, b, s, q) <==> 0 <= q < n)
  }

  ghost predicate PairSome(n: int, t: int, check: bool, b: int, s: int, q: int) {
    exists i, j :: PairRuns(n, t, check, b, s, i, j, q)
  }

  lemma {:induction false} FurtherBlock(t: int, i: int, k: int)
    requires t > 0 && i >= k
    ensures t * i >= t * k
  {
    MulMono(t, k, i);
  }

  lemma {:induction false} PairCovers(n: int, t: int, check: bool, b: int, s: int, q: int)
    requires n >= 0 && t > 0 && b > 0 && s > 0 && PairFits(n, t, check, b, s)
    ensures PairOnce(n, t, check, b, s, q)
  {
    if s == t && (if check then n <= t * b else n == t * b) {
      WholeBlocksCover(n, t, check, b, q);
    } else {
      FirstBlockCovers(n, t, check, b, s, q);
    }
  }

  lemma {:induction false} WholeBlocksCover(n: int, t: int, check: bool, b: int, q: int)
    requires n >= 0 && t > 0 && b > 0 && if check then n <= t * b else n == t * b
    ensures PairOnce(n, t, check, b, t, q)
  {
    forall i, j | PairRuns(n, t, check, b, t, i, j, q) ensures i == q / t && j == q % t && 0 <= q < n {
      ThreadInBlock(t, i, j, q);
      FurtherBlock(t, i, 0);
      FurtherBlock(t, b - 1, i);
      assert t * (b - 1) == t * b - t;
    }
    if 0 <= q < n {
      var i, j := q / t, q % t;
      assert q == t * i + j;
      if i >= b { FurtherBlock(t, i, b); }
      assert PairRuns(n, t, check, b, t, i, j, q);
    }
  }

  lemma {:induction false} FirstBlockCovers(n: int, t: int, check: bool, b: int, s: int, q: int)
    requires n >= 0 && t > 0 && b > 0 && s > 0
    requires if check then (b == 1 || n <= t) && n <= s else b == 1 && n == s
    ensures PairOnce(n, t, check, b, s, q)
  {
    forall i, j | PairRuns(n, t, check, b, s, i, j, q) ensures i == 0 && j == q && 0 <= q < n {
      if i >= 1 { FurtherBlock(t, i, 1); }
      assert t * 0 == 0;
    }
    if 0 <= q < n { assert PairRuns(n, t, check, b, s, 0, q, q); }
  }

  /** Otherwise some number is left out, met twice, or met though it is none of the iterations. */
  lemma {:induction false} PairMisses(n: int, t: int, check: bool, b: int, s: int) returns (q: int)
    requires n >= 0 && t > 0 && b > 0 && s > 0 && !PairFits(n, t, check, b, s)
    ensures !PairOnce(n, t, check, b, s, q)
  {
    assert t * 0 == 0 && t * 1 == t;
    if b == 1 || (check && n <= t) {
      q := if n > s then s else n;
      if n > s { NothingAt(n, t, check, b, s, s); } else { assert PairRuns(n, t, check, b, s, 0, n, n); }
    } else if s > t {
      q := t;
      assert PairRuns(n, t, check, b, s, 0, t, t) && PairRuns(n, t, check, b, s, 1, 0, t);
    } else if s < t {
      q := if n > t then s else t;
      if n > t { NothingAt(n, t, check, b, s, s); } else { assert PairRuns(n, t, check, b, s, 1, 0, t); }
    } else {
      q := PartialCover(n, t, check, b);
    }
  }

  /** The first number behind the threads of the first block is met by no thread of it, nor by a later block. */
  lemma {:induction false} NothingAt(n: int, t: int, check: bool, b: int, s: int, q: int)
    requires t > 0 && q == s && s >= 0 && (b == 1 || s < t)
    ensures !PairSome(n, t, check, b, s, q)
  {
    forall i, j ensures !PairRuns(n, t, check, b, s, i, j, q) {
      if i >= 1 { FurtherBlock(t, i, 1); }
      assert t * 0 == 0;
    }
  }

  lemma {:induction false} PartialCover(n: int, t: int, check: bool, b: int) returns (q: int)
    requires n >= 0 && t > 0 && b > 0 && if check then n > t * b else n != t * b
    ensures !PairOnce(n, t, check, b, t, q)
  {
    if n > t * b {
      q := t * b;
      FurtherBlock(t, b, 0);
      forall i, j ensures !PairRuns(n, t, check, b, t, i, j, q) {
        if i < b { FurtherBlock(t, b - 1, i); }
        assert t * (b - 1) == t * b - t;
      }
    } else {
      q := n;
      var i, j := n / t, n % t;
      assert n == t * i + j;
      if i >= b { FurtherBlock(t, i, b); }
      assert PairRuns(n, t, check, b, t, i, j, q);
    }
  }

  /** Block i runs iteration q of a pass of m. */
  predicate BlockHits(n: int, t: int, m: int, check: bool, i: int, q: int) {
    t * i <= q < t * i + m && (check ==> q < n)
  }

  predicate BlockRuns(n: int, t: int, m: int, check: bool, b: int, i: int, q: int) {
    0 <= i < b && BlockHits(n, t, m, check, i, q)
  }

  /** b blocks that run m iterations each, T apart. */
  predicate BlocksFit(n: int, t: int, m: int, check: bool, b: int) {
    if check then n <= m || (m == t && n <= t * b) else if b == 1 then n == m else m == t && n == t * b
  }

  ghost predicate BlocksOnce(n: int, t: int, m: int, check: bool, b: int, q: int) {
    && (forall i, k :: BlockRuns(n, t, m, check, b, i, q) && BlockRuns(n, t, m, check, b, k, q) ==> i == k)
    && (BlockSome(n, t, m, check, b, q) <==> 0 <= q < n)
  }

  ghost predicate BlockSome(n: int, t: int, m: int, check: bool, b: int, q: int) {
    exists i :: BlockRuns(n, t, m, check, b, i, q)
  }

  lemma {:induction false} BlockAt(n: int, t: int, m: int, check: bool, i: int, q: int)
    requires t > 0 && m <= t && i >= 0 && BlockHits(n, t, m, check, i, q)
    ensures i == q / t && q >= 0
  {
    ThreadInBlock(t, i, q - t * i, q);
    FurtherBlock(t, i, 0);
  }

  lemma {:induction false} BlockWithin(n: int, t: int, m: int, check: bool, b: int, i: int, q: int)
    requires n >= 0 && 1 <= m <= t && b > 0 && BlocksFit(n, t, m, check, b) && BlockRuns(n, t, m, check, b, i, q)
    ensures i == q / t && 0 <= q < n
  {
    BlockAt(n, t, m, check, i, q);
    if b == 1 {
      assert t * 0 == 0;
    } else {
      FurtherBlock(t, b - 1, i);
      assert t * (b - 1) == t * b - t;
    }
  }

  lemma {:induction false} SomeBlock(n: int, t: int, m: int, check: bool, b: int, q: int)
    requires 1 <= m <= t && b > 0 && BlocksFit(n, t, m, check, b) && 0 <= q < n
    ensures BlockSome(n, t, m, check, b, q)
  {
    if n <= m {
      assert t * 0 == 0;
      assert BlockRuns(n, t, m, check, b, 0, q);
    } else {
      var i := q / t;
      assert q == t * i + q % t;
      if i >= b { FurtherBlock(t, i, b); }
      assert BlockRuns(n, t, m, check, b, i, q);
    }
  }

  lemma {:induction false} BlocksCoverAll(n: int, t: int, m: int, check: bool, b: int, q: int)
    requires n >= 0 && 1 <= m <= t && b > 0 && BlocksFit(n, t, m, check, b)
    ensures BlocksOnce(n, t, m, check, b, q)
  {
    forall i | BlockRuns(n, t, m, check, b, i, q) ensures i == q / t && 0 <= q < n {
      BlockWithin(n, t, m, check, b, i, q);
    }
    if 0 <= q < n { SomeBlock(n, t, m, check, b, q); }
  }

  lemma {:induction false} BlocksMiss(n: int, t: int, m: int, check: bool, b: int) returns (q: int)
    requires n >= 0 && 1 <= m <= t && b > 0 && !BlocksFit(n, t, m, check, b)
    ensures !BlocksOnce(n, t, m, check, b, q)
  {
    assert t * 0 == 0 && t * 1 == t;
    if b == 1 && !check && n < m {
      q := n;
      assert BlockRuns(n, t, m, check, b, 0, q);
    } else if n > m && (b == 1 || m < t) && (b == 1 || check || n > t) && (m < t || n > t * b) {
      q := m;
      forall i ensures !BlockRuns(n, t, m, check, b, i, q) {
        if i >= 1 { FurtherBlock(t, i, 1); }
      }
    } else if m < t {
      q := t;
      assert BlockRuns(n, t, m, check, b, 1, q);
    } else {
      q := PartialBlocks(n, t, check, b);
    }
  }

  lemma {:induction false} PartialBlocks(n: int, t: int, check: bool, b: int) returns (q: int)
    requires n >= 0 && t >= 1 && b > 0 && if check then n > t * b else n != t * b
    ensures !BlocksOnce(n, t, t, check, b, q)
  {
    if n > t * b {
      q := t * b;
      FurtherBlock(t, b, 0);
      forall i ensures !BlockRuns(n, t, t, check, b, i, q) {
        if i < b { FurtherBlock(t, b - 1, i); }
        assert t * (b - 1) == t * b - t;
      }
    } else {
      q := n;
      var i := n / t;
      assert n == t * i + n % t;
      if i >= b { FurtherBlock(t, i, b); }
      assert BlockRuns(n, t, t, check, b, i, q);
    }
  }
}
