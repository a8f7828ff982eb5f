/** One nest in any grid: exactly when the generated code runs each source iteration once and nothing else. */
module AnyGrid {
  import opened LoopLang
  import opened LoopTree
  import opened CudaNest
  import opened GridCoverage
  import opened Launcher
  import opened GridLevels

  // ----- hits -----

  function HitsOfThread(code: Stmt, env: Env, c: Ctx, g: (seq<int>, seq<int>)): multiset<Hit> {
    var run := Exec(code, env, Ctx(c.args, g.0, g.1));
    if run.Ran? then multiset(run.hits) else multiset{}
  }

  ghost predicate RunAtMostOnce(code: Stmt, env: Env, c: Ctx, grid: (seq<int>, seq<int>), hit: Hit) {
    (forall g :: InGrid(g, grid) ==> HitsOfThread(code, env, c, g)[hit] <= 1)
    && forall g, h :: InGrid(g, grid) && InGrid(h, grid) && hit in HitsOfThread(code, env, c, g) && g != h ==>
         hit !in HitsOfThread(code, env, c, h)
  }

  ghost predicate RunBySome(code: Stmt, env: Env, c: Ctx, grid: (seq<int>, seq<int>), hit: Hit) {
    exists g :: InGrid(g, grid) && hit in HitsOfThread(code, env, c, g)
  }

  /** Over the threads of the grid, each iteration of the source nest is run exactly once and nothing else is. */
  ghost predicate CodeRunsOnce(code: Stmt, infos: seq<Info>, env: Env, c: Ctx, grid: (seq<int>, seq<int>)) {
    (forall hit :: RunAtMostOnce(code, env, c, grid, hit))
    && forall hit :: RunBySome(code, env, c, grid, hit) <==> InSource(infos, env, c, hit)
  }

  ghost predicate RunsOnce(infos: seq<Info>, env: Env, c: Ctx, grid: (seq<int>, seq<int>))
    requires ChainOk(infos, c)
  {
    CodeRunsOnce(CudaChain(infos), infos, env, c, grid)
  }

  predicate InSource(infos: seq<Info>, env: Env, c: Ctx, hit: Hit) {
    var source := Exec(SourceChain(infos), env, c);
    source.Ran? && hit in source.hits
  }

  /** The hit is that of an iteration tuple. */
  predicate TupleHit(infos: seq<Info>, hit: Hit, c: Ctx)
    requires ChainOk(infos, c)
  {
    var p := PositionsOf(infos, hit.at, c);
    |p| == |infos| && hit == Hit(0, ValuesOf(infos, p, c))
  }

  predicate ThreadHas(infos: seq<Info>, hit: Hit, g: (seq<int>, seq<int>), c: Ctx)
    requires ChainOk(infos, c) && HasRank(g, infos)
  {
    TupleHit(infos, hit, c) && RunsAt(infos, PositionsOf(infos, hit.at, c), g, c)
  }

  lemma {:induction false} ThreadHits(infos: seq<Info>, env: Env, c: Ctx, g: (seq<int>, seq<int>), hit: Hit)
    requires ChainOk(infos, c) && HasRank(g, infos)
    ensures HitsOfThread(CudaChain(infos), env, c, g)[hit] == if ThreadHas(infos, hit, g, c) then 1 else 0
  {
    var d := Ctx(c.args, g.0, g.1);
    SameHost(infos, c, d);
    ThreadMeaning(infos, env, d);
    var ts, p := ThreadTrace(infos, d), PositionsOf(infos, hit.at, d);
    forall k | 0 <= k < |ts| ensures |ts[k]| == |infos| { TraceShape(infos, ts[k], d); }
    HitCount(infos, ts, hit, d);
    SamePositions(infos, hit.at, c, d);
    if |p| == |infos| {
      AnyThread(infos, p, g, d);
      SameRuns(infos, p, g, c, d);
      SameValues(infos, p, c, d);
    }
  }

  lemma {:induction false} SourceHas(infos: seq<Info>, env: Env, c: Ctx, hit: Hit)
    requires ChainOk(infos, c)
    ensures InSource(infos, env, c, hit) <==>
            TupleHit(infos, hit, c) && PositionsOf(infos, hit.at, c) in NestTrace(infos, c)
  {
    NestMeaning(infos, env, c);
    var ns, p := NestTrace(infos, c), PositionsOf(infos, hit.at, c);
    forall k | 0 <= k < |ns| ensures |ns[k]| == |infos| { TraceShape(infos, ns[k], c); }
    HitCount(infos, ns, hit, c);
    assert hit in HitsOf(infos, ns, c) <==> hit in multiset(HitsOf(infos, ns, c));
    assert p in ns <==> p in multiset(ns);
  }

  lemma {:induction false} HitOnce(infos: seq<Info>, env: Env, c: Ctx, grid: (seq<int>, seq<int>), hit: Hit)
    requires ChainOk(infos, c) && HasRank(grid, infos)
    ensures TupleHit(infos, hit, c) ==>
              var p := PositionsOf(infos, hit.at, c);
              (OneRuns(infos, p, grid, c) <==> RunAtMostOnce(CudaChain(infos), env, c, grid, hit))
              && (SomeRuns(infos, p, grid, c) <==> RunBySome(CudaChain(infos), env, c, grid, hit))
              && (p in NestTrace(infos, c) <==> InSource(infos, env, c, hit))
    ensures !TupleHit(infos, hit, c) ==>
              RunAtMostOnce(CudaChain(infos), env, c, grid, hit) && !RunBySome(CudaChain(infos), env, c, grid, hit)
              && !InSource(infos, env, c, hit)
  {
    SourceHas(infos, env, c, hit);
    forall g | InGrid(g, grid)
      ensures HitsOfThread(CudaChain(infos), env, c, g)[hit] == if ThreadHas(infos, hit, g, c) then 1 else 0
    {
      ThreadHits(infos, env, c, g, hit);
    }
    if TupleHit(infos, hit, c) { RunnersOfHit(infos, env, c, grid, hit); }
  }

  lemma {:induction false} RunnersOfHit(infos: seq<Info>, env: Env, c: Ctx, grid: (seq<int>, seq<int>), hit: Hit)
    requires ChainOk(infos, c) && HasRank(grid, infos) && TupleHit(infos, hit, c)
    requires forall g :: InGrid(g, grid) ==>
               HitsOfThread(CudaChain(infos), env, c, g)[hit] == if ThreadHas(infos, hit, g, c) then 1 else 0
    ensures var p := PositionsOf(infos, hit.at, c);
            (OneRuns(infos, p, grid, c) <==> RunAtMostOnce(CudaChain(infos), env, c, grid, hit))
            && (SomeRuns(infos, p, grid, c) <==> RunBySome(CudaChain(infos), env, c, grid, hit))
  {
    var p := PositionsOf(infos, hit.at, c);
    forall g | InGrid(g, grid)
      ensures Runner(infos, p, g, grid, c) <==> hit in HitsOfThread(CudaChain(infos), env, c, g)
    {
      assert HitsOfThread(CudaChain(infos), env, c, g)[hit] == if ThreadHas(infos, hit, g, c) then 1 else 0;
    }
  }

  lemma {:induction false} HitsAreTuples(infos: seq<Info>, env: Env, c: Ctx, grid: (seq<int>, seq<int>))
    requires ChainOk(infos, c) && HasRank(grid, infos)
    ensures RunsOnce(infos, env, c, grid) <==> Once(infos, grid, c)
  {
    forall hit
      ensures RunAtMostOnce(CudaChain(infos), env, c, grid, hit)
              && (RunBySome(CudaChain(infos), env, c, grid, hit) <==> InSource(infos, env, c, hit))
              <==> TupleHit(infos, hit, c) ==> TupleOnce(infos, PositionsOf(infos, hit.at, c), grid, c)
    {
      HitOnce(infos, env, c, grid, hit);
    }
    if RunsOnce(infos, env, c, grid) {
      forall p | |p| == |infos| ensures TupleOnce(infos, p, grid, c) {
        PositionsInverse(infos, p, c);
        assert TupleHit(infos, Hit(0, ValuesOf(infos, p, c)), c);
      }
    }
  }

  /** A nest of any loops, tiles included, is run exactly once over a grid of its rank if and only if the grid fits. */
  lemma {:induction false} GridExactly(infos: seq<Info>, env: Env, c: Ctx, grid: (seq<int>, seq<int>))
    requires ChainOk(infos, c) && HasRank(grid, infos)
    ensures RunsOnce(infos, env, c, grid) <==> GridFits(infos, grid, c)
  {
    HitsAreTuples(infos, env, c, grid);
    if Positive(grid) { OnceExactly(infos, grid, c); } else { NoThreads(infos, grid, c); }
  }

  // ----- nests of plain loops -----

  /** No tile that uses an index. */
  predicate PlainChain(infos: seq<Info>) {
    forall k :: 0 <= k < |infos| ==> |infos[k].types| == 1 || IsRegular(infos[k].types)
  }

  lemma {:induction false} PlainFit(infos: seq<Info>, grid: (seq<int>, seq<int>), c: Ctx)
    requires ChainOk(infos, c) && PlainChain(infos) && HasRank(grid, infos)
    ensures AllFit(infos, grid, c) <==> grid == GridExtents(infos, c)
  {
    GridSizes(infos, c);
    if infos == [] {
      assert grid.0 == [] && grid.1 == [];
    } else {
      var e, rest := OwnPart(infos, grid), RestPart(infos, grid);
      CutParts(infos, grid);
      GridSizes(infos[1..], c);
      PlainFit(infos[1..], rest, c);
      PlainLevel(infos[0], e, c);
      SplitEqual(rest.0, e.0, GridExtents(infos[1..], c).0, OwnExtents(infos[0], c).0);
      SplitEqual(rest.1, e.1, GridExtents(infos[1..], c).1, OwnExtents(infos[0], c).1);
    }
  }

  lemma {:induction false} PlainLevel(info: Info, e: (seq<int>, seq<int>), c: Ctx)
    requires LoopOk(info, c) && OwnRank(e, info) && (|info.types| == 1 || IsRegular(info.types))
    ensures LevelFits(info, e, c) <==> e == OwnExtents(info, c)
  {
    if IsRegular(info.types) {
      RegularExtents(info, c);
      OwnSizes(info.types, Outer);
      OwnSizes(info.types, Inner);
      assert e.0 == [] && e.1 == [];
    } else {
      assert info.types[0] != Regular;
      OneAxis(info.types, e, e);
      if e == OwnExtents(info, c) { PlacedSame(info.types[0], FirstCoord(info.types, e), Trip(info, c)); }
    }
  }

  /** A nest of plain loops fits exactly the grid that has its own extents. */
  lemma {:induction false} PlainGridExactly(infos: seq<Info>, env: Env, c: Ctx, grid: (seq<int>, seq<int>))
    requires ChainOk(infos, c) && PlainChain(infos) && HasRank(grid, infos) && Positive(grid)
    ensures RunsOnce(infos, env, c, grid) <==> grid == GridExtents(infos, c) || SomeIdle(infos, c)
  {
    GridExactly(infos, env, c, grid);
    PlainFit(infos, grid, c);
  }

  // ----- a grid with fewer axes -----

  /** What a thread of the smaller grid is on the axes that the grid lacks: coordinate 0 of extent 1. */
  function Pad(g: (seq<int>, seq<int>), infos: seq<Info>, v: int): (r: (seq<int>, seq<int>))
    requires |g.0| <= CountAll(infos, Outer) && |g.1| <= CountAll(infos, Inner)
    ensures HasRank(r, infos)
  {
    (Filled(g.0, CountAll(infos, Outer), v), Filled(g.1, CountAll(infos, Inner), v))
  }

  function Filled(g: seq<int>, n: nat, v: int): (r: seq<int>)
    requires |g| <= n
    ensures |r| == n && forall k :: 0 <= k < n ==> r[k] == if k < |g| then g[k] else v
  {
    g + seq(n - |g|, k requires 0 <= k < n - |g| => v)
  }

  predicate NoMoreAxes(grid: (seq<int>, seq<int>), infos: seq<Info>) {
    |grid.0| <= CountAll(infos, Outer) && |grid.1| <= CountAll(infos, Inner)
  }

  lemma {:induction false} PadHits(infos: seq<Info>, env: Env, c: Ctx, g: (seq<int>, seq<int>))
    requires ChainOk(infos, c) && NoMoreAxes(g, infos)
    ensures HitsOfThread(CudaChain(infos), env, c, g) == HitsOfThread(CudaChain(infos), env, c, Pad(g, infos, 0))
  {
    var h := Pad(g, infos, 0);
    var d, d' := Ctx(c.args, g.0, g.1), Ctx(c.args, h.0, h.1);
    SameHost(infos, c, d);
    SameHost(infos, c, d');
    AgreeOnAxes(infos, d, d');
    ThreadMeaning(infos, env, d);
    ThreadMeaning(infos, env, d');
    SameHits(infos, ThreadTrace(infos, d), d, d');
  }

  /** Threads of the smaller grid and of the padded one correspond. */
  lemma {:induction false} PadInGrid(infos: seq<Info>, grid: (seq<int>, seq<int>), g: (seq<int>, seq<int>))
    requires NoMoreAxes(grid, infos) && NoMoreAxes(g, infos) && |g.0| == |grid.0| && |g.1| == |grid.1|
    ensures InGrid(g, grid) <==> InGrid(Pad(g, infos, 0), Pad(grid, infos, 1))
  {
    FilledBelow(g.0, grid.0, CountAll(infos, Outer));
    FilledBelow(g.1, grid.1, CountAll(infos, Inner));
  }

  lemma {:induction false} FilledBelow(g: seq<int>, grid: seq<int>, n: nat)
    requires |g| == |grid| <= n
    ensures GridCoverage.Below(g, grid) <==> GridCoverage.Below(Filled(g, n, 0), Filled(grid, n, 1))
  {
    var a, b := Filled(g, n, 0), Filled(grid, n, 1);
    forall k | 0 <= k < n ensures 0 <= a[k] < b[k] <==> (k < |g| ==> 0 <= g[k] < grid[k]) {}
    if GridCoverage.Below(a, b) { forall k | 0 <= k < |g| ensures 0 <= g[k] < grid[k] { assert 0 <= a[k] < b[k]; } }
  }

  lemma {:induction false} Unpad(infos: seq<Info>, grid: (seq<int>, seq<int>), h: (seq<int>, seq<int>))
    returns (g: (seq<int>, seq<int>))
    requires NoMoreAxes(grid, infos) && InGrid(h, Pad(grid, infos, 1))
    ensures NoMoreAxes(g, infos) && InGrid(g, grid) && Pad(g, infos, 0) == h
  {
    g := (h.0[..|grid.0|], h.1[..|grid.1|]);
    var p, e := Pad(g, infos, 0), Pad(grid, infos, 1);
    forall k | 0 <= k < |h.0| ensures p.0[k] == h.0[k] { assert 0 <= h.0[k] < e.0[k]; }
    forall k | 0 <= k < |h.1| ensures p.1[k] == h.1[k] { assert 0 <= h.1[k] < e.1[k]; }
    assert p.0 == h.0 && p.1 == h.1;
    PadInGrid(infos, grid, g);
  }

  lemma {:induction false} PadOne(infos: seq<Info>, g: (seq<int>, seq<int>), h: (seq<int>, seq<int>))
    requires NoMoreAxes(g, infos) && NoMoreAxes(h, infos) && |g.0| == |h.0| && |g.1| == |h.1|
    requires Pad(g, infos, 0) == Pad(h, infos, 0)
    ensures g == h
  {
    var p, q := Pad(g, infos, 0), Pad(h, infos, 0);
    forall k | 0 <= k < |g.0| ensures g.0[k] == h.0[k] { assert p.0[k] == q.0[k]; }
    forall k | 0 <= k < |g.1| ensures g.1[k] == h.1[k] { assert p.1[k] == q.1[k]; }
    assert g.0 == h.0 && g.1 == h.1;
  }

  /** Axes that the grid lacks count as axes of extent 1. */
  lemma {:induction false} PaddedGrid(infos: seq<Info>, env: Env, c: Ctx, grid: (seq<int>, seq<int>))
    requires ChainOk(infos, c) && NoMoreAxes(grid, infos)
    ensures RunsOnce(infos, env, c, grid) <==> RunsOnce(infos, env, c, Pad(grid, infos, 1))
  {
    forall hit
      ensures RunAtMostOnce(CudaChain(infos), env, c, grid, hit)
              <==> RunAtMostOnce(CudaChain(infos), env, c, Pad(grid, infos, 1), hit)
      ensures RunBySome(CudaChain(infos), env, c, grid, hit)
              <==> RunBySome(CudaChain(infos), env, c, Pad(grid, infos, 1), hit)
    {
      PaddedHit(infos, env, c, grid, hit);
    }
  }

  /** The thread is one of the padded grid on padded coordinates, and runs the same there. */
  predicate SameThread(infos: seq<Info>, env: Env, c: Ctx, g: (seq<int>, seq<int>), grid: (seq<int>, seq<int>))
    requires ChainOk(infos, c) && NoMoreAxes(grid, infos)
  {
    NoMoreAxes(g, infos) && InGrid(Pad(g, infos, 0), Pad(grid, infos, 1))
    && HitsOfThread(CudaChain(infos), env, c, g) == HitsOfThread(CudaChain(infos), env, c, Pad(g, infos, 0))
  }

  lemma {:induction false} PaddedHit(infos: seq<Info>, env: Env, c: Ctx, grid: (seq<int>, seq<int>), hit: Hit)
    requires ChainOk(infos, c) && NoMoreAxes(grid, infos)
    ensures RunAtMostOnce(CudaChain(infos), env, c, grid, hit)
            <==> RunAtMostOnce(CudaChain(infos), env, c, Pad(grid, infos, 1), hit)
    ensures RunBySome(CudaChain(infos), env, c, grid, hit)
            <==> RunBySome(CudaChain(infos), env, c, Pad(grid, infos, 1), hit)
  {
    forall g | InGrid(g, grid) ensures SameThread(infos, env, c, g, grid) {
      PadInGrid(infos, grid, g);
      PadHits(infos, env, c, g);
    }
    PaddedBySome(infos, env, c, grid, hit);
    PaddedAtMost(infos, env, c, grid, hit);
  }

  lemma {:induction false} PaddedBySome(infos: seq<Info>, env: Env, c: Ctx, grid: (seq<int>, seq<int>), hit: Hit)
    requires ChainOk(infos, c) && NoMoreAxes(grid, infos)
    requires forall g :: InGrid(g, grid) ==> SameThread(infos, env, c, g, grid)
    ensures RunBySome(CudaChain(infos), env, c, grid, hit)
            <==> RunBySome(CudaChain(infos), env, c, Pad(grid, infos, 1), hit)
  {
    var wide := Pad(grid, infos, 1);
    if RunBySome(CudaChain(infos), env, c, grid, hit) {
      var g :| InGrid(g, grid) && hit in HitsOfThread(CudaChain(infos), env, c, g);
      assert SameThread(infos, env, c, g, grid);
    }
    if RunBySome(CudaChain(infos), env, c, wide, hit) {
      var h :| InGrid(h, wide) && hit in HitsOfThread(CudaChain(infos), env, c, h);
      var g := Unpad(infos, grid, h);
      assert SameThread(infos, env, c, g, grid);
    }
  }

  lemma {:induction false} PaddedAtMost(infos: seq<Info>, env: Env, c: Ctx, grid: (seq<int>, seq<int>), hit: Hit)
    requires ChainOk(infos, c) && NoMoreAxes(grid, infos)
    requires forall g :: InGrid(g, grid) ==> SameThread(infos, env, c, g, grid)
    ensures RunAtMostOnce(CudaChain(infos), env, c, grid, hit)
            <==> RunAtMostOnce(CudaChain(infos), env, c, Pad(grid, infos, 1), hit)
  {
    if RunAtMostOnce(CudaChain(infos), env, c, grid, hit) { WideAtMost(infos, env, c, grid, hit); }
    if RunAtMostOnce(CudaChain(infos), env, c, Pad(grid, infos, 1), hit) { NarrowAtMost(infos, env, c, grid, hit); }
  }

  lemma {:induction false} WideAtMost(infos: seq<Info>, env: Env, c: Ctx, grid: (seq<int>, seq<int>), hit: Hit)
    requires ChainOk(infos, c) && NoMoreAxes(grid, infos) && RunAtMostOnce(CudaChain(infos), env, c, grid, hit)
    requires forall g :: InGrid(g, grid) ==> SameThread(infos, env, c, g, grid)
    ensures RunAtMostOnce(CudaChain(infos), env, c, Pad(grid, infos, 1), hit)
  {
    var wide := Pad(grid, infos, 1);
    forall h | InGrid(h, wide) ensures HitsOfThread(CudaChain(infos), env, c, h)[hit] <= 1 {
      var g := Unpad(infos, grid, h);
      assert SameThread(infos, env, c, g, grid);
    }
    forall h, k | InGrid(h, wide) && InGrid(k, wide) && hit in HitsOfThread(CudaChain(infos), env, c, h) && h != k
      ensures hit !in HitsOfThread(CudaChain(infos), env, c, k)
    {
      var g := Unpad(infos, grid, h);
      var f := Unpad(infos, grid, k);
      assert SameThread(infos, env, c, g, grid) && SameThread(infos, env, c, f, grid);
    }
  }

  lemma {:induction false} NarrowAtMost(infos: seq<Info>, env: Env, c: Ctx, grid: (seq<int>, seq<int>), hit: Hit)
    requires ChainOk(infos, c) && NoMoreAxes(grid, infos)
    requires RunAtMostOnce(CudaChain(infos), env, c, Pad(grid, infos, 1), hit)
    requires forall g :: InGrid(g, grid) ==> SameThread(infos, env, c, g, grid)
    ensures RunAtMostOnce(CudaChain(infos), env, c, grid, hit)
  {
    forall g | InGrid(g, grid) ensures HitsOfThread(CudaChain(infos), env, c, g)[hit] <= 1 {
      assert SameThread(infos, env, c, g, grid);
    }
    forall g, f | InGrid(g, grid) && InGrid(f, grid) && hit in HitsOfThread(CudaChain(infos), env, c, g) && g != f
      ensures hit !in HitsOfThread(CudaChain(infos), env, c, f)
    {
      assert SameThread(infos, env, c, g, grid) && SameThread(infos, env, c, f, grid);
      if Pad(g, infos, 0) == Pad(f, infos, 0) { PadOne(infos, g, f); }
    }
  }
}
