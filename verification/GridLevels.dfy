/** One nest in any grid: which threads meet each of its iterations once, loop by loop. */
module GridLevels {
  import opened LoopLang
  import opened LoopTree
  import opened KernelUtils
  import opened CudaNest
  import opened GridCoverage
  import opened LevelCover

  // ----- a grid cut into the axes of the outermost loop and the rest -----

  predicate HasRank(g: (seq<int>, seq<int>), infos: seq<Info>) {
    |g.0| == CountAll(infos, Outer) && |g.1| == CountAll(infos, Inner)
  }

  function OwnPart(infos: seq<Info>, g: (seq<int>, seq<int>)): (seq<int>, seq<int>)
    requires infos != [] && HasRank(g, infos)
  {
    (g.0[CountAll(infos[1..], Outer)..], g.1[CountAll(infos[1..], Inner)..])
  }

  function RestPart(infos: seq<Info>, g: (seq<int>, seq<int>)): (seq<int>, seq<int>)
    requires infos != [] && HasRank(g, infos)
  {
    (g.0[..CountAll(infos[1..], Outer)], g.1[..CountAll(infos[1..], Inner)])
  }

  /** Coordinates for the axes of one loop. */
  predicate OwnRank(own: (seq<int>, seq<int>), info: Info) {
    |own.0| == Count(info.types, Outer) && |own.1| == Count(info.types, Inner)
  }

  lemma {:induction false} CutParts(infos: seq<Info>, g: (seq<int>, seq<int>))
    requires infos != [] && HasRank(g, infos)
    ensures HasRank(RestPart(infos, g), infos[1..]) && OwnRank(OwnPart(infos, g), infos[0])
    ensures Both(RestPart(infos, g), OwnPart(infos, g)) == g
  {
    var m, n := CountAll(infos[1..], Outer), CountAll(infos[1..], Inner);
    assert g.0[..m] + g.0[m..] == g.0 && g.1[..n] + g.1[n..] == g.1;
  }

  lemma {:induction false} JoinParts(infos: seq<Info>, own: (seq<int>, seq<int>), rest: (seq<int>, seq<int>))
    requires infos != [] && OwnRank(own, infos[0]) && HasRank(rest, infos[1..])
    ensures HasRank(Both(rest, own), infos)
    ensures OwnPart(infos, Both(rest, own)) == own && RestPart(infos, Both(rest, own)) == rest
  {
  }

  lemma {:induction false} CutInGrid(infos: seq<Info>, g: (seq<int>, seq<int>), grid: (seq<int>, seq<int>))
    requires infos != [] && HasRank(g, infos) && HasRank(grid, infos)
    ensures InGrid(g, grid) <==>
            InGrid(RestPart(infos, g), RestPart(infos, grid)) && InGrid(OwnPart(infos, g), OwnPart(infos, grid))
  {
    CutParts(infos, g);
    CutParts(infos, grid);
    JoinGrids(RestPart(infos, g), RestPart(infos, grid), OwnPart(infos, g), OwnPart(infos, grid));
  }

  lemma {:induction false} JoinGrids(a: (seq<int>, seq<int>), ea: (seq<int>, seq<int>), b: (seq<int>, seq<int>),
                                     eb: (seq<int>, seq<int>))
    requires |a.0| == |ea.0| && |a.1| == |ea.1|
    ensures InGrid(Both(a, b), Both(ea, eb)) <==> InGrid(a, ea) && InGrid(b, eb)
  {
    JoinBelow(a.0, ea.0, b.0, eb.0);
    JoinBelow(a.1, ea.1, b.1, eb.1);
  }

  lemma {:induction false} JoinBelow(a: seq<int>, ea: seq<int>, b: seq<int>, eb: seq<int>)
    requires |a| == |ea|
    ensures GridCoverage.Below(a + b, ea + eb) <==> GridCoverage.Below(a, ea) && GridCoverage.Below(b, eb)
  {
    if GridCoverage.Below(a + b, ea + eb) {
      BelowSplit(a + b, ea, eb);
      assert (a + b)[..|ea|] == a && (a + b)[|ea|..] == b;
    }
  }

  // ----- what one loop runs at given coordinates -----

  /** The coordinate on the axis of the first type: the higher one if both types have one of a kind. */
  function FirstCoord(types: seq<LoopType>, own: (seq<int>, seq<int>)): int
    requires TypesOk(types) && types[0] != Regular
    requires |own.0| == Count(types, Outer) && |own.1| == Count(types, Inner)
  {
    OwnSizes(types, types[0]);
    if types[0] == Outer then own.0[|own.0| - 1] else own.1[|own.1| - 1]
  }

  function SecondCoord(types: seq<LoopType>, own: (seq<int>, seq<int>)): int
    requires TypesOk(types) && |types| == 2 && types[1] != Regular
    requires |own.0| == Count(types, Outer) && |own.1| == Count(types, Inner)
  {
    OwnSizes(types, types[1]);
    if types[1] == Outer then own.0[0] else own.1[0]
  }

  /** The iteration runs at these coordinates. */
  predicate LevelRuns(info: Info, own: (seq<int>, seq<int>), q: int, c: Ctx)
    requires LoopOk(info, c) && OwnRank(own, info)
  {
    var n, t := Trip(info, c), TileSize(info, c);
    if IsRegular(info.types) then 0 <= q < n
    else
      var i := FirstCoord(info.types, own);
      if |info.types| == 1 then q == i
      else if info.types[1] == Regular then t * i <= q < t * i + PassCount(info, c) && (info.check ==> q < n)
      else q == t * i + SecondCoord(info.types, own) && (info.check ==> q < n)
  }

  lemma {:induction false} OwnCoordinates(types: seq<LoopType>, axes: seq<nat>, own: (seq<int>, seq<int>), c: Ctx)
    requires TypesOk(types) && |axes| == |types| && OwnIs(types, axes, own, c) && types[0] != Regular
    requires |own.0| == Count(types, Outer) && |own.1| == Count(types, Inner)
    ensures FirstCoord(types, own) == Coord(types[0], axes[0], c)
    ensures |types| == 2 && types[1] != Regular ==> SecondCoord(types, own) == Coord(types[1], axes[1], c)
  {
    OwnSizes(types, Outer);
    OwnSizes(types, Inner);
  }

  lemma {:induction false} LevelCount(info: Info, axes: seq<nat>, own: (seq<int>, seq<int>), c: Ctx, q: int)
    requires LoopOk(info, c) && OwnRank(own, info) && |axes| == |info.types| && OwnIs(info.types, axes, own, c)
    ensures multiset(ThreadPositions(info, axes, c))[q] == if LevelRuns(info, own, q, c) then 1 else 0
  {
    if IsRegular(info.types) {
      UptoCount(0, Trip(info, c), q);
    } else {
      OwnCoordinates(info.types, axes, own, c);
      if |info.types| == 2 && info.types[1] == Regular {
        PassRuns(Trip(info, c), TileSize(info, c), PassCount(info, c), FirstCoord(info.types, own), q, info.check);
      }
    }
  }

  // ----- what a nest runs at given coordinates -----

  predicate RunsAt(infos: seq<Info>, p: seq<int>, g: (seq<int>, seq<int>), c: Ctx)
    requires ChainOk(infos, c) && |p| == |infos| && HasRank(g, infos)
  {
    infos == []
    || (CutParts(infos, g);
        LevelRuns(infos[0], OwnPart(infos, g), p[0], c) && RunsAt(infos[1..], p[1..], RestPart(infos, g), c))
  }

  lemma {:induction false} SameLevel(info: Info, own: (seq<int>, seq<int>), q: int, c: Ctx, c': Ctx)
    requires LoopOk(info, c) && c.args == c'.args && OwnRank(own, info)
    ensures LoopOk(info, c') && LevelRuns(info, own, q, c) == LevelRuns(info, own, q, c')
  {
    assert Host(c) == Host(c');
  }

  lemma {:induction false} SameRuns(infos: seq<Info>, p: seq<int>, g: (seq<int>, seq<int>), c: Ctx, c': Ctx)
    requires ChainOk(infos, c) && ChainOk(infos, c') && c.args == c'.args && |p| == |infos| && HasRank(g, infos)
    ensures RunsAt(infos, p, g, c) == RunsAt(infos, p, g, c')
  {
    if infos != [] {
      CutParts(infos, g);
      SameLevel(infos[0], OwnPart(infos, g), p[0], c, c');
      SameRuns(infos[1..], p[1..], RestPart(infos, g), c, c');
    }
  }

  /** The thread runs each iteration tuple at most once, and just those. */
  lemma {:induction false} AnyThread(infos: seq<Info>, p: seq<int>, g: (seq<int>, seq<int>), c: Ctx)
    requires ChainOk(infos, c) && |p| == |infos| && HasRank(g, infos) && g == (c.outer, c.inner)
    ensures multiset(ThreadTrace(infos, c))[p] == if RunsAt(infos, p, g, c) then 1 else 0
    decreases |infos|
  {
    if infos == [] {
      assert p == [];
    } else {
      var rest, axes := infos[1..], AxisHeights(ToTree(infos));
      var own, inside := OwnPart(infos, g), RestPart(infos, g);
      var c' := Ctx(c.args, inside.0, inside.1);
      CutParts(infos, g);
      SameHost(rest, c, c');
      HeadAxes(infos);
      OwnAxes(infos, inside.0, inside.1, own, c);
      LevelCount(infos[0], axes, own, c, p[0]);
      AnyThread(rest, p[1..], inside, c');
      SameRuns(rest, p[1..], inside, c, c');
      AgreeOnAxes(rest, c', c);
      CrossOnce(ThreadPositions(infos[0], axes, c), ThreadTrace(rest, c), p, LevelRuns(infos[0], own, p[0], c),
                RunsAt(rest, p[1..], inside, c));
    }
  }

  /** A tuple is met once exactly if its head and its rest are. */
  lemma {:induction false} CrossOnce(qs: seq<int>, ps: seq<seq<int>>, p: seq<int>, head: bool, rest: bool)
    requires p != [] && multiset(qs)[p[0]] == (if head then 1 else 0)
    requires multiset(ps)[p[1..]] == (if rest then 1 else 0)
    ensures multiset(Cross(qs, ps))[p] == if head && rest then 1 else 0
  {
    assert p == [p[0]] + p[1..];
    CrossCount(qs, ps, p[0], p[1..]);
  }

  // ----- grids that run a nest once, level by level -----

  predicate Positive(grid: (seq<int>, seq<int>)) {
    (forall k :: 0 <= k < |grid.0| ==> grid.0[k] > 0) && forall k :: 0 <= k < |grid.1| ==> grid.1[k] > 0
  }

  /** The thread is one of the grid and runs the tuple. */
  predicate Runner(infos: seq<Info>, p: seq<int>, g: (seq<int>, seq<int>), grid: (seq<int>, seq<int>), c: Ctx)
    requires ChainOk(infos, c) && |p| == |infos| && HasRank(grid, infos)
  {
    HasRank(g, infos) && InGrid(g, grid) && RunsAt(infos, p, g, c)
  }

  ghost predicate SomeRuns(infos: seq<Info>, p: seq<int>, grid: (seq<int>, seq<int>), c: Ctx)
    requires ChainOk(infos, c) && |p| == |infos| && HasRank(grid, infos)
  {
    exists g :: Runner(infos, p, g, grid, c)
  }

  ghost predicate OneRuns(infos: seq<Info>, p: seq<int>, grid: (seq<int>, seq<int>), c: Ctx)
    requires ChainOk(infos, c) && |p| == |infos| && HasRank(grid, infos)
  {
    forall g, h :: Runner(infos, p, g, grid, c) && Runner(infos, p, h, grid, c) ==> g == h
  }

  ghost predicate TupleOnce(infos: seq<Info>, p: seq<int>, grid: (seq<int>, seq<int>), c: Ctx)
    requires ChainOk(infos, c) && |p| == |infos| && HasRank(grid, infos)
  {
    OneRuns(infos, p, grid, c) && (SomeRuns(infos, p, grid, c) <==> p in NestTrace(infos, c))
  }

  /** Every iteration tuple of the source has one thread in the grid, and no other tuple has any. */
  ghost predicate Once(infos: seq<Info>, grid: (seq<int>, seq<int>), c: Ctx)
    requires ChainOk(infos, c) && HasRank(grid, infos)
  {
    forall p :: |p| == |infos| ==> TupleOnce(infos, p, grid, c)
  }

  predicate LevelRunner(info: Info, own: (seq<int>, seq<int>), q: int, e: (seq<int>, seq<int>), c: Ctx)
    requires LoopOk(info, c) && OwnRank(e, info)
  {
    OwnRank(own, info) && InGrid(own, e) && LevelRuns(info, own, q, c)
  }

  ghost predicate LevelSome(info: Info, q: int, e: (seq<int>, seq<int>), c: Ctx)
    requires LoopOk(info, c) && OwnRank(e, info)
  {
    exists own :: LevelRunner(info, own, q, e, c)
  }

  ghost predicate LevelOne(info: Info, q: int, e: (seq<int>, seq<int>), c: Ctx)
    requires LoopOk(info, c) && OwnRank(e, info)
  {
    forall a, b :: LevelRunner(info, a, q, e, c) && LevelRunner(info, b, q, e, c) ==> a == b
  }

  ghost predicate NumberOnce(info: Info, q: int, e: (seq<int>, seq<int>), c: Ctx)
    requires LoopOk(info, c) && OwnRank(e, info)
  {
    LevelOne(info, q, e, c) && (LevelSome(info, q, e, c) <==> 0 <= q < Trip(info, c))
  }

  /** The same for one loop. */
  ghost predicate LevelOnce(info: Info, e: (seq<int>, seq<int>), c: Ctx)
    requires LoopOk(info, c) && OwnRank(e, info)
  {
    forall q :: NumberOnce(info, q, e, c)
  }

  lemma {:induction false} SplitRunner(infos: seq<Info>, p: seq<int>, g: (seq<int>, seq<int>),
                                       grid: (seq<int>, seq<int>), c: Ctx)
    requires ChainOk(infos, c) && infos != [] && |p| == |infos| && HasRank(grid, infos)
    requires Runner(infos, p, g, grid, c)
    ensures HasRank(RestPart(infos, grid), infos[1..]) && OwnRank(OwnPart(infos, grid), infos[0])
    ensures LevelRunner(infos[0], OwnPart(infos, g), p[0], OwnPart(infos, grid), c)
    ensures Runner(infos[1..], p[1..], RestPart(infos, g), RestPart(infos, grid), c)
    ensures Both(RestPart(infos, g), OwnPart(infos, g)) == g
  {
    CutParts(infos, g);
    CutParts(infos, grid);
    CutInGrid(infos, g, grid);
  }

  lemma {:induction false} JoinRunner(infos: seq<Info>, p: seq<int>, own: (seq<int>, seq<int>),
                                      rest: (seq<int>, seq<int>), grid: (seq<int>, seq<int>), c: Ctx)
    requires ChainOk(infos, c) && infos != [] && |p| == |infos| && HasRank(grid, infos)
    requires HasRank(RestPart(infos, grid), infos[1..]) && OwnRank(OwnPart(infos, grid), infos[0])
    requires LevelRunner(infos[0], own, p[0], OwnPart(infos, grid), c)
    requires Runner(infos[1..], p[1..], rest, RestPart(infos, grid), c)
    ensures Runner(infos, p, Both(rest, own), grid, c)
    ensures OwnPart(infos, Both(rest, own)) == own && RestPart(infos, Both(rest, own)) == rest
  {
    JoinParts(infos, own, rest);
    CutInGrid(infos, Both(rest, own), grid);
  }

  lemma {:induction false} SplitSome(infos: seq<Info>, p: seq<int>, grid: (seq<int>, seq<int>), c: Ctx)
    requires ChainOk(infos, c) && infos != [] && |p| == |infos| && HasRank(grid, infos)
    ensures HasRank(RestPart(infos, grid), infos[1..]) && OwnRank(OwnPart(infos, grid), infos[0])
    ensures SomeRuns(infos, p, grid, c) <==>
            LevelSome(infos[0], p[0], OwnPart(infos, grid), c) && SomeRuns(infos[1..], p[1..], RestPart(infos, grid), c)
  {
    var e, rest := OwnPart(infos, grid), RestPart(infos, grid);
    CutParts(infos, grid);
    if SomeRuns(infos, p, grid, c) {
      var g :| Runner(infos, p, g, grid, c);
      SplitRunner(infos, p, g, grid, c);
    }
    if LevelSome(infos[0], p[0], e, c) && SomeRuns(infos[1..], p[1..], rest, c) {
      var own :| LevelRunner(infos[0], own, p[0], e, c);
      var g :| Runner(infos[1..], p[1..], g, rest, c);
      JoinRunner(infos, p, own, g, grid, c);
    }
  }

  lemma {:induction false} SplitOne(infos: seq<Info>, p: seq<int>, grid: (seq<int>, seq<int>), c: Ctx)
    requires ChainOk(infos, c) && infos != [] && |p| == |infos| && HasRank(grid, infos)
    requires HasRank(RestPart(infos, grid), infos[1..]) && OwnRank(OwnPart(infos, grid), infos[0])
    requires LevelOne(infos[0], p[0], OwnPart(infos, grid), c)
    requires OneRuns(infos[1..], p[1..], RestPart(infos, grid), c)
    ensures OneRuns(infos, p, grid, c)
  {
    forall g, h | Runner(infos, p, g, grid, c) && Runner(infos, p, h, grid, c) ensures g == h {
      SplitRunner(infos, p, g, grid, c);
      SplitRunner(infos, p, h, grid, c);
    }
  }

  lemma {:induction false} JoinOnce(infos: seq<Info>, grid: (seq<int>, seq<int>), c: Ctx)
    requires ChainOk(infos, c) && infos != [] && HasRank(grid, infos)
    requires HasRank(RestPart(infos, grid), infos[1..]) && OwnRank(OwnPart(infos, grid), infos[0])
    requires LevelOnce(infos[0], OwnPart(infos, grid), c) && Once(infos[1..], RestPart(infos, grid), c)
    ensures Once(infos, grid, c)
  {
    forall p | |p| == |infos| ensures TupleOnce(infos, p, grid, c) {
      assert NumberOnce(infos[0], p[0], OwnPart(infos, grid), c);
      assert TupleOnce(infos[1..], p[1..], RestPart(infos, grid), c);
      SplitSome(infos, p, grid, c);
      SplitOne(infos, p, grid, c);
      NestCount(infos, p, c);
    }
  }

  /** If something runs in both parts, each part must be right by itself. */
  lemma {:induction false} PartsOnce(infos: seq<Info>, grid: (seq<int>, seq<int>), q: int, p: seq<int>, c: Ctx)
    requires ChainOk(infos, c) && infos != [] && HasRank(grid, infos) && |p| == |infos| - 1
    requires HasRank(RestPart(infos, grid), infos[1..]) && OwnRank(OwnPart(infos, grid), infos[0])
    requires LevelSome(infos[0], q, OwnPart(infos, grid), c) && SomeRuns(infos[1..], p, RestPart(infos, grid), c)
    requires Once(infos, grid, c)
    ensures LevelOnce(infos[0], OwnPart(infos, grid), c) && Once(infos[1..], RestPart(infos, grid), c)
  {
    var e, rest := OwnPart(infos, grid), RestPart(infos, grid);
    WitnessInSource(infos, grid, q, p, c);
    forall r ensures NumberOnce(infos[0], r, e, c) { HeadOnce(infos, grid, r, p, c); }
    forall s | |s| == |infos[1..]| ensures TupleOnce(infos[1..], s, rest, c) { TailOnce(infos, grid, q, s, c); }
  }

  lemma {:induction false} WitnessInSource(infos: seq<Info>, grid: (seq<int>, seq<int>), q: int, p: seq<int>, c: Ctx)
    requires ChainOk(infos, c) && infos != [] && HasRank(grid, infos) && |p| == |infos| - 1
    requires HasRank(RestPart(infos, grid), infos[1..]) && OwnRank(OwnPart(infos, grid), infos[0])
    requires LevelSome(infos[0], q, OwnPart(infos, grid), c) && SomeRuns(infos[1..], p, RestPart(infos, grid), c)
    requires Once(infos, grid, c)
    ensures 0 <= q < Trip(infos[0], c) && p in NestTrace(infos[1..], c)
  {
    var t := [q] + p;
    assert t[0] == q && t[1..] == p;
    assert TupleOnce(infos, t, grid, c);
    SplitSome(infos, t, grid, c);
    NestCount(infos, t, c);
  }

  lemma {:induction false} HeadOnce(infos: seq<Info>, grid: (seq<int>, seq<int>), q: int, p: seq<int>, c: Ctx)
    requires ChainOk(infos, c) && infos != [] && HasRank(grid, infos) && |p| == |infos| - 1
    requires HasRank(RestPart(infos, grid), infos[1..]) && OwnRank(OwnPart(infos, grid), infos[0])
    requires SomeRuns(infos[1..], p, RestPart(infos, grid), c) && p in NestTrace(infos[1..], c)
    requires Once(infos, grid, c)
    ensures NumberOnce(infos[0], q, OwnPart(infos, grid), c)
  {
    var t, e := [q] + p, OwnPart(infos, grid);
    assert t[0] == q && t[1..] == p;
    assert TupleOnce(infos, t, grid, c);
    SplitSome(infos, t, grid, c);
    NestCount(infos, t, c);
    HeadOne(infos, grid, q, p, c);
  }

  lemma {:induction false} HeadOne(infos: seq<Info>, grid: (seq<int>, seq<int>), q: int, p: seq<int>, c: Ctx)
    requires ChainOk(infos, c) && infos != [] && HasRank(grid, infos) && |p| == |infos| - 1
    requires HasRank(RestPart(infos, grid), infos[1..]) && OwnRank(OwnPart(infos, grid), infos[0])
    requires SomeRuns(infos[1..], p, RestPart(infos, grid), c) && OneRuns(infos, [q] + p, grid, c)
    ensures LevelOne(infos[0], q, OwnPart(infos, grid), c)
  {
    var t, e := [q] + p, OwnPart(infos, grid);
    assert t[0] == q && t[1..] == p;
    var g :| Runner(infos[1..], p, g, RestPart(infos, grid), c);
    forall a, b | LevelRunner(infos[0], a, q, e, c) && LevelRunner(infos[0], b, q, e, c) ensures a == b {
      JoinRunner(infos, t, a, g, grid, c);
      JoinRunner(infos, t, b, g, grid, c);
    }
  }

  lemma {:induction false} TailOnce(infos: seq<Info>, grid: (seq<int>, seq<int>), q: int, p: seq<int>, c: Ctx)
    requires ChainOk(infos, c) && infos != [] && HasRank(grid, infos) && |p| == |infos| - 1
    requires HasRank(RestPart(infos, grid), infos[1..]) && OwnRank(OwnPart(infos, grid), infos[0])
    requires LevelSome(infos[0], q, OwnPart(infos, grid), c) && 0 <= q < Trip(infos[0], c)
    requires Once(infos, grid, c)
    ensures TupleOnce(infos[1..], p, RestPart(infos, grid), c)
  {
    var t, rest := [q] + p, RestPart(infos, grid);
    assert t[0] == q && t[1..] == p;
    assert TupleOnce(infos, t, grid, c);
    SplitSome(infos, t, grid, c);
    NestCount(infos, t, c);
    TailOne(infos, grid, q, p, c);
  }

  lemma {:induction false} TailOne(infos: seq<Info>, grid: (seq<int>, seq<int>), q: int, p: seq<int>, c: Ctx)
    requires ChainOk(infos, c) && infos != [] && HasRank(grid, infos) && |p| == |infos| - 1
    requires HasRank(RestPart(infos, grid), infos[1..]) && OwnRank(OwnPart(infos, grid), infos[0])
    requires LevelSome(infos[0], q, OwnPart(infos, grid), c) && OneRuns(infos, [q] + p, grid, c)
    ensures OneRuns(infos[1..], p, RestPart(infos, grid), c)
  {
    var t, rest := [q] + p, RestPart(infos, grid);
    assert t[0] == q && t[1..] == p;
    var own :| LevelRunner(infos[0], own, q, OwnPart(infos, grid), c);
    forall g, h | Runner(infos[1..], p, g, rest, c) && Runner(infos[1..], p, h, rest, c) ensures g == h {
      JoinRunner(infos, t, own, g, grid, c);
      JoinRunner(infos, t, own, h, grid, c);
    }
  }

  // ----- exactly when the axes of one loop cover it -----

  /** The extents on the axes of one loop make it run once: an index needs its own extent, an ordinary loop none. */
  predicate LevelFits(info: Info, e: (seq<int>, seq<int>), c: Ctx)
    requires LoopOk(info, c) && OwnRank(e, info)
  {
    var n, t := Trip(info, c), TileSize(info, c);
    IsRegular(info.types)
    || var b := FirstCoord(info.types, e);
       if |info.types| == 1 then b == n
       else if info.types[1] == Regular then BlocksFit(n, t, PassCount(info, c), info.check, b)
       else PairFits(n, t, info.check, b, SecondCoord(info.types, e))
  }

  /** Coordinates on one axis are one number. */
  lemma {:induction false} OneAxis(types: seq<LoopType>, own: (seq<int>, seq<int>), e: (seq<int>, seq<int>))
    requires TypesOk(types) && types[0] != Regular && (|types| == 1 || types[1] == Regular)
    requires |own.0| == |e.0| == Count(types, Outer) && |own.1| == |e.1| == Count(types, Inner)
    ensures own == Placed(types[0], FirstCoord(types, own))
    ensures InGrid(own, e) <==> 0 <= FirstCoord(types, own) < FirstCoord(types, e)
  {
    OwnSizes(types, Outer);
    OwnSizes(types, Inner);
    if types[0] == Outer {
      assert own.0 == [own.0[0]] && own.1 == [];
    } else {
      assert own.0 == [] && own.1 == [own.1[0]];
    }
  }

  lemma {:induction false} OnOneAxis(types: seq<LoopType>, i: int)
    requires TypesOk(types) && types[0] != Regular && (|types| == 1 || types[1] == Regular)
    ensures var own := Placed(types[0], i);
            |own.0| == Count(types, Outer) && |own.1| == Count(types, Inner) && FirstCoord(types, own) == i
  {
    OwnSizes(types, Outer);
    OwnSizes(types, Inner);
  }

  lemma {:induction false} TwoAxes(types: seq<LoopType>, own: (seq<int>, seq<int>), e: (seq<int>, seq<int>))
    requires TypesOk(types) && |types| == 2 && types[0] != Regular && types[1] != Regular
    requires |own.0| == |e.0| == Count(types, Outer) && |own.1| == |e.1| == Count(types, Inner)
    ensures own == Both(Placed(types[1], SecondCoord(types, own)), Placed(types[0], FirstCoord(types, own)))
    ensures InGrid(own, e) <==> 0 <= FirstCoord(types, own) < FirstCoord(types, e)
                                && 0 <= SecondCoord(types, own) < SecondCoord(types, e)
  {
    OwnSizes(types, Outer);
    OwnSizes(types, Inner);
    var i, j := FirstCoord(types, own), SecondCoord(types, own);
    if types == [Outer, Outer] {
      assert own.0 == [j] + [i] && own.1 == [] + [];
    } else if types == [Inner, Inner] {
      assert own.0 == [] + [] && own.1 == [j] + [i];
    } else if types[0] == Outer {
      assert own.0 == [] + [i] && own.1 == [j] + [];
    } else {
      assert own.0 == [j] + [] && own.1 == [] + [i];
    }
  }

  lemma {:induction false} OnTwoAxes(types: seq<LoopType>, i: int, j: int)
    requires TypesOk(types) && |types| == 2 && types[0] != Regular && types[1] != Regular
    ensures var own := Both(Placed(types[1], j), Placed(types[0], i));
            && |own.0| == Count(types, Outer) && |own.1| == Count(types, Inner)
            && FirstCoord(types, own) == i && SecondCoord(types, own) == j
  {
    OwnSizes(types, Outer);
    OwnSizes(types, Inner);
  }

  lemma {:induction false} RegularOnce(info: Info, e: (seq<int>, seq<int>), c: Ctx)
    requires LoopOk(info, c) && OwnRank(e, info) && IsRegular(info.types)
    ensures LevelOnce(info, e, c)
  {
    OwnSizes(info.types, Outer);
    OwnSizes(info.types, Inner);
    forall q ensures NumberOnce(info, q, e, c) {
      forall a, b | LevelRunner(info, a, q, e, c) && LevelRunner(info, b, q, e, c) ensures a == b {
        assert a.0 == [] == b.0 && a.1 == [] == b.1;
      }
      if 0 <= q < Trip(info, c) { assert LevelRunner(info, ([], []), q, e, c); }
    }
  }

  lemma {:induction false} IndexOnce(info: Info, e: (seq<int>, seq<int>), c: Ctx)
    requires LoopOk(info, c) && OwnRank(e, info) && |info.types| == 1 && info.types[0] != Regular
    requires FirstCoord(info.types, e) > 0
    ensures LevelOnce(info, e, c) <==> FirstCoord(info.types, e) == Trip(info, c)
  {
    var b, n := FirstCoord(info.types, e), Trip(info, c);
    forall q ensures LevelOne(info, q, e, c) && (LevelSome(info, q, e, c) <==> 0 <= q < b) { IndexAt(info, e, q, c); }
    if b < n { assert !NumberOnce(info, b, e, c); }
    if b > n { assert !NumberOnce(info, n, e, c); }
  }

  lemma {:induction false} IndexAt(info: Info, e: (seq<int>, seq<int>), q: int, c: Ctx)
    requires LoopOk(info, c) && OwnRank(e, info) && |info.types| == 1 && info.types[0] != Regular
    ensures LevelOne(info, q, e, c) && (LevelSome(info, q, e, c) <==> 0 <= q < FirstCoord(info.types, e))
  {
    forall own | LevelRunner(info, own, q, e, c)
      ensures own == Placed(info.types[0], q) && 0 <= q < FirstCoord(info.types, e)
    {
      OneAxis(info.types, own, e);
    }
    if 0 <= q < FirstCoord(info.types, e) {
      var own := Placed(info.types[0], q);
      OnOneAxis(info.types, q);
      OneAxis(info.types, own, e);
      assert LevelRunner(info, own, q, e, c);
    }
  }

  predicate Mixed(info: Info) {
    |info.types| == 2 && info.types[0] != Regular && info.types[1] == Regular
  }

  lemma {:induction false} BlockRunner(info: Info, e: (seq<int>, seq<int>), i: int, q: int, c: Ctx)
    requires LoopOk(info, c) && OwnRank(e, info) && Mixed(info)
    ensures LevelRunner(info, Placed(info.types[0], i), q, e, c) <==>
            BlockRuns(Trip(info, c), TileSize(info, c), PassCount(info, c), info.check, FirstCoord(info.types, e), i, q)
  {
    OnOneAxis(info.types, i);
    OneAxis(info.types, Placed(info.types[0], i), e);
  }

  lemma {:induction false} RunnerIsBlock(info: Info, e: (seq<int>, seq<int>), own: (seq<int>, seq<int>), q: int, c: Ctx)
    returns (i: int)
    requires LoopOk(info, c) && Mixed(info) && OwnRank(e, info) && LevelRunner(info, own, q, e, c)
    ensures own == Placed(info.types[0], i)
    ensures BlockRuns(Trip(info, c), TileSize(info, c), PassCount(info, c), info.check, FirstCoord(info.types, e), i, q)
  {
    i := FirstCoord(info.types, own);
    OneAxis(info.types, own, e);
    BlockRunner(info, e, i, q, c);
  }

  lemma {:induction false} BlocksAt(info: Info, e: (seq<int>, seq<int>), q: int, c: Ctx)
    requires LoopOk(info, c) && OwnRank(e, info) && Mixed(info)
    ensures NumberOnce(info, q, e, c) <==>
            BlocksOnce(Trip(info, c), TileSize(info, c), PassCount(info, c), info.check, FirstCoord(info.types, e), q)
  {
    var n, t, m, check := Trip(info, c), TileSize(info, c), PassCount(info, c), info.check;
    var kind, b := info.types[0], FirstCoord(info.types, e);
    forall i
      ensures LevelRunner(info, Placed(kind, i), q, e, c) <==> BlockRuns(n, t, m, check, b, i, q)
    {
      BlockRunner(info, e, i, q, c);
    }
    assert LevelSome(info, q, e, c) <==> BlockSome(n, t, m, check, b, q) by {
      if LevelSome(info, q, e, c) {
        var own :| LevelRunner(info, own, q, e, c);
        var i := RunnerIsBlock(info, e, own, q, c);
      }
      if i :| BlockRuns(n, t, m, check, b, i, q) { assert LevelRunner(info, Placed(kind, i), q, e, c); }
    }
    if LevelOne(info, q, e, c) {
      forall i, k | BlockRuns(n, t, m, check, b, i, q) && BlockRuns(n, t, m, check, b, k, q) ensures i == k {
        assert LevelRunner(info, Placed(kind, i), q, e, c) && LevelRunner(info, Placed(kind, k), q, e, c);
        PlacedSame(kind, i, k);
      }
    }
    if BlocksOnce(n, t, m, check, b, q) {
      forall x, y | LevelRunner(info, x, q, e, c) && LevelRunner(info, y, q, e, c) ensures x == y {
        var i := RunnerIsBlock(info, e, x, q, c);
        var k := RunnerIsBlock(info, e, y, q, c);
      }
    }
  }

  predicate Indexed(info: Info) {
    |info.types| == 2 && info.types[0] != Regular && info.types[1] != Regular
  }

  function Pair(info: Info, i: int, j: int): (seq<int>, seq<int>)
    requires Indexed(info)
  {
    Both(Placed(info.types[1], j), Placed(info.types[0], i))
  }

  lemma {:induction false} PairRunner(info: Info, e: (seq<int>, seq<int>), i: int, j: int, q: int, c: Ctx)
    requires LoopOk(info, c) && OwnRank(e, info) && Indexed(info)
    ensures LevelRunner(info, Pair(info, i, j), q, e, c) <==>
            PairRuns(Trip(info, c), TileSize(info, c), info.check, FirstCoord(info.types, e),
                     SecondCoord(info.types, e), i, j, q)
  {
    OnTwoAxes(info.types, i, j);
    TwoAxes(info.types, Pair(info, i, j), e);
  }

  lemma {:induction false} RunnerIsPair(info: Info, e: (seq<int>, seq<int>), own: (seq<int>, seq<int>), q: int, c: Ctx)
    returns (i: int, j: int)
    requires LoopOk(info, c) && Indexed(info) && OwnRank(e, info) && LevelRunner(info, own, q, e, c)
    ensures own == Pair(info, i, j)
    ensures PairRuns(Trip(info, c), TileSize(info, c), info.check, FirstCoord(info.types, e),
                     SecondCoord(info.types, e), i, j, q)
  {
    i, j := FirstCoord(info.types, own), SecondCoord(info.types, own);
    TwoAxes(info.types, own, e);
    PairRunner(info, e, i, j, q, c);
  }

  lemma {:induction false} PairsAt(info: Info, e: (seq<int>, seq<int>), q: int, c: Ctx)
    requires LoopOk(info, c) && OwnRank(e, info) && Indexed(info)
    ensures NumberOnce(info, q, e, c) <==>
            PairOnce(Trip(info, c), TileSize(info, c), info.check, FirstCoord(info.types, e),
                     SecondCoord(info.types, e), q)
  {
    var n, t, check := Trip(info, c), TileSize(info, c), info.check;
    var b, s := FirstCoord(info.types, e), SecondCoord(info.types, e);
    forall i, j
      ensures LevelRunner(info, Pair(info, i, j), q, e, c) <==> PairRuns(n, t, check, b, s, i, j, q)
    {
      PairRunner(info, e, i, j, q, c);
    }
    assert LevelSome(info, q, e, c) <==> PairSome(n, t, check, b, s, q) by {
      if LevelSome(info, q, e, c) {
        var own :| LevelRunner(info, own, q, e, c);
        var i, j := RunnerIsPair(info, e, own, q, c);
      }
      if i, j :| PairRuns(n, t, check, b, s, i, j, q) { assert LevelRunner(info, Pair(info, i, j), q, e, c); }
    }
    if LevelOne(info, q, e, c) {
      forall i, j, k, l | PairRuns(n, t, check, b, s, i, j, q) && PairRuns(n, t, check, b, s, k, l, q)
        ensures i == k && j == l
      {
        assert LevelRunner(info, Pair(info, i, j), q, e, c) && LevelRunner(info, Pair(info, k, l), q, e, c);
        PairedSame(info.types[1], info.types[0], j, l, i, k);
      }
    }
    if PairOnce(n, t, check, b, s, q) {
      forall x, y | LevelRunner(info, x, q, e, c) && LevelRunner(info, y, q, e, c) ensures x == y {
        var i, j := RunnerIsPair(info, e, x, q, c);
        var k, l := RunnerIsPair(info, e, y, q, c);
      }
    }
  }

  lemma {:induction false} PositiveCoords(types: seq<LoopType>, e: (seq<int>, seq<int>))
    requires TypesOk(types) && types[0] != Regular && Positive(e)
    requires |e.0| == Count(types, Outer) && |e.1| == Count(types, Inner)
    ensures FirstCoord(types, e) > 0 && (|types| == 2 && types[1] != Regular ==> SecondCoord(types, e) > 0)
  {
    OwnSizes(types, Outer);
    OwnSizes(types, Inner);
  }

  lemma {:induction false} MixedOnce(info: Info, e: (seq<int>, seq<int>), c: Ctx)
    requires LoopOk(info, c) && OwnRank(e, info) && Mixed(info) && FirstCoord(info.types, e) > 0
    ensures LevelOnce(info, e, c) <==> LevelFits(info, e, c)
  {
    var n, t, m, b := Trip(info, c), TileSize(info, c), PassCount(info, c), FirstCoord(info.types, e);
    PassFits(HostWalk(info, c), t, info.check);
    if BlocksFit(n, t, m, info.check, b) {
      forall q ensures NumberOnce(info, q, e, c) {
        BlocksCoverAll(n, t, m, info.check, b, q);
        BlocksAt(info, e, q, c);
      }
    } else {
      var q := BlocksMiss(n, t, m, info.check, b);
      BlocksAt(info, e, q, c);
    }
  }

  lemma {:induction false} IndexedOnce(info: Info, e: (seq<int>, seq<int>), c: Ctx)
    requires LoopOk(info, c) && OwnRank(e, info) && Indexed(info)
    requires FirstCoord(info.types, e) > 0 && SecondCoord(info.types, e) > 0
    ensures LevelOnce(info, e, c) <==> LevelFits(info, e, c)
  {
    var n, t := Trip(info, c), TileSize(info, c);
    var b, s := FirstCoord(info.types, e), SecondCoord(info.types, e);
    if PairFits(n, t, info.check, b, s) {
      forall q ensures NumberOnce(info, q, e, c) {
        PairCovers(n, t, info.check, b, s, q);
        PairsAt(info, e, q, c);
      }
    } else {
      var q := PairMisses(n, t, info.check, b, s);
      PairsAt(info, e, q, c);
    }
  }

  lemma {:induction false} LevelExactly(info: Info, e: (seq<int>, seq<int>), c: Ctx)
    requires LoopOk(info, c) && OwnRank(e, info) && Positive(e)
    ensures LevelOnce(info, e, c) <==> LevelFits(info, e, c)
  {
    if IsRegular(info.types) {
      RegularOnce(info, e, c);
    } else {
      assert info.types[0] != Regular;
      PositiveCoords(info.types, e);
      if |info.types| == 1 {
        IndexOnce(info, e, c);
      } else if info.types[1] == Regular {
        MixedOnce(info, e, c);
      } else {
        IndexedOnce(info, e, c);
      }
    }
  }

  // ----- exactly when the axes of a nest cover it -----

  /** The loop has no iterations, and runs none in any grid. */
  predicate Idle(info: Info, c: Ctx)
    requires LoopOk(info, c)
  {
    Trip(info, c) == 0 && (IsRegular(info.types) || (|info.types| == 2 && info.check))
  }

  predicate SomeIdle(infos: seq<Info>, c: Ctx)
    requires ChainOk(infos, c)
  {
    exists k :: 0 <= k < |infos| && Idle(infos[k], c)
  }

  predicate AllFit(infos: seq<Info>, grid: (seq<int>, seq<int>), c: Ctx)
    requires ChainOk(infos, c) && HasRank(grid, infos)
  {
    infos == []
    || (CutParts(infos, grid);
        LevelFits(infos[0], OwnPart(infos, grid), c) && AllFit(infos[1..], RestPart(infos, grid), c))
  }

  lemma {:induction false} IdleRunsNothing(info: Info, e: (seq<int>, seq<int>), q: int, c: Ctx)
    requires LoopOk(info, c) && OwnRank(e, info) && Idle(info, c)
    ensures !LevelSome(info, q, e, c)
  {
    if !IsRegular(info.types) {
      assert info.types[0] != Regular;
      forall own ensures !LevelRunner(info, own, q, e, c) {
        if LevelRunner(info, own, q, e, c) { NeverNegative(info, own, q, e, c); }
      }
    }
  }

  lemma {:induction false} NeverNegative(info: Info, own: (seq<int>, seq<int>), q: int, e: (seq<int>, seq<int>), c: Ctx)
    requires LoopOk(info, c) && OwnRank(e, info) && LevelRunner(info, own, q, e, c) && info.types[0] != Regular
    ensures q >= 0
  {
    var t := TileSize(info, c);
    if |info.types| == 2 && info.types[1] != Regular {
      TwoAxes(info.types, own, e);
      FurtherBlock(t, FirstCoord(info.types, own), 0);
    } else {
      OneAxis(info.types, own, e);
      FurtherBlock(t, FirstCoord(info.types, own), 0);
    }
  }

  lemma {:induction false} LevelRunsSomething(info: Info, e: (seq<int>, seq<int>), c: Ctx)
    requires LoopOk(info, c) && OwnRank(e, info) && Positive(e) && !Idle(info, c)
    ensures LevelSome(info, 0, e, c)
  {
    var t := TileSize(info, c);
    assert t * 0 == 0;
    if IsRegular(info.types) {
      OwnSizes(info.types, Outer);
      OwnSizes(info.types, Inner);
      assert LevelRunner(info, ([], []), 0, e, c);
    } else {
      assert info.types[0] != Regular;
      PositiveCoords(info.types, e);
      if |info.types| == 1 {
        IndexAt(info, e, 0, c);
      } else if info.types[1] == Regular {
        PassFits(HostWalk(info, c), t, info.check);
        BlockRunner(info, e, 0, 0, c);
      } else {
        PairRunner(info, e, 0, 0, 0, c);
      }
    }
  }

  lemma {:induction false} PositiveParts(infos: seq<Info>, grid: (seq<int>, seq<int>))
    requires infos != [] && HasRank(grid, infos) && Positive(grid)
    ensures Positive(OwnPart(infos, grid)) && Positive(RestPart(infos, grid))
  {
  }

  lemma {:induction false} IdleBelow(infos: seq<Info>, c: Ctx)
    requires ChainOk(infos, c) && infos != []
    ensures SomeIdle(infos, c) <==> Idle(infos[0], c) || SomeIdle(infos[1..], c)
  {
    if SomeIdle(infos[1..], c) {
      var k :| 0 <= k < |infos[1..]| && Idle(infos[1..][k], c);
      assert infos[k + 1] == infos[1..][k];
    }
    if SomeIdle(infos, c) {
      var k :| 0 <= k < |infos| && Idle(infos[k], c);
      if k > 0 { assert infos[1..][k - 1] == infos[k]; }
    }
  }

  lemma {:induction false} NothingRuns(infos: seq<Info>, p: seq<int>, grid: (seq<int>, seq<int>), c: Ctx)
    requires ChainOk(infos, c) && HasRank(grid, infos) && |p| == |infos| && SomeIdle(infos, c)
    ensures !SomeRuns(infos, p, grid, c) && p !in NestTrace(infos, c)
  {
    SplitSome(infos, p, grid, c);
    NestCount(infos, p, c);
    IdleBelow(infos, c);
    if Idle(infos[0], c) {
      IdleRunsNothing(infos[0], OwnPart(infos, grid), p[0], c);
    } else {
      NothingRuns(infos[1..], p[1..], RestPart(infos, grid), c);
    }
  }

  lemma {:induction false} SomethingRuns(infos: seq<Info>, grid: (seq<int>, seq<int>), c: Ctx) returns (p: seq<int>)
    requires ChainOk(infos, c) && HasRank(grid, infos) && Positive(grid) && !SomeIdle(infos, c)
    ensures |p| == |infos| && SomeRuns(infos, p, grid, c)
    decreases |infos|
  {
    if infos == [] {
      p := [];
      assert Runner(infos, p, ([], []), grid, c);
    } else {
      CutParts(infos, grid);
      PositiveParts(infos, grid);
      IdleBelow(infos, c);
      LevelRunsSomething(infos[0], OwnPart(infos, grid), c);
      var rest := SomethingRuns(infos[1..], RestPart(infos, grid), c);
      p := [0] + rest;
      assert p[1..] == rest;
      SplitSome(infos, p, grid, c);
    }
  }

  lemma {:induction false} NoLoops(grid: (seq<int>, seq<int>), c: Ctx)
    requires HasRank(grid, [])
    ensures Once([], grid, c)
  {
    forall p: seq<int> | |p| == 0 ensures TupleOnce([], p, grid, c) {
      assert p == [] && Runner([], p, ([], []), grid, c);
      forall g, h | Runner([], p, g, grid, c) && Runner([], p, h, grid, c) ensures g == h {
        assert g.0 == [] == h.0 && g.1 == [] == h.1;
      }
    }
  }

  lemma {:induction false} OnceByLevels(infos: seq<Info>, grid: (seq<int>, seq<int>), c: Ctx)
    requires ChainOk(infos, c) && HasRank(grid, infos) && Positive(grid) && !SomeIdle(infos, c)
    ensures Once(infos, grid, c) <==> AllFit(infos, grid, c)
    decreases |infos|
  {
    if infos == [] {
      NoLoops(grid, c);
    } else {
      var e, rest := OwnPart(infos, grid), RestPart(infos, grid);
      CutParts(infos, grid);
      PositiveParts(infos, grid);
      IdleBelow(infos, c);
      LevelExactly(infos[0], e, c);
      OnceByLevels(infos[1..], rest, c);
      if Once(infos, grid, c) {
        LevelRunsSomething(infos[0], e, c);
        var p := SomethingRuns(infos[1..], rest, c);
        PartsOnce(infos, grid, 0, p, c);
      }
      if LevelOnce(infos[0], e, c) && Once(infos[1..], rest, c) { JoinOnce(infos, grid, c); }
    }
  }

  lemma {:induction false} OnceExactly(infos: seq<Info>, grid: (seq<int>, seq<int>), c: Ctx)
    requires ChainOk(infos, c) && HasRank(grid, infos) && Positive(grid)
    ensures Once(infos, grid, c) <==> AllFit(infos, grid, c) || SomeIdle(infos, c)
  {
    if SomeIdle(infos, c) {
      forall p | |p| == |infos| ensures TupleOnce(infos, p, grid, c) { NothingRuns(infos, p, grid, c); }
    } else {
      OnceByLevels(infos, grid, c);
    }
  }

  // ----- grids without threads -----

  predicate SomeEmpty(infos: seq<Info>, c: Ctx)
    requires ChainOk(infos, c)
  {
    exists k :: 0 <= k < |infos| && Trip(infos[k], c) == 0
  }

  lemma {:induction false} EmptyTrace(infos: seq<Info>, c: Ctx) returns (p: seq<int>)
    requires ChainOk(infos, c)
    ensures |p| == |infos| && (SomeEmpty(infos, c) <==> p !in NestTrace(infos, c))
    ensures SomeEmpty(infos, c) ==> forall q :: |q| == |infos| ==> q !in NestTrace(infos, c)
  {
    if infos == [] {
      p := [];
    } else {
      var rest := EmptyTrace(infos[1..], c);
      p := [0] + rest;
      assert p[1..] == rest;
      EmptyBelow(infos, c);
      forall q | |q| == |infos|
        ensures q in NestTrace(infos, c) ==> Trip(infos[0], c) > 0 && q[1..] in NestTrace(infos[1..], c)
      {
        NestCount(infos, q, c);
      }
      NestCount(infos, p, c);
    }
  }

  lemma {:induction false} EmptyBelow(infos: seq<Info>, c: Ctx)
    requires ChainOk(infos, c) && infos != []
    ensures SomeEmpty(infos, c) <==> Trip(infos[0], c) == 0 || SomeEmpty(infos[1..], c)
  {
    if SomeEmpty(infos[1..], c) {
      var k :| 0 <= k < |infos[1..]| && Trip(infos[1..][k], c) == 0;
      assert infos[k + 1] == infos[1..][k];
    }
    if SomeEmpty(infos, c) {
      var k :| 0 <= k < |infos| && Trip(infos[k], c) == 0;
      if k > 0 { assert infos[1..][k - 1] == infos[k]; }
    }
  }

  lemma {:induction false} NoThreads(infos: seq<Info>, grid: (seq<int>, seq<int>), c: Ctx)
    requires ChainOk(infos, c) && HasRank(grid, infos) && !Positive(grid)
    ensures Once(infos, grid, c) <==> SomeEmpty(infos, c)
  {
    var p := EmptyTrace(infos, c);
    forall q | |q| == |infos|
      ensures OneRuns(infos, q, grid, c) && !SomeRuns(infos, q, grid, c)
    {
      forall g ensures !Runner(infos, q, g, grid, c) {}
    }
    if Once(infos, grid, c) { assert TupleOnce(infos, p, grid, c); }
  }

  /** The grid runs the nest: with threads, every loop must fit its axes or one must be idle; without, nothing may be
    * there to run. */
  predicate GridFits(infos: seq<Info>, grid: (seq<int>, seq<int>), c: Ctx)
    requires ChainOk(infos, c) && HasRank(grid, infos)
  {
    if Positive(grid) then AllFit(infos, grid, c) || SomeIdle(infos, c) else SomeEmpty(infos, c)
  }
}
