/** The launch bound of a kernel against the grid its launcher asks for. */
module LaunchBound {
  import opened LoopLang
  import opened LoopHeader
  import opened LoopTree
  import opened KernelUtils
  import opened CudaNest
  import opened GridCoverage
  import opened Launcher
  import opened InnerSizes

  /** A compile-time sized, increasing, strict, unit-step loop. */
  predicate Constant(info: Info, c: Ctx)
    requires LoopOk(info, c)
  {
    var w := HostWalk(info, c);
    && info.head.start.Lit? && info.head.end.Lit? && 0 <= w.start < w.end
    && w.end - w.start < SIZE_T_RANGE && w.cmp == Lt && w.step == 1
    && info.rangeSize == RangeSize(w.up, w.start, w.end)
    && (|info.types| == 2 ==> info.size.Lit?)
  }

  function ProductOf(s: seq<int>): int {
    if s == [] then 1 else s[0] * ProductOf(s[1..])
  }

  lemma {:induction false} ProductConcat(a: seq<int>, b: seq<int>)
    ensures ProductOf(a + b) == ProductOf(a) * ProductOf(b)
  {
    if a == [] {
      assert a + b == b;
    } else {
      assert (a + b)[1..] == a[1..] + b;
      ProductConcat(a[1..], b);
      Regroup(a[0], ProductOf(a[1..]), ProductOf(b));
      Regroup(ProductOf(a[1..]), a[0], ProductOf(b));
    }
  }

  lemma {:induction false} ProductOne(v: int)
    ensures ProductOf([v]) == v
  {
    assert [v][1..] == [];
  }

  lemma {:induction false} ProductTwo(v: int, u: int)
    ensures ProductOf([v] + [u]) == v * u
  {
    ProductConcat([v], [u]);
    ProductOne(v);
    ProductOne(u);
  }

  /** The two ceilings in the code agree: 1 + (n - 1) / T and (n + T - 1) / T. */
  lemma {:induction false} SameCeiling(n: nat, t: int)
    requires n > 0 && t > 0
    ensures 1 + (n - 1) / t == Trips(n, t)
  {
    var q, r := (n - 1) / t, (n - 1) % t;
    assert n - 1 == t * q + r && 0 <= r < t;
    assert t * (q + 1) == t * q + t;
    assert t * (1 + q - 1) == t * q;
    TripsUnique(n, t, 1 + q);
  }

  lemma {:induction false} ConstantTrip(info: Info, c: Ctx)
    requires LoopOk(info, c) && Constant(info, c)
    ensures Trip(info, c) == info.rangeSize > 0
  {
    var w := HostWalk(info, c);
    RangeSizeExact(w.up, w.start, w.end);
    assert Len(w) == w.end - w.start;
  }

  /** What a loop contributes to the launch bound is what it contributes to the grid. */
  lemma {:induction false} FactorIsExtent(info: Info, c: Ctx)
    requires LoopOk(info, c) && Constant(info, c)
    ensures Factor(info) == ProductOf(OwnExtents(info, c).1)
  {
    ConstantTrip(info, c);
    if |info.types| == 1 {
      ProductOne(Trip(info, c));
    } else {
      var t := TileSize(info, c);
      SameCeiling(Trip(info, c), t);
      var b := Trips(Trip(info, c), t);
      ProductOne(t);
      ProductOne(b);
      ProductTwo(t, b);
      ProductConcat([t], []);
      ProductConcat([], [b]);
      assert [t] + [] == [t] && [] + [b] == [b];
    }
  }

  lemma {:induction false} ChainRanked(infos: seq<Info>, c: Ctx)
    requires infos != [] && ChainOk(infos, c) && Settled(ToTree(infos)) && AxesComputed(ToTree(infos))
             && CountAll(infos, Inner) <= 3
    ensures Ranked(ToTree(infos), CountAll(infos, Inner))
    decreases |infos|
  {
    CountInner(infos[0].types);
    HeadAxes(infos);
    var t := ToTree(infos);
    if |infos| > 1 {
      assert t.children == [ToTree(infos[1..])];
      assert Settled(t.children[0]) && AxesComputed(t.children[0]);
      ChainRanked(infos[1..], c);
    } else {
      assert CountAll(infos[1..], Inner) == 0;
    }
  }

  predicate ChainConstant(infos: seq<Info>, c: Ctx)
    requires ChainOk(infos, c)
  {
    forall k :: 0 <= k < |infos| ==> Constant(infos[k], c)
  }

  lemma {:induction false} ChainKnown(infos: seq<Info>, c: Ctx)
    requires infos != [] && ChainOk(infos, c) && ChainConstant(infos, c) && Settled(ToTree(infos))
    ensures AllKnown(ToTree(infos))
    decreases |infos|
  {
    ConstantTrip(infos[0], c);
    if |infos| > 1 {
      assert ToTree(infos).children == [ToTree(infos[1..])];
      assert Settled(ToTree(infos).children[0]);
      ChainKnown(infos[1..], c);
    }
  }

  lemma {:induction false} ChainPathProduct(infos: seq<Info>, c: Ctx, v: nat)
    requires infos != [] && ChainOk(infos, c) && ChainConstant(infos, c) && Settled(ToTree(infos))
             && PathProduct(ToTree(infos), v)
    ensures v == ProductOf(GridExtents(infos, c).1)
    decreases |infos|
  {
    var t := ToTree(infos);
    FactorIsExtent(infos[0], c);
    ProductConcat(GridExtents(infos[1..], c).1, OwnExtents(infos[0], c).1);
    if |infos| > 1 {
      assert t.children == [ToTree(infos[1..])];
      var k, u: nat :| 0 <= k < |t.children| && PathProduct(t.children[k], u) && v == Factor(t.info) * u;
      ChainPathProduct(infos[1..], c, u);
      Commute(Factor(t.info), u);
    } else {
      assert GridExtents(infos[1..], c) == ([], []);
      assert 1 * ProductOf(OwnExtents(infos[0], c).1) == ProductOf(OwnExtents(infos[0], c).1);
    }
  }

  lemma {:induction false} Commute(a: int, b: int)
    ensures a * b == b * a
  {
  }

  /** For constant chains the launch bound written on the kernel is the number of threads per block
    * that the launcher asks for. */
  lemma {:induction false} LaunchBoundIsBlockSize(infos: seq<Info>, host: Env, c: Ctx)
    requires infos != [] && ChainOk(infos, c) && ChainLaunched(infos, c) && ChainConstant(infos, c)
    requires Settled(ToTree(infos)) && AxesComputed(ToTree(infos)) && CountAll(infos, Inner) <= 3
    ensures forall k :: 0 <= k < |Collected(ToTree(infos))| ==> TypesOk(Collected(ToTree(infos))[k].types)
    ensures !HasNullOpts(Sizes(ToTree(infos)))
    ensures Product(Sizes(ToTree(infos))) == ProductOf(RunDims(Collected(ToTree(infos)), host, c).1)
  {
    LaunchMatchesGrid(infos, host, c);
    ChainRanked(infos, c);
    ChainKnown(infos, c);
    SizesOnPath(ToTree(infos), CountAll(infos, Inner));
    ChainPathProduct(infos, c, Product(Sizes(ToTree(infos))));
  }
}
