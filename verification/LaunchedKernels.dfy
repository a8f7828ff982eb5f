/** Chains of loops taken through the semantic pass: the launch bound and the `@exclusive` slots of what it leaves. */
module LaunchedKernels {
  import opened LoopLang
  import opened LoopHeader
  import opened LoopTree
  import opened KernelUtils
  import opened Axes
  import opened CudaNest
  import opened GridCoverage
  import opened Launcher
  import opened AnyGrid
  import opened GridLevels
  import opened Branches
  import opened SemaCtx
  import opened SemaRun
  import opened InnerSizes
  import opened LaunchBound
  import opened Exclusive
  import opened ExclusiveNests
  import opened AcceptedKernels

  /** The loops of a chain with the axes that the pass gives them. */
  function SettledChain(infos: seq<Info>): (r: seq<Info>)
    requires forall k :: 0 <= k < |infos| ==> InfoOk(infos[k])
    ensures |r| == |infos|
  {
    if infos == [] then [] else [SettledInfo(ToTree(infos))] + SettledChain(infos[1..])
  }

  lemma {:induction false} ChainInfos(infos: seq<Info>)
    requires infos != [] && InfosOk([ToTree(infos)])
    ensures forall k :: 0 <= k < |infos| ==> InfoOk(infos[k])
    ensures SettleForest([ToTree(infos)]) == [ToTree(SettledChain(infos))]
    decreases |infos|
  {
    var t := ToTree(infos);
    assert [t][1..] == [];
    assert InfoOk(t.info) && InfosOk(t.children);
    if |infos| > 1 {
      assert t.children == [ToTree(infos[1..])];
      ChainInfos(infos[1..]);
      assert forall k :: 1 <= k < |infos| ==> infos[k] == infos[1..][k - 1];
      assert SettledChain(infos)[1..] == SettledChain(infos[1..]);
    }
    assert SettleForest([t]) == [Loop(SettledInfo(t), SettleForest(t.children))] + SettleForest([]);
  }

  predicate SameButAxes(a: Info, b: Info) {
    a.(axes := b.axes) == b
  }

  lemma {:induction false} SettledDiffersInAxes(infos: seq<Info>)
    requires forall k :: 0 <= k < |infos| ==> InfoOk(infos[k])
    ensures forall k :: 0 <= k < |infos| ==> SameButAxes(infos[k], SettledChain(infos)[k])
  {
    if infos != [] {
      SettledDiffersInAxes(infos[1..]);
      forall k | 0 <= k < |infos| ensures SameButAxes(infos[k], SettledChain(infos)[k]) {
        if k > 0 { assert SameButAxes(infos[1..][k - 1], SettledChain(infos[1..])[k - 1]); }
      }
    }
  }

  /** Neither the code nor the extents of a loop depend on the axes recorded in it. */
  lemma {:induction false} AxesDoNotMatter(a: Info, b: Info, c: Ctx)
    requires SameButAxes(a, b) && LoopOk(a, c) && LoopWhole(a, c) && LoopLaunched(a, c)
    ensures LoopOk(b, c) && LoopWhole(b, c) && LoopLaunched(b, c) && OwnExtents(a, c) == OwnExtents(b, c)
    ensures Constant(a, c) <==> Constant(b, c)
    ensures Trip(a, c) == Trip(b, c)
  {
  }

  lemma {:induction false} SettledChainOk(infos: seq<Info>, js: seq<Info>, c: Ctx)
    requires |js| == |infos| && forall k :: 0 <= k < |infos| ==> SameButAxes(infos[k], js[k])
    requires ChainOk(infos, c) && ChainLaunched(infos, c)
    ensures ChainOk(js, c) && ChainLaunched(js, c) && (ChainConstant(infos, c) ==> ChainConstant(js, c))
  {
    forall k | 0 <= k < |js|
      ensures LoopOk(js[k], c) && LoopWhole(js[k], c) && LoopLaunched(js[k], c)
              && (Constant(infos[k], c) ==> Constant(js[k], c))
    {
      AxesDoNotMatter(infos[k], js[k], c);
    }
  }

  lemma {:induction false} SettledExtents(infos: seq<Info>, js: seq<Info>, c: Ctx)
    requires |js| == |infos| && forall k :: 0 <= k < |infos| ==> SameButAxes(infos[k], js[k])
    requires ChainOk(infos, c) && ChainLaunched(infos, c) && ChainOk(js, c)
    ensures GridExtents(js, c) == GridExtents(infos, c)
  {
    if infos != [] {
      AxesDoNotMatter(infos[0], js[0], c);
      SettledExtents(infos[1..], js[1..], c);
    }
  }

  /** Stored axes are hardware axes, so a chain has at most three levels of a type. */
  lemma {:induction false} ThreeLevels(infos: seq<Info>, parent: seq<LoopType>, kind: LoopType)
    requires infos != [] && Passed(ToTree(infos), parent) && kind != Regular
    ensures CountAll(infos, kind) <= 3
    decreases |infos|
  {
    var t, types := ToTree(infos), infos[0].types;
    HeadAxes(infos);
    OwnSizes(types, kind);
    assert forall k :: 0 <= k < |types| ==> AxisHeights(t)[k] <= 2;
    if kind !in types && |infos| > 1 {
      assert t.children == [ToTree(infos[1..])];
      assert Passed(t.children[0], types);
      ThreeLevels(infos[1..], types, kind);
    } else if |infos| == 1 {
      assert infos[1..] == [];
    }
  }

  /** A chain without explicit axes that the pass accepts, and the loop it leaves at the top. */
  ghost predicate ChainPassed(infos: seq<Info>, s: State, t: Loop) {
    infos != [] && PassOf([ToTree(infos)], s) && |s.topLevelLoops| == 1
    && s.topLevelLoops[0] < |s.nodes| && t == Subtree(s.nodes, s.topLevelLoops[0])
  }

  lemma {:induction false} ChainLeaves(infos: seq<Info>, s: State, t: Loop)
    requires ChainPassed(infos, s, t)
    ensures forall k :: 0 <= k < |infos| ==> InfoOk(infos[k])
    ensures t == ToTree(SettledChain(infos)) && Passed(t, [Regular])
    ensures Settled(t) && AxesComputed(t) && CountAll(SettledChain(infos), Inner) <= 3
  {
    KernelRebuilt([ToTree(infos)]);
    PassLeaves([ToTree(infos)], [Regular]);
    ChainInfos(infos);
    assert Passed(SettleForest([ToTree(infos)])[0], [Regular]);
    PassedIsSettled(t, [Regular]);
    ThreeLevels(SettledChain(infos), [Regular], Inner);
  }

  /** For every constant chain that the pass accepts, the launch bound computed from what it leaves is the number of
    * threads per block that the launcher asks for. */
  lemma {:induction false} PassedLaunchBound(infos: seq<Info>, s: State, t: Loop, host: Env, c: Ctx)
    requires ChainPassed(infos, s, t) && ChainOk(infos, c) && ChainLaunched(infos, c) && ChainConstant(infos, c)
    ensures Settled(t) && !HasNullOpts(Sizes(t))
    ensures forall k :: 0 <= k < |Collected(ToTree(infos))| ==> TypesOk(Collected(ToTree(infos))[k].types)
    ensures Product(Sizes(t)) == ProductOf(RunDims(Collected(ToTree(infos)), host, c).1)
  {
    ChainLeaves(infos, s, t);
    var js := SettledChain(infos);
    SettledDiffersInAxes(infos);
    SettledChainOk(infos, js, c);
    SettledExtents(infos, js, c);
    LaunchMatchesGrid(infos, host, c);
    LaunchMatchesGrid(js, host, c);
    LaunchBoundIsBlockSize(js, host, c);
  }

  // ----- all nests of an accepted kernel -----

  lemma {:induction false} OuterTreeOf(ts: seq<Loop>, s: State, k: nat)
    requires PassOf(ts, s) && Verified(OuterTrees(s)) && k < |OuterTrees(s)|
    ensures var t := OuterTrees(s)[k]; WellTyped(t) && Attributed(t) && OnePathOf(t)
  {
    OuterTreesReady(ts, s);
    TreeOfForest(OuterTrees(s), OuterTrees(s)[k]);
  }

  /** In every accepted kernel, each nest is run exactly once over the launched grid if and only if that grid fits. */
  lemma {:induction false} KernelNests(ts: seq<Loop>, s: State, k: nat, nest: seq<Info>, host: Env, env: Env, c: Ctx)
    requires PassOf(ts, s) && Verified(OuterTrees(s)) && k < |OuterTrees(s)|
    requires IsBranch(OuterTrees(s)[k], nest) && ChainOk(nest, c)
    ensures var t := OuterTrees(s)[k];
            && WellTyped(t) && Attributed(t) && OnePathOf(t)
            && (forall j :: 0 <= j < |Collected(t)| ==> TypesOk(Collected(t)[j].types))
            && (RunsOnce(nest, env, c, RunDims(Collected(t), host, c))
                <==> GridFits(nest, LaunchedGrid(t, nest, host, c), c))
  {
    OuterTreeOf(ts, s, k);
    EveryNest(OuterTrees(s)[k], nest, host, env, c);
  }

  // ----- the launched block against the launch bound -----

  /** The product of the inner sizes down the first children. */
  function FirstProduct(t: Loop): nat
    requires WellTyped(t)
  {
    Factor(t.info) * (if t.children == [] then 1 else assert WellTyped(t.children[0]); FirstProduct(t.children[0]))
  }

  /** The loops that ask for threads have constant sizes. */
  predicate ThreadsConstant(infos: seq<Info>, c: Ctx)
    requires ChainOk(infos, c)
  {
    forall k :: 0 <= k < |infos| && Inner in infos[k].types ==> Constant(infos[k], c)
  }

  lemma {:induction false} OwnThreads(info: Info, c: Ctx)
    requires LoopOk(info, c) && (Inner in info.types ==> Constant(info, c))
    ensures ProductOf(OwnExtents(info, c).1) == Factor(info)
  {
    if Inner in info.types {
      FactorIsExtent(info, c);
    } else {
      OwnExtentSizes(info, c);
      OwnSizes(info.types, Inner);
      assert OwnExtents(info, c).1 == [];
    }
  }

  function FactorsOf(infos: seq<Info>): nat
    requires forall k :: 0 <= k < |infos| ==> TypesOk(infos[k].types)
  {
    if infos == [] then 1 else Factor(infos[0]) * FactorsOf(infos[1..])
  }

  lemma {:induction false} ThreadsOf(infos: seq<Info>, c: Ctx)
    requires ChainOk(infos, c) && ThreadsConstant(infos, c)
    ensures ProductOf(GridExtents(infos, c).1) == FactorsOf(infos)
  {
    if infos != [] {
      ThreadsOf(infos[1..], c);
      OwnThreads(infos[0], c);
      ProductConcat(GridExtents(infos[1..], c).1, OwnExtents(infos[0], c).1);
    }
  }

  lemma {:induction false} FactorsCollected(t: Loop)
    requires WellTyped(t)
    ensures forall k :: 0 <= k < |Collected(t)| ==> TypesOk(Collected(t)[k].types)
    ensures FactorsOf(Collected(t)) == FirstProduct(t)
  {
    CollectedTyped(t);
    var rest := if t.children == [] then [] else Collected(t.children[0]);
    if t.children != [] {
      assert WellTyped(t.children[0]);
      FactorsCollected(t.children[0]);
    }
    OwnFactor(t, rest);
  }

  lemma {:induction false} OwnFactor(t: Loop, rest: seq<Info>)
    requires TypesOk(t.info.types) && forall k :: 0 <= k < |rest| ==> TypesOk(rest[k].types)
    ensures FactorsOf((if Attributed(t) then [t.info] else []) + rest) == Factor(t.info) * FactorsOf(rest)
  {
    if Attributed(t) {
      assert ([t.info] + rest)[1..] == rest;
    } else {
      assert [] + rest == rest && Factor(t.info) == 1;
    }
  }

  lemma {:induction false} FirstBelowMax(t: Loop)
    requires WellTyped(t) && Settled(t) && AllKnown(t)
    ensures FirstProduct(t) <= MaxProduct(t)
    decreases t
  {
    if t.children != [] {
      var first := t.children[0];
      assert WellTyped(first) && Settled(first);
      FirstBelowMax(first);
      LargestFacts(t.children);
      MulMono(Factor(t.info), FirstProduct(first), LargestOf(t.children));
    }
  }

  /** The launcher asks for the product down the first children. In an accepted kernel of known sizes that is at most
    * the launch bound if and only if it is at most the product kept; it is wherever every kept child is largest. */
  lemma {:induction false} KernelBlock(ts: seq<Loop>, s: State, k: nat, host: Env, c: Ctx)
    requires PassOf(ts, s) && Verified(OuterTrees(s)) && k < |OuterTrees(s)|
    requires var loops := Collected(OuterTrees(s)[k]);
             ChainOk(loops, c) && ChainLaunched(loops, c) && ThreadsConstant(loops, c)
    ensures var t := OuterTrees(s)[k];
            && WellTyped(t) && Settled(t)
            && (forall j :: 0 <= j < |Collected(t)| ==> TypesOk(Collected(t)[j].types))
            && var block := ProductOf(RunDims(Collected(t), host, c).1);
               && block == FirstProduct(t)
               && (AllKnown(t) && KeepsLargest(t) ==> block <= Product(Sizes(t)))
               && (AllKnown(t) && t.children != [] ==>
                     (block <= Product(Sizes(t)) <==> FirstIsKept(t)))
  {
    var t := OuterTrees(s)[k];
    OuterTreeOf(ts, s, k);
    CollectedExtents(t, host, c);
    ThreadsOf(Collected(t), c);
    FactorsCollected(t);
    var h := AcceptedRank(ts, s, k);
    if AllKnown(t) {
      FirstBelowMax(t);
      MaxExactly(t, h);
      if t.children != [] { KeptComparison(t, h); }
    }
  }

  /** The first children of some child are no more than the paths kept. */
  predicate FirstIsKept(t: Loop)
    requires WellTyped(t) && Settled(t) && t.children != []
  {
    match LastRise(Products(t.children), 0)
    case None => false
    case Some(k) =>
      k < |t.children|
      && (assert WellTyped(t.children[0]) && Settled(t.children[k]);
          FirstProduct(t.children[0]) <= Product(Sizes(t.children[k])))
  }

  lemma {:induction false} KeptComparison(t: Loop, h: nat)
    requires WellTyped(t) && Settled(t) && Ranked(t, h) && AllKnown(t) && t.children != []
    ensures FirstProduct(t) <= Product(Sizes(t)) <==> FirstIsKept(t)
  {
    var k := KeptAt(t, h);
    assert WellTyped(t.children[0]);
    var f, a, b := Factor(t.info), FirstProduct(t.children[0]), Product(Sizes(t.children[k]));
    assert FirstProduct(t) == f * a;
    CancelOrder(f, a, b);
  }

  lemma {:induction false} CancelOrder(f: nat, a: nat, b: nat)
    requires f >= 1
    ensures f * a <= f * b <==> a <= b
  {
    if a <= b {
      MulMono(f, a, b);
    } else {
      MulMono(f, b + 1, a);
      assert f * (b + 1) == f * b + f;
    }
  }

  // ----- @exclusive in the loops of an accepted kernel -----

  /** The loop is `t` or lies inside it. */
  predicate Inside(o: Loop, t: Loop) {
    o == t || exists k :: 0 <= k < |t.children| && Inside(o, t.children[k])
  }

  lemma {:induction false} InsideRanked(o: Loop, t: Loop, h: nat) returns (g: nat)
    requires Inside(o, t) && Settled(t) && Ranked(t, h)
    ensures Settled(o) && Ranked(o, g)
    decreases t
  {
    if o == t {
      g := h;
    } else {
      var k :| 0 <= k < |t.children| && Inside(o, t.children[k]);
      g := InsideRanked(o, t.children[k], h - Count(t.info.types, Inner));
    }
  }

  /** In every accepted kernel, where an @exclusive variable may be declared around plain loops of known sizes: a nest
    * stays inside the declared array if and only if it reaches no further than the product kept for some child of the
    * outer loop. Nests that do not branch all do if and only if the largest product of all is kept. */
  lemma {:induction false} KernelExclusive(ts: seq<Loop>, s: State, k: nat, o: Loop, length: nat, c: Ctx)
    requires PassOf(ts, s) && Verified(OuterTrees(s)) && k < |OuterTrees(s)| && Inside(o, OuterTrees(s)[k])
    requires MayDeclare(o) && PlainTrees(o.children, c)
    ensures AllSettled(o.children) && PlainTrees(Frontier(o.children), c)
    ensures IsDeclared(o.children, length) ==>
              forall j :: 0 <= j < |Frontier(o.children)| ==> NestHeld(o.children, j, length, c)
    ensures IsDeclared(o.children, length) && NestChains(o.children, c) ==>
              (AllInside(o.children, length, c) <==> SomeKeepsLargest(o.children))
  {
    var h := AcceptedRank(ts, s, k);
    var below := RankedInside(o, OuterTrees(s)[k], h);
    NestsArePlain(o.children, c);
    if IsDeclared(o.children, length) {
      forall j | 0 <= j < |Frontier(o.children)| ensures NestHeld(o.children, j, length, c) {
        NestFits(o.children, Frontier(o.children)[j], below, length, c);
      }
      assert o.children != [];
      if NestChains(o.children, c) { ChainsFitExactly(o.children, below, length, c); }
    }
  }

  /** Nest j stays inside exactly if it should. */
  ghost predicate NestHeld(ts: seq<Loop>, j: nat, length: nat, c: Ctx)
    requires AllSettled(ts) && PlainTrees(Frontier(ts), c) && j < |Frontier(ts)|
  {
    InsideAt(ts, j, length, c) <==> HeldBySome(ts, j, c)
  }

  /** Nests directly in the outer loop: those that do not branch fit, and a lone one that branches does not. */
  lemma {:induction false} DirectNests(ts: seq<Loop>, s: State, k: nat, o: Loop, length: nat, c: Ctx)
    requires PassOf(ts, s) && Verified(OuterTrees(s)) && k < |OuterTrees(s)| && Inside(o, OuterTrees(s)[k])
    requires MayDeclare(o) && InnerNests(o.children, c)
    ensures AllSettled(o.children)
    ensures IsDeclared(o.children, length) && (forall j :: 0 <= j < |o.children| ==> Branchless(o.children[j]))
            ==> AllInside(o.children, length, c)
    ensures IsDeclared(o.children, length) && |o.children| == 1
            ==> (SlotsInside(o.children[0], length, c) <==> Branchless(o.children[0]))
  {
    var h := AcceptedRank(ts, s, k);
    var below := RankedInside(o, OuterTrees(s)[k], h);
    if IsDeclared(o.children, length) { DirectFit(o.children, below, length, c); }
  }

  lemma {:induction false} DirectFit(ts: seq<Loop>, h: nat, length: nat, c: Ctx)
    requires InnerNests(ts, c) && AllSettled(ts) && IsDeclared(ts, length)
    requires forall j :: 0 <= j < |ts| ==> Settled(ts[j]) && Ranked(ts[j], h)
    ensures (forall j :: 0 <= j < |ts| ==> Branchless(ts[j])) ==> AllInside(ts, length, c)
    ensures |ts| == 1 ==> (SlotsInside(ts[0], length, c) <==> Branchless(ts[0]))
  {
    if forall j :: 0 <= j < |ts| ==> Branchless(ts[j]) { ChainsFit(ts, h, length, c); }
    if |ts| == 1 {
      assert ts == [ts[0]];
      LoneNestFits(ts[0], h, length, c);
    }
  }

  lemma {:induction false} RankedInside(o: Loop, t: Loop, h: nat) returns (below: nat)
    requires Inside(o, t) && Settled(t) && Ranked(t, h)
    ensures AllSettled(o.children)
    ensures forall j :: 0 <= j < |o.children| ==> Settled(o.children[j]) && Ranked(o.children[j], below)
  {
    var g := InsideRanked(o, t, h);
    below := g - Count(o.info.types, Inner);
  }
}
