/** Accepted kernels with a nest that the launched grid does not fit. */
module BranchExamples {
  import opened LoopLang
  import opened LoopHeader
  import opened LoopTree
  import opened KernelUtils
  import opened Axes
  import opened LoopLegality
  import opened SemaCtx
  import opened SemaRun
  import opened CudaNest
  import opened GridCoverage
  import opened Launcher
  import opened InnerSizes
  import opened LaunchBound
  import opened GridLevels
  import opened AnyGrid
  import opened Branches
  import opened AcceptedKernels
  import opened KernelExamples

  /** The nests of 8 and of 4 in an outer loop around nests of 8, 1 and 4. */
  const FIRST := [UDIP.info, UA8.info]
  const LAST := [UDIP.info, UC4.info]

  lemma {:induction false} PlainLoop(info: Info, n: nat, c: Ctx)
    requires |info.types| == 1 && info.size == Lit(1) && n > 0
    requires info.head == Header("i", Lit(0), Lt, Lit(n), Unary(PreInc))
    ensures LoopOk(info, c) && LoopWhole(info, c) && LoopLaunched(info, c) && Trip(info, c) == n
    ensures OwnExtents(info, c) == Placed(info.types[0], n)
  {
    assert TypesOk(info.types);
    var w := HostWalk(info, c);
    assert w.step == 1 && Len(w) == n;
    TripsUnique(n, 1, n);
  }

  lemma {:induction false} DipChain(infos: seq<Info>, t: Loop, n: nat, c: Ctx)
    requires infos == [UDIP.info, t.info] && t.info.types == [Inner] && t.info.size == Lit(1) && n > 0
    requires t.info.head == Header("i", Lit(0), Lt, Lit(n), Unary(PreInc))
    ensures ChainOk(infos, c) && ChainLaunched(infos, c) && PlainChain(infos) && !SomeIdle(infos, c)
    ensures GridExtents(infos, c) == ([1], [n])
  {
    PlainLoop(UDIP.info, 1, c);
    PlainLoop(t.info, n, c);
    assert infos[1..] == [t.info] && [t.info][1..] == [];
    assert GridExtents([t.info], c) == Both(GridExtents([], c), ([], [n]));
    Gather(n);
    assert GridExtents(infos, c) == Both(GridExtents([t.info], c), ([1], []));
    assert !IsRegular(UDIP.info.types) by { assert UDIP.info.types[0] == Outer; }
    assert !IsRegular(t.info.types) by { assert t.info.types[0] == Inner; }
  }

  lemma {:induction false} Gather(n: int)
    ensures Both(([], []), ([], [n])) == ([], [n]) && Both(([], [n]), ([1], [])) == ([1], [n])
    ensures Both(([], []), ([1], [])) == ([1], [])
  {
    var none: seq<int> := [];
    assert none + none == none && none + [n] == [n] && [n] + none == [n] && none + [1] == [1];
  }

  lemma {:induction false} DipBranch(infos: seq<Info>, k: nat)
    requires k < 3 && infos == [UDIP.info, UDIP.children[k].info]
    ensures IsBranch(UDIP, infos)
  {
    var x := UDIP.children[k];
    assert x.info.types[0] == Inner && infos[1..] == [x.info];
    assert IsBranch(UDIP.children[k], infos[1..]);
  }

  /** The grid of 8 threads does not run the nest of 4 exactly once; the pass accepts the kernel. */
  lemma {:induction false} LastNestStrays(host: Env, env: Env, c: Ctx)
    ensures WellTyped(UDIP) && Attributed(UDIP) && OnePathOf(UDIP)
    ensures IsBranch(UDIP, LAST) && ChainOk(LAST, c)
    ensures forall k :: 0 <= k < |Collected(UDIP)| ==> TypesOk(Collected(UDIP)[k].types)
    ensures !RunsOnce(LAST, env, c, RunDims(Collected(UDIP), host, c))
  {
    DipTree();
    DipChain(FIRST, UA8, 8, c);
    DipChain(LAST, UC4, 4, c);
    DipBranch(LAST, 2);
    DipCollected();
    SiblingNests(UDIP, LAST, host, env, c);
    EightIsNotFour(GridExtents(FIRST, c), c);
  }

  lemma {:induction false} EightIsNotFour(grid: (seq<int>, seq<int>), c: Ctx)
    requires grid == ([1], [8])
    ensures Pad(grid, LAST, 1) != ([1], [4])
  {
    assert Pad(grid, LAST, 1).1[0] == 8;
  }

  lemma {:induction false} DipCollected()
    ensures Collected(UDIP) == FIRST
  {
    assert UDIP.info.types[0] == Outer && UA8.info.types[0] == Inner;
    assert UDIP.children[0] == UA8 && Collected(UA8) == [UA8.info] + [];
  }

  lemma {:induction false} DipTree()
    ensures WellTyped(UDIP) && Attributed(UDIP) && OnePathOf(UDIP)
  {
    assert UDIP.info.types[0] == Outer;
    forall k | 0 <= k < |UDIP.children| ensures WellTyped(UDIP.children[k]) { DipLeaf(k); }
    forall p, q | IsPath(UDIP, p) && IsPath(UDIP, q) ensures p == q {
      OuterAroundLeaves(UDIP, p);
      OuterAroundLeaves(UDIP, q);
    }
  }

  lemma {:induction false} DipLeaf(k: nat)
    requires k < 3
    ensures UDIP.children[k].info.types == [Inner] && UDIP.children[k].children == []
  {
  }

  /** And it asks for 8 threads, while the launch bound is 4. */
  lemma {:induction false} BlockBeyondBound(host: Env, c: Ctx) returns (s: State)
    ensures PassOf([DIP], s) && OuterTrees(s) == [UDIP] && Verified(OuterTrees(s)) && Settled(UDIP)
    ensures forall k :: 0 <= k < |Collected(UDIP)| ==> TypesOk(Collected(UDIP)[k].types)
    ensures ProductOf(RunDims(Collected(UDIP), host, c).1) == 8 && Product(Sizes(UDIP)) == 4
  {
    s := RiseAfterFallLosesMaximum();
    DipBlock(host, c);
  }

  lemma {:induction false} DipBlock(host: Env, c: Ctx)
    ensures forall k :: 0 <= k < |Collected(UDIP)| ==> TypesOk(Collected(UDIP)[k].types)
    ensures ProductOf(RunDims(Collected(UDIP), host, c).1) == 8
  {
    DipTree();
    DipChain(FIRST, UA8, 8, c);
    DipCollected();
    CollectedExtents(UDIP, host, c);
    ProductOne(8);
  }

  // ----- an ordinary first child hides the only nest from the launcher -----

  const J4 := Plain(2, Inner, 4, [])
  const UIDLE := Axed(IDLE, X, [])
  const UJ4 := Axed(J4, X, [])
  const UBLAMED := Axed(BLAMED, X, [UIDLE, UJ4])

  const ONLY := [UBLAMED.info, UJ4.info]

  lemma {:induction false} BlamedHeights()
    ensures HeightSameType(IDLE, Regular) == 0 && HeightSameType(BLAMED, Outer) == 0
  {
    KindOf(Inner);
    LeafHeight(IDLE, Regular);
    LeafHeight(J4, Outer);
    BlamedFrontier();
    assert BLAMED.children == [IDLE, J4] && BLAMED.children[1..] + IDLE.children == [J4];
    assert Attributed(J4) && FirstAttributed(BLAMED) == Search([J4], Attributed) == Some(J4);
    HeightStep(BLAMED, J4, Outer);
  }

  lemma {:induction false} BlamedChildren()
    ensures Settles(BLAMED.children, UBLAMED.children, [Outer]) && Stmts(BLAMED.children) == [1, 2]
  {
    BlamedHeights();
    assert Legal([Regular], [Outer]) by {
      KindOf(Outer);
      KindOf(Regular);
    }
    PlainSettles(1, Regular, 1, [], [], [Outer]);
    LeafSettles(2, 4);
    SettlesCons(IDLE, [J4], [UIDLE], [UJ4], [Outer]);
    assert [IDLE] + [J4] == BLAMED.children && [UIDLE] + [UJ4] == UBLAMED.children;
    assert ([1] + []) + [2] == [1, 2];
  }

  lemma {:induction false} BlamedSettles()
    ensures Settles([BLAMED], [UBLAMED], [Regular]) && Fresh(map[], Stmts([BLAMED]))
  {
    BlamedHeights();
    BlamedChildren();
    assert Legal([Outer], [Regular]) by { KindOf(Outer); }
    PlainSettles(0, Outer, 1, BLAMED.children, UBLAMED.children, [Regular]);
    assert [0] + [1, 2] == [0, 1, 2];
  }

  lemma {:induction false} HiddenNestFrontier()
    ensures Frontier(UBLAMED.children) == [UJ4] && Frontier(UJ4.children) == [] && !Attributed(UIDLE) && Attributed(UJ4)
  {
    KindOf(Inner);
    KindOf(Regular);
    AttributedFrontier([UJ4]);
    assert UBLAMED.children[1..] == [UJ4];
    assert Frontier(UBLAMED.children) == Frontier(UIDLE.children) + Frontier([UJ4]);
  }

  lemma {:induction false} HiddenNestPaths(p: seq<LoopType>)
    requires IsPath(UBLAMED, p)
    ensures p == [Outer, Inner]
  {
    KindOf(Outer);
    KindOf(Inner);
    HiddenNestFrontier();
    var x, rest := PathChild(UBLAMED, p);
    LeafReads(UJ4, rest);
  }

  lemma {:induction false} HiddenNestAccepted() returns (s: State)
    ensures PassOf([BLAMED], s) && OuterTrees(s) == [UBLAMED] && Verified(OuterTrees(s))
  {
    BlamedSettles();
    s := OneOuter(BLAMED, UBLAMED);
    forall p | IsPath(UBLAMED, p) ensures p == [Outer, Inner] { HiddenNestPaths(p); }
    OneTreeSignature(UBLAMED, [Outer, Inner]);
    OuterTreesReady([BLAMED], s);
    HiddenNestInner();
  }

  lemma {:induction false} HiddenNestInner()
    ensures InnerPresent(UBLAMED)
  {
    assert HasInner(UJ4) && !HasInner(UIDLE);
    assert UBLAMED.children[1..] + UIDLE.children == [UJ4];
    assert Search(UBLAMED.children, HasInner) == Search([UJ4], HasInner) == Some(UJ4);
  }

  lemma {:induction false} HiddenNestTree()
    ensures WellTyped(UBLAMED) && Attributed(UBLAMED) && OnePathOf(UBLAMED) && IsBranch(UBLAMED, ONLY)
    ensures Collected(UBLAMED) == [UBLAMED.info]
  {
    assert UBLAMED.info.types[0] == Outer;
    assert WellTyped(UBLAMED.children[0]) && WellTyped(UBLAMED.children[1]);
    forall p, q | IsPath(UBLAMED, p) && IsPath(UBLAMED, q) ensures p == q {
      HiddenNestPaths(p);
      HiddenNestPaths(q);
    }
    HiddenNestFrontier();
    assert ONLY[1..] == [UJ4.info] && IsBranch(UBLAMED.children[1], ONLY[1..]);
    NoneCollected(UIDLE);
    assert UBLAMED.children[0] == UIDLE && [UBLAMED.info] + [] == [UBLAMED.info];
  }

  /** An accepted kernel of one nest of 4 behind an ordinary loop: the launcher asks for no thread axis at all, and the
    * nest is not run exactly once. */
  lemma {:induction false} HiddenNestMissed(host: Env, env: Env, c: Ctx) returns (s: State)
    ensures PassOf([BLAMED], s) && OuterTrees(s) == [UBLAMED] && Verified(OuterTrees(s))
    ensures IsBranch(UBLAMED, ONLY) && ChainOk(ONLY, c) && GridExtents(ONLY, c) == ([1], [4])
    ensures forall k :: 0 <= k < |Collected(UBLAMED)| ==> TypesOk(Collected(UBLAMED)[k].types)
    ensures RunDims(Collected(UBLAMED), host, c) == ([1], [])
    ensures !RunsOnce(ONLY, env, c, RunDims(Collected(UBLAMED), host, c))
  {
    s := HiddenNestAccepted();
    HiddenNestStrays(host, env, c);
  }

  lemma {:induction false} HiddenNestStrays(host: Env, env: Env, c: Ctx)
    ensures IsBranch(UBLAMED, ONLY) && ChainOk(ONLY, c) && GridExtents(ONLY, c) == ([1], [4])
    ensures forall k :: 0 <= k < |Collected(UBLAMED)| ==> TypesOk(Collected(UBLAMED)[k].types)
    ensures RunDims(Collected(UBLAMED), host, c) == ([1], [])
    ensures !RunsOnce(ONLY, env, c, RunDims(Collected(UBLAMED), host, c))
  {
    HiddenNestTree();
    HiddenNestChain(c);
    CollectedExtents(UBLAMED, host, c);
    SiblingNests(UBLAMED, ONLY, host, env, c);
    assert CountAll(ONLY, Inner) == 1 by { GridSizes(ONLY, c); }
    assert Pad(([1], []), ONLY, 1).1[0] == 1;
  }

  lemma {:induction false} HiddenNestLoops(c: Ctx)
    ensures ChainOk(ONLY, c) && PlainChain(ONLY) && !SomeIdle(ONLY, c)
    ensures ChainOk([UBLAMED.info], c) && ChainLaunched([UBLAMED.info], c)
    ensures OwnExtents(UBLAMED.info, c) == ([1], []) && OwnExtents(UJ4.info, c) == ([], [4])
  {
    PlainLoop(UBLAMED.info, 1, c);
    PlainLoop(UJ4.info, 4, c);
  }

  lemma {:induction false} HiddenNestChain(c: Ctx)
    ensures ChainOk(ONLY, c) && PlainChain(ONLY) && !SomeIdle(ONLY, c) && GridExtents(ONLY, c) == ([1], [4])
    ensures ChainOk([UBLAMED.info], c) && ChainLaunched([UBLAMED.info], c)
    ensures GridExtents([UBLAMED.info], c) == ([1], [])
  {
    HiddenNestLoops(c);
    assert ONLY[1..] == [UJ4.info] && [UJ4.info][1..] == [] && [UBLAMED.info][1..] == [];
    Gather(4);
    assert GridExtents([UJ4.info], c) == Both(GridExtents([], c), ([], [4]));
    assert GridExtents(ONLY, c) == Both(GridExtents([UJ4.info], c), ([1], []));
    assert GridExtents([UBLAMED.info], c) == Both(GridExtents([], c), ([1], []));
  }
}
