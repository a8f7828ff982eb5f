/** Accepted kernels in which `@exclusive` variables leave their arrays. */
module ExclusiveExamples {
  import opened LoopLang
  import opened LoopHeader
  import opened LoopTree
  import opened KernelUtils
  import opened LoopLegality
  import opened SemaCtx
  import opened SemaRun
  import opened InnerSizes
  import opened CudaNest
  import opened Exclusive
  import opened ExclusiveNests
  import opened AcceptedKernels
  import opened LaunchedKernels
  import opened KernelExamples

  // ----- a branching nest runs out of its @exclusive array -----

  const E4 := Plain(2, Inner, 4, [])
  const F4 := Plain(3, Inner, 4, [])
  const G2 := Plain(1, Inner, 2, [E4, F4])
  const FORK := Plain(0, Outer, 1, [G2])

  const UE4 := Axed(E4, X, [])
  const UF4 := Axed(F4, X, [])
  const UG2 := Axed(G2, Y, [UE4, UF4])
  const UFORK := Axed(FORK, X, [UG2])

  lemma {:induction false} ForkLeaves()
    ensures Settles(G2.children, UG2.children, [Inner]) && Stmts(G2.children) == [2, 3]
  {
    LeafSettles(2, 4);
    LeafSettles(3, 4);
    SettlesCons(E4, [F4], [UE4], [UF4], [Inner]);
    assert [E4] + [F4] == [E4, F4] && [UE4] + [UF4] == [UE4, UF4];
  }

  lemma {:induction false} ForkInner()
    ensures Settles([G2], [UG2], [Outer]) && Stmts([G2]) == [1, 2, 3]
  {
    ForkLeaves();
    ForkHeights();
    KindOf(Outer);
    KindOf(Inner);
    PlainSettles(1, Inner, 2, G2.children, UG2.children, [Outer]);
    assert [1] + [2, 3] == [1, 2, 3];
  }

  lemma {:induction false} ForkSettles()
    ensures Settles([FORK], [UFORK], [Regular]) && Fresh(map[], Stmts([FORK]))
  {
    ForkInner();
    ForkHeights();
    OuterSettles(FORK.children, UFORK.children);
  }

  lemma {:induction false} ForkHeights()
    ensures HeightSameType(G2, Inner) == 1 && HeightSameType(FORK, Outer) == 0
  {
    KindOf(Inner);
    LeafHeight(E4, Inner);
    LeafHeight(E4, Outer);
    assert FirstAttributed(G2) == Some(E4);
    assert FirstAttributed(FORK) == Some(G2);
    HeightStep(G2, E4, Inner);
    HeightStep(G2, E4, Outer);
    HeightStep(FORK, G2, Outer);
  }

  lemma {:induction false} ForkPaths(p: seq<LoopType>)
    requires IsPath(UFORK, p)
    ensures p == [Outer, Inner, Inner]
  {
    KindOf(Outer);
    assert Attributed(UG2) by { KindOf(Inner); }
    AttributedFrontier([UG2]);
    var x, rest := PathChild(UFORK, p);
    assert x == UG2;
    ForkInnerPaths(rest);
  }

  lemma {:induction false} ForkInnerPaths(p: seq<LoopType>)
    requires IsPath(UG2, p)
    ensures p == [Inner, Inner]
  {
    KindOf(Inner);
    assert Frontier(UG2.children) == [UE4, UF4] by { AttributedFrontier([UE4, UF4]); }
    var x, rest := PathChild(UG2, p);
    assert x == UE4 || x == UF4;
    LeafReads(x, rest);
  }

  lemma {:induction false} PlainNest(t: Loop, n: nat, c: Ctx)
    requires t.info.types == [Inner] && t.info.head == Header("i", Lit(0), Lt, Lit(n), Unary(PreInc))
             && t.info.size == Lit(1)
    requires t.info.rangeSize == n > 0 && InnerNests(t.children, c)
    ensures InnerNest(t, c) && Trip(t.info, c) == n
  {
    KindOf(Inner);
    var w := HostWalk(t.info, c);
    assert w.step == 1 && Len(w) == n;
    TripsUnique(n, 1, n);
  }

  /** Two nests of 4 inside one loop of 2 pass every check; a length declared for them is too small for the slots. */
  lemma {:induction false} ForkLeavesArray(length: nat, c: Ctx) returns (s: State)
    requires AllSettled(UFORK.children) && IsDeclared(UFORK.children, length)
    ensures PassOf([FORK], s) && OuterTrees(s) == [UFORK] && Verified(OuterTrees(s)) && MayDeclare(UFORK)
    ensures InnerNest(UG2, c) && !SlotsInside(UG2, length, c)
  {
    s := ForkAccepted();
    ForkNest(c);
    var k: nat := 0;
    assert OuterTrees(s)[k] == UFORK;
    DirectNests([FORK], s, k, UFORK, length, c);
  }

  lemma {:induction false} ForkNest(c: Ctx)
    ensures InnerNests(UFORK.children, c) && !Branchless(UG2) && MayDeclare(UFORK)
  {
    PlainNest(UE4, 4, c);
    PlainNest(UF4, 4, c);
    PlainNest(UG2, 2, c);
    assert Attributed(UG2) by { KindOf(Inner); }
    assert FirstAttributed(UFORK) == Some(UG2);
  }

  lemma {:induction false} ForkAccepted() returns (s: State)
    ensures PassOf([FORK], s) && OuterTrees(s) == [UFORK] && Verified(OuterTrees(s))
  {
    ForkSettles();
    s := OneOuter(FORK, UFORK);
    forall p | IsPath(UFORK, p) ensures p == [Outer, Inner, Inner] { ForkPaths(p); }
    OneTreeSignature(UFORK, [Outer, Inner, Inner]);
    OuterTreesReady([FORK], s);
    assert HasInner(UG2);
    assert Search(UFORK.children, HasInner) == Some(UG2);
  }

  // ----- an ordinary loop around the nests hides the largest one -----

  const W := Plain(4, Regular, 3, DIP.children)
  const VEILED := Plain(0, Outer, 1, [W])

  const UW := Axed(W, X, UDIP.children)
  const UVEILED := Axed(VEILED, X, [UW])

  lemma {:induction false} VeiledHeights()
    ensures HeightSameType(W, Regular) == 0 && HeightSameType(VEILED, Outer) == 0
  {
    KindOf(Inner);
    KindOf(Regular);
    LeafHeight(A8, Regular);
    LeafHeight(A8, Outer);
    assert FirstAttributed(W) == Some(A8);
    assert !Attributed(W) && [W][1..] + W.children == W.children;
    assert FirstAttributed(VEILED) == Search(W.children, Attributed) == Some(A8);
    HeightStep(W, A8, Regular);
    HeightStep(VEILED, A8, Outer);
  }

  lemma {:induction false} VeiledSettles()
    ensures Settles([VEILED], [UVEILED], [Regular]) && Fresh(map[], Stmts([VEILED]))
  {
    VeiledHeights();
    DipChildren([Regular]);
    assert Legal([Regular], [Outer]) && Legal([Outer], [Regular]) by {
      KindOf(Outer);
      KindOf(Regular);
    }
    PlainSettles(4, Regular, 3, DIP.children, UDIP.children, [Outer]);
    PlainSettles(0, Outer, 1, [W], [UW], [Regular]);
    FiveFresh();
  }

  lemma {:induction false} FiveFresh()
    ensures Fresh(map[], [0] + ([4] + [1, 2, 3]))
  {
    assert [0] + ([4] + [1, 2, 3]) == [0, 4, 1, 2, 3];
  }

  lemma {:induction false} VeiledNests()
    ensures Frontier(UVEILED.children) == UDIP.children && FirstAttributed(UVEILED) == Some(UA8)
  {
    VeiledKinds();
    AttributedFrontier(UDIP.children);
    assert [UW][1..] == [] && UW.children == UDIP.children;
    assert Frontier([UW]) == Frontier(UDIP.children) + Frontier([]);
    VeiledFirst();
  }

  lemma {:induction false} VeiledKinds()
    ensures !Attributed(UW) && forall k :: 0 <= k < 3 ==> Attributed(UDIP.children[k])
  {
    KindOf(Inner);
    KindOf(Regular);
  }

  lemma {:induction false} VeiledFirst()
    ensures FirstAttributed(UVEILED) == Some(UA8)
  {
    VeiledKinds();
    assert [UW][1..] + UW.children == UDIP.children && UDIP.children[0] == UA8;
    assert Search(UDIP.children, Attributed) == Some(UA8);
  }

  lemma {:induction false} VeiledPaths(p: seq<LoopType>)
    requires IsPath(UVEILED, p)
    ensures p == [Outer, Inner]
  {
    KindOf(Outer);
    KindOf(Inner);
    VeiledNests();
    var x, rest := PathChild(UVEILED, p);
    LeafReads(x, rest);
  }

  lemma {:induction false} VeiledAccepted() returns (s: State)
    ensures PassOf([VEILED], s) && OuterTrees(s) == [UVEILED] && Verified(OuterTrees(s))
  {
    VeiledSettles();
    s := OneOuter(VEILED, UVEILED);
    forall p | IsPath(UVEILED, p) ensures p == [Outer, Inner] { VeiledPaths(p); }
    OneTreeSignature(UVEILED, [Outer, Inner]);
    OuterTreesReady([VEILED], s);
    assert HasInner(UA8) && !HasInner(UW);
    assert [UW][1..] + UW.children == UDIP.children;
    assert Search(UVEILED.children, HasInner) == Search(UDIP.children, HasInner) == Some(UA8);
  }

  lemma {:induction false} VeiledTrees(c: Ctx)
    ensures PlainTrees(UVEILED.children, c)
    ensures NestChains(UVEILED.children, c)
  {
    VeiledLeaves(c);
    assert PlainTree(UW, c) by { VeiledLoopOk(c); }
    VeiledNests();
  }

  lemma {:induction false} VeiledLeaves(c: Ctx)
    ensures InnerNests(UDIP.children, c) && forall k :: 0 <= k < 3 ==> Branchless(UDIP.children[k])
  {
    PlainLeaf(UA8, 1, 8, c);
    PlainLeaf(UB1, 2, 1, c);
    PlainLeaf(UC4, 3, 4, c);
    ThreeNests(UDIP.children, c);
  }

  lemma {:induction false} ThreeNests(ts: seq<Loop>, c: Ctx)
    requires |ts| == 3 && InnerNest(ts[0], c) && InnerNest(ts[1], c) && InnerNest(ts[2], c)
    ensures InnerNests(ts, c)
  {
  }

  lemma {:induction false} PlainLeaf(t: Loop, stmt: nat, n: nat, c: Ctx)
    requires t == Axed(Plain(stmt, Inner, n, []), X, []) && n > 0
    ensures InnerNest(t, c) && Branchless(t)
  {
    PlainNest(t, n, c);
  }

  lemma {:induction false} VeiledLoopOk(c: Ctx)
    ensures LoopOk(UW.info, c)
  {
    assert UW.info.types[0] == Regular;
  }

  /** An ordinary loop around nests of 8, 1 and 4: none of them branches or repeats, and the array declared has 4
    * elements. */
  lemma {:induction false} VeiledLeavesArray(length: nat, c: Ctx) returns (s: State)
    requires AllSettled(UVEILED.children) && IsDeclared(UVEILED.children, length)
    ensures PassOf([VEILED], s) && OuterTrees(s) == [UVEILED] && Verified(OuterTrees(s)) && MayDeclare(UVEILED)
    ensures PlainTrees(UVEILED.children, c) && NestChains(UVEILED.children, c) && UA8 in Frontier(UVEILED.children)
    ensures length == 4 && PlainTree(UA8, c) && Branchless(UA8) && !SlotsInside(UA8, length, c)
  {
    s := VeiledAccepted();
    VeiledNests();
    VeiledTrees(c);
    VeiledLength(length);
    VeiledOverflows(length, c);
  }

  lemma {:induction false} VeiledLength(length: nat)
    requires AllSettled(UVEILED.children) && IsDeclared(UVEILED.children, length)
    ensures length == 4
  {
    DipKeepsLast();
    assert UVEILED.children[0] == UW;
    assert Sizes(UW) == WithOwn(UW.info, KeptSizes(UDIP.children, 0, ONES));
    assert Product(Sizes(UW)) == 4;
  }

  lemma {:induction false} VeiledOverflows(length: nat, c: Ctx)
    requires length == 4
    ensures PlainTree(UA8, c) && Branchless(UA8) && !SlotsInside(UA8, length, c)
  {
    PlainNest(UA8, 8, c);
    assert LeafRuns(UA8, c) == 8 * 1;
    NestReach(UA8, c);
    FitsExactly(UA8, length, c);
  }
}
