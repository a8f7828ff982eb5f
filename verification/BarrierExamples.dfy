/** Accepted kernels: one that needs a barrier and gets none, and one that gets a barrier inside a nest. */
module BarrierExamples {
  import opened LoopLang
  import opened LoopHeader
  import opened LoopTree
  import opened KernelUtils
  import opened LoopLegality
  import opened SemaCtx
  import opened SemaRun
  import opened AcceptedKernels
  import opened Barriers
  import opened BarrierWalk
  import opened KernelExamples

  // ----- one block repeats an outer loop -----

  const N4 := Plain(3, Inner, 4, [])
  const O3 := Plain(2, Outer, 1, [N4])
  const R2 := Plain(1, Regular, 2, [O3])
  const AGAIN := Plain(0, Outer, 1, [R2])

  const UN4 := Axed(N4, X, [])
  const UO3 := Axed(O3, X, [UN4])
  const UR2 := Axed(R2, X, [UO3])
  const UAGAIN := Axed(AGAIN, Y, [UR2])

  lemma {:induction false} AgainHeights()
    ensures HeightSameType(O3, Outer) == 0 && HeightSameType(R2, Regular) == 0 && HeightSameType(AGAIN, Outer) == 1
  {
    KindOf(Outer);
    KindOf(Inner);
    KindOf(Regular);
    LeafHeight(N4, Outer);
    LeafHeight(N4, Regular);
    assert FirstAttributed(O3) == Some(N4) && FirstAttributed(R2) == Some(O3);
    assert !Attributed(R2) && [R2][1..] + R2.children == [O3];
    assert FirstAttributed(AGAIN) == Search([O3], Attributed) == Some(O3);
    HeightStep(O3, N4, Outer);
    HeightStep(O3, N4, Regular);
    HeightStep(R2, O3, Regular);
    HeightStep(AGAIN, O3, Outer);
  }

  lemma {:induction false} AgainSettles()
    ensures Settles([AGAIN], [UAGAIN], [Regular]) && Fresh(map[], Stmts([AGAIN]))
  {
    AgainHeights();
    LeafSettles(3, 4);
    assert Legal([Outer], [Regular]) && Legal([Regular], [Outer]) by {
      KindOf(Outer);
      KindOf(Regular);
    }
    PlainSettles(2, Outer, 1, [N4], [UN4], [Regular]);
    PlainSettles(1, Regular, 2, [O3], [UO3], [Outer]);
    PlainSettles(0, Outer, 1, [R2], [UR2], [Regular]);
    assert [1] + ([2] + [3]) == [1, 2, 3];
    FourFresh();
  }

  lemma {:induction false} AgainFrontiers()
    ensures Frontier(UAGAIN.children) == [UO3] && Frontier(UO3.children) == [UN4]
  {
    KindOf(Outer);
    KindOf(Inner);
    KindOf(Regular);
    AttributedFrontier([UO3]);
    AttributedFrontier([UN4]);
    assert !Attributed(UR2) && [UR2][1..] == [];
    assert Frontier([UR2]) == Frontier([UO3]) + Frontier([]);
  }

  lemma {:induction false} AgainPaths(p: seq<LoopType>)
    requires IsPath(UAGAIN, p)
    ensures p == [Outer, Outer, Inner]
  {
    KindOf(Outer);
    KindOf(Inner);
    AgainFrontiers();
    var x, rest := PathChild(UAGAIN, p);
    var y, last := PathChild(UO3, rest);
    LeafReads(UN4, last);
  }

  lemma {:induction false} AgainAccepted() returns (s: State)
    ensures PassOf([AGAIN], s) && OuterTrees(s) == [UAGAIN] && Verified(OuterTrees(s))
  {
    AgainSettles();
    s := OneOuter(AGAIN, UAGAIN);
    forall p | IsPath(UAGAIN, p) ensures p == [Outer, Outer, Inner] { AgainPaths(p); }
    OneTreeSignature(UAGAIN, [Outer, Outer, Inner]);
    OuterTreesReady([AGAIN], s);
    AgainInner();
  }

  lemma {:induction false} AgainInner()
    ensures InnerPresent(UAGAIN)
  {
    assert HasInner(UN4) && !HasInner(UO3) && !HasInner(UR2);
    assert [UR2][1..] + UR2.children == [UO3] && [UO3][1..] + UO3.children == [UN4];
    assert Search([UR2], HasInner) == Search([UO3], HasInner) == Search([UN4], HasInner) == Some(UN4);
  }

  /** One nest that uses shared memory, last in an outer loop that an ordinary loop repeats: no barrier is emitted and
    * the block runs the nest twice. */
  lemma {:induction false} RepeatedNestRaces() returns (s: State)
    ensures PassOf([AGAIN], s) && OuterTrees(s) == [UAGAIN] && Verified(OuterTrees(s)) && WellTyped(UAGAIN)
    ensures RunBlock(UAGAIN, TWICE) == [Nest(true), Nest(true)] && !Safe(RunBlock(UAGAIN, TWICE))
  {
    s := AgainAccepted();
    AgainRuns();
    var run := RunBlock(UAGAIN, TWICE);
    assert run[0] == Nest(true) && run[1].Nest?;
  }

  lemma {:induction false} WellTypedAround(t: Loop, x: Loop)
    requires t.children == [x] && WellTyped(x) && |t.info.types| == 1
    ensures WellTyped(t)
  {
  }

  lemma {:induction false} OnlyChild(t: Loop, x: Loop, path: seq<nat>)
    requires WellTyped(t) && WellTyped(x) && t.children == [x]
    ensures RunInside(t, 0, path, TWICE) == if IsNest(x) then NestEvents(t, 0) else RunTwice(x, path + [0])
  {
    ChildTwice(t, 0, path);
    assert RunInside(t, 1, path, TWICE) == [];
    var here := RunChild(t, 0, path, TWICE);
    assert here + [] == here;
  }

  lemma {:induction false} AgainTyped()
    ensures WellTyped(UN4) && WellTyped(UO3) && WellTyped(UR2) && WellTyped(UAGAIN)
  {
    WellTypedAround(UO3, UN4);
    WellTypedAround(UR2, UO3);
    WellTypedAround(UAGAIN, UR2);
  }

  lemma {:induction false} AgainRuns()
    ensures WellTyped(UAGAIN) && RunBlock(UAGAIN, TWICE) == [Nest(true), Nest(true)]
  {
    AgainTyped();
    AgainBetween([] + [1] + [0]);
    TwiceUnfold(UAGAIN, []);
    OnlyChild(UAGAIN, UR2, [] + [1]);
    assert RunBlock(UAGAIN, TWICE) == RunTwice(UAGAIN, []);
  }

  lemma {:induction false} AgainBetween(path: seq<nat>)
    requires WellTyped(UR2) && WellTyped(UO3) && WellTyped(UN4)
    ensures RunTwice(UR2, path) == [Nest(true), Nest(true)]
  {
    TwiceUnfold(UR2, path);
    OnlyChild(UR2, UO3, path + [1]);
    OnlyChild(UR2, UO3, path + [2]);
    AgainInside(path + [1] + [0]);
    AgainInside(path + [2] + [0]);
  }

  lemma {:induction false} AgainInside(path: seq<nat>)
    requires WellTyped(UO3) && WellTyped(UN4)
    ensures RunTwice(UO3, path) == [Nest(true)]
  {
    TwiceUnfold(UO3, path);
    OnlyChild(UO3, UN4, path + [1]);
    assert UN4.info.types[0] == Inner;
    assert NestEvents(UO3, 0) == [Nest(true)] + [];
  }

  // ----- a barrier inside a nest -----

  const BOTTOM := Plain(3, Inner, 4, [])
  const VEIL := Plain(2, Regular, 2, [BOTTOM])
  const NEST := Plain(1, Inner, 2, [VEIL])
  const VEILED := Plain(0, Outer, 1, [NEST])

  const UBOTTOM := Axed(BOTTOM, X, [])
  const UVEIL := Axed(VEIL, X, [UBOTTOM])
  const UNEST := Axed(NEST, Y, [UVEIL])
  const UVEILED := Axed(VEILED, X, [UNEST])

  lemma {:induction false} VeiledHeights()
    ensures HeightSameType(VEIL, Regular) == 0 && HeightSameType(NEST, Inner) == 1
    ensures HeightSameType(VEILED, Outer) == 0
  {
    KindOf(Outer);
    KindOf(Inner);
    KindOf(Regular);
    LeafHeight(BOTTOM, Regular);
    LeafHeight(BOTTOM, Inner);
    LeafHeight(BOTTOM, Outer);
    assert FirstAttributed(VEIL) == Some(BOTTOM) && FirstAttributed(VEILED) == Some(NEST);
    assert !Attributed(VEIL) && [VEIL][1..] + VEIL.children == [BOTTOM];
    assert FirstAttributed(NEST) == Search([BOTTOM], Attributed) == Some(BOTTOM);
    HeightStep(VEIL, BOTTOM, Regular);
    HeightStep(NEST, BOTTOM, Inner);
    HeightStep(NEST, BOTTOM, Outer);
    HeightStep(VEILED, NEST, Outer);
  }

  lemma {:induction false} VeiledSettles()
    ensures Settles([VEILED], [UVEILED], [Regular]) && Fresh(map[], Stmts([VEILED]))
  {
    VeiledHeights();
    LeafSettles(3, 4);
    assert Legal([Outer], [Regular]) && Legal([Inner], [Outer]) && Legal([Regular], [Inner]) by {
      KindOf(Outer);
      KindOf(Inner);
      KindOf(Regular);
    }
    PlainSettles(2, Regular, 2, [BOTTOM], [UBOTTOM], [Inner]);
    PlainSettles(1, Inner, 2, [VEIL], [UVEIL], [Outer]);
    PlainSettles(0, Outer, 1, [NEST], [UNEST], [Regular]);
    assert [1] + ([2] + [3]) == [1, 2, 3];
    FourFresh();
  }

  lemma {:induction false} VeiledFrontiers()
    ensures Frontier(UVEILED.children) == [UNEST] && Frontier(UNEST.children) == [UBOTTOM]
  {
    KindOf(Inner);
    KindOf(Regular);
    AttributedFrontier([UNEST]);
    AttributedFrontier([UBOTTOM]);
    assert !Attributed(UVEIL) && [UVEIL][1..] == [];
    assert Frontier([UVEIL]) == Frontier([UBOTTOM]) + Frontier([]);
  }

  lemma {:induction false} VeiledPaths(p: seq<LoopType>)
    requires IsPath(UVEILED, p)
    ensures p == [Outer, Inner, Inner]
  {
    KindOf(Outer);
    KindOf(Inner);
    VeiledFrontiers();
    var x, rest := PathChild(UVEILED, p);
    var y, last := PathChild(UNEST, rest);
    LeafReads(UBOTTOM, last);
  }

  lemma {:induction false} VeiledAccepted() returns (s: State)
    ensures PassOf([VEILED], s) && OuterTrees(s) == [UVEILED] && Verified(OuterTrees(s))
  {
    VeiledSettles();
    s := OneOuter(VEILED, UVEILED);
    forall p | IsPath(UVEILED, p) ensures p == [Outer, Inner, Inner] { VeiledPaths(p); }
    OneTreeSignature(UVEILED, [Outer, Inner, Inner]);
    OuterTreesReady([VEILED], s);
    assert HasInner(UNEST);
    assert Search([UNEST], HasInner) == Some(UNEST);
  }

  /** `@outer` around `@inner` around an ordinary loop around `@inner`, with shared memory used inside: a thread of the
    * nest meets a barrier in it. */
  lemma {:induction false} BarrierInsideNest() returns (s: State, trips: Trips)
    ensures PassOf([VEILED], s) && OuterTrees(s) == [UVEILED] && Verified(OuterTrees(s)) && WellTyped(UVEILED)
    ensures !OutsideNests(BlockWalk(UVEILED, trips), 0)
  {
    s := VeiledAccepted();
    VeiledNotQuiet();
    BarriersOutsideNests(UVEILED);
    trips :| !OutsideNests(BlockWalk(UVEILED, trips), if IsNest(UVEILED) then 1 else 0);
  }

  lemma {:induction false} VeiledNotQuiet()
    ensures WellTyped(UVEILED) && !NestsQuiet(UVEILED) && !IsNest(UVEILED)
  {
    WellTypedAround(UVEIL, UBOTTOM);
    WellTypedAround(UNEST, UVEIL);
    WellTypedAround(UVEILED, UNEST);
    assert UNEST.info.types[0] == Inner;
    assert BarrierDue(UVEIL, 0) && !IsNest(UVEIL);
    assert !NoneDue(UVEIL);
    assert UNEST.children[0] == UVEIL && !NoneDue(UNEST);
    assert UVEILED.children[0] == UNEST && !NestsQuiet(UNEST);
  }
}
