/** Kernels that branch: the grid comes from the chain of first children, and every nest of the kernel runs in it. */
module Branches {
  import opened LoopLang
  import opened LoopTree
  import opened KernelUtils
  import opened Axes
  import opened GridCoverage
  import opened Launcher
  import opened GridLevels
  import opened AnyGrid

  // ----- the nests of a tree -----

  /** The loops from `t` down to an attributed loop with no other below. */
  predicate IsBranch(t: Loop, infos: seq<Info>)
    decreases |infos|
  {
    infos != [] && infos[0] == t.info
    && if |infos| == 1 then Attributed(t) && Frontier(t.children) == []
       else exists k :: 0 <= k < |t.children| && IsBranch(t.children[k], infos[1..])
  }

  lemma {:induction false} NoneCollected(t: Loop)
    requires !Attributed(t) && Frontier(t.children) == []
    ensures Collected(t) == []
    decreases t
  {
    if t.children != [] {
      FrontierAt(t.children, 0);
      NoneCollected(t.children[0]);
    }
  }

  function ErasedAll(infos: seq<Info>): seq<LoopType> {
    if infos == [] then [] else Erase(infos[0].types) + ErasedAll(infos[1..])
  }

  lemma {:induction false} ErasedCount(infos: seq<Info>, kind: LoopType)
    requires kind != Regular
    ensures Count(ErasedAll(infos), kind) == CountAll(infos, kind)
  {
    if infos != [] {
      ErasedCount(infos[1..], kind);
      EraseKeepsCount(infos[0].types, kind);
      CountConcat(Erase(infos[0].types), ErasedAll(infos[1..]), kind);
    }
  }

  /** The nearest attributed loops at or below `t`. */
  function Nearest(t: Loop): seq<Loop> {
    if Attributed(t) then [t] else Frontier(t.children)
  }

  /** A branch reads as one of the paths. */
  lemma {:induction false} BranchPath(t: Loop, infos: seq<Info>) returns (x: Loop)
    requires IsBranch(t, infos)
    ensures x in Nearest(t) && IsPath(x, ErasedAll(infos))
    decreases |infos|
  {
    var own := Erase(t.info.types);
    if |infos| == 1 {
      x := t;
      LeafPath(t);
      assert infos[1..] == [] && own + [] == own;
    } else {
      var k :| 0 <= k < |t.children| && IsBranch(t.children[k], infos[1..]);
      x := BranchPath(t.children[k], infos[1..]);
      FrontierAt(t.children, k);
      assert x in Frontier(t.children);
      if Attributed(t) {
        PathThroughChild(t, x, ErasedAll(infos[1..]));
        x := t;
      } else {
        RegularErased(t.info.types);
        assert [] + ErasedAll(infos[1..]) == ErasedAll(infos[1..]);
      }
    }
  }

  lemma {:induction false} RegularErased(types: seq<LoopType>)
    requires IsRegular(types)
    ensures Erase(types) == []
  {
    if types != [] { RegularErased(types[1..]); }
  }

  /** The loops of a branch have the same number of levels below them in the tree as in the chain of the branch alone,
    * so the generated code uses the same axes. */
  lemma {:induction false} BranchHeights(t: Loop, infos: seq<Info>, kind: LoopType)
    requires WellTyped(t) && Attributed(t) && OnePathOf(t) && IsBranch(t, infos) && kind != Regular
    ensures HeightSameType(t, kind) == HeightSameType(ToTree(infos), kind)
  {
    var x := BranchPath(t, infos);
    HeightOnEveryPath(t, ErasedAll(infos), kind);
    ErasedCount(infos, kind);
    ChainHeight(infos, kind);
  }

  // ----- the grid that the launcher asks for -----

  lemma {:induction false} ErasedConcat(a: seq<Info>, b: seq<Info>)
    ensures ErasedAll(a + b) == ErasedAll(a) + ErasedAll(b)
  {
    if a == [] {
      assert a + b == b;
    } else {
      assert (a + b)[1..] == a[1..] + b;
      ErasedConcat(a[1..], b);
    }
  }

  lemma {:induction false} CollectedParts(t: Loop)
    ensures ErasedAll(Collected(t)) == (if Attributed(t) then Erase(t.info.types) else [])
                                       + (if t.children == [] then [] else ErasedAll(Collected(t.children[0])))
  {
    var own, rest := if Attributed(t) then [t.info] else [], if t.children == [] then [] else Collected(t.children[0]);
    ErasedConcat(own, rest);
    assert [t.info][1..] == [] && Erase(t.info.types) + [] == Erase(t.info.types);
  }

  /** What is collected reads as a prefix of the path. */
  ghost predicate ReadsInto(t: Loop, x: Loop, p: seq<LoopType>) {
    x in Nearest(t) && IsPath(x, p) && ErasedAll(Collected(t)) <= p
  }

  lemma {:induction false} NothingBelow(t: Loop) returns (x: Loop, p: seq<LoopType>)
    requires WellTyped(t) && Nearest(t) != [] && (t.children == [] || Nearest(t.children[0]) == [])
    ensures ReadsInto(t, x, p)
  {
    FrontierWellTyped(t.children);
    x := Nearest(t)[0];
    p := AnyPath(x);
    OwnCollected(t);
    if Attributed(t) { var _, rest := PathChild(t, p); }
  }

  lemma {:induction false} OwnCollected(t: Loop)
    requires t.children == [] || Nearest(t.children[0]) == []
    ensures ErasedAll(Collected(t)) == if Attributed(t) then Erase(t.info.types) else []
  {
    var own := if Attributed(t) then Erase(t.info.types) else [];
    CollectedParts(t);
    if t.children != [] { NoneCollected(t.children[0]); }
    assert own + [] == own;
  }

  lemma {:induction false} FirstBelow(t: Loop, y: Loop, q: seq<LoopType>) returns (x: Loop, p: seq<LoopType>)
    requires WellTyped(t) && t.children != [] && ReadsInto(t.children[0], y, q)
    ensures ReadsInto(t, x, p)
  {
    CollectedParts(t);
    FrontierAt(t.children, 0);
    assert y in Frontier(t.children);
    x, p := y, q;
    if Attributed(t) {
      PathThroughChild(t, y, q);
      x, p := t, Erase(t.info.types) + q;
    }
  }

  /** The launcher collects a prefix of some path: it stops where the first child leads to no attributed loop. */
  lemma {:induction false} CollectedPrefix(t: Loop) returns (x: Loop, p: seq<LoopType>)
    requires WellTyped(t) && Nearest(t) != []
    ensures ReadsInto(t, x, p)
    decreases t
  {
    if t.children == [] || Nearest(t.children[0]) == [] {
      x, p := NothingBelow(t);
    } else {
      assert WellTyped(t.children[0]);
      var y, q := CollectedPrefix(t.children[0]);
      x, p := FirstBelow(t, y, q);
    }
  }

  lemma {:induction false} PrefixCount(a: seq<LoopType>, b: seq<LoopType>, kind: LoopType)
    requires a <= b
    ensures Count(a, kind) <= Count(b, kind)
  {
    CountConcat(a, b[|a|..], kind);
    assert a + b[|a|..] == b;
  }

  lemma {:induction false} CollectedTyped(t: Loop)
    requires WellTyped(t)
    ensures forall k :: 0 <= k < |Collected(t)| ==> TypesOk(Collected(t)[k].types) && !IsRegular(Collected(t)[k].types)
  {
    if t.children != [] {
      assert WellTyped(t.children[0]);
      CollectedTyped(t.children[0]);
    }
  }

  /** The launcher asks for no more axes than a nest of the kernel uses. */
  lemma {:induction false} CollectedRank(t: Loop, infos: seq<Info>)
    requires WellTyped(t) && Attributed(t) && OnePathOf(t) && IsBranch(t, infos)
    ensures CountAll(Collected(t), Outer) <= CountAll(infos, Outer)
    ensures CountAll(Collected(t), Inner) <= CountAll(infos, Inner)
  {
    var x, p := CollectedPrefix(t);
    var y := BranchPath(t, infos);
    SamePath(t, p, ErasedAll(infos));
    ErasedCount(infos, Outer);
    ErasedCount(infos, Inner);
    ErasedCount(Collected(t), Outer);
    ErasedCount(Collected(t), Inner);
    PrefixCount(ErasedAll(Collected(t)), p, Outer);
    PrefixCount(ErasedAll(Collected(t)), p, Inner);
  }

  lemma {:induction false} MetaCount(loops: seq<Info>, kind: LoopType)
    requires kind != Regular && forall k :: 0 <= k < |loops| ==> TypesOk(loops[k].types)
    ensures |MetasOf(loops, kind)| == CountAll(loops, kind)
  {
    if loops != [] {
      MetaCount(loops[1..], kind);
      OwnSizes(loops[0].types, kind);
    }
  }

  /** What the launcher asks for, with extent 1 on the axes it leaves out. */
  function LaunchedGrid(t: Loop, infos: seq<Info>, host: Env, c: Ctx): (seq<int>, seq<int>)
    requires WellTyped(t) && Attributed(t) && OnePathOf(t) && IsBranch(t, infos)
  {
    CollectedTyped(t);
    var grid := RunDims(Collected(t), host, c);
    LaunchedRank(t, infos, host, c);
    Pad(grid, infos, 1)
  }

  lemma {:induction false} LaunchedRank(t: Loop, infos: seq<Info>, host: Env, c: Ctx)
    requires WellTyped(t) && Attributed(t) && OnePathOf(t) && IsBranch(t, infos)
    ensures forall k :: 0 <= k < |Collected(t)| ==> TypesOk(Collected(t)[k].types)
    ensures NoMoreAxes(RunDims(Collected(t), host, c), infos)
  {
    CollectedTyped(t);
    CollectedRank(t, infos);
    MetaCount(Collected(t), Outer);
    MetaCount(Collected(t), Inner);
  }

  lemma {:induction false} AllKept(infos: seq<Info>)
    requires forall k :: 0 <= k < |infos| ==> !IsRegular(infos[k].types)
    ensures Kept(infos) == infos
  {
    if infos != [] { AllKept(infos[1..]); }
  }

  /** Where the launcher counts every collected loop right, it asks for their extents. */
  lemma {:induction false} CollectedExtents(t: Loop, host: Env, c: Ctx)
    requires WellTyped(t) && Attributed(t) && ChainOk(Collected(t), c) && ChainLaunched(Collected(t), c)
    ensures forall k :: 0 <= k < |Collected(t)| ==> TypesOk(Collected(t)[k].types)
    ensures RunDims(Collected(t), host, c) == GridExtents(Collected(t), c)
  {
    CollectedTyped(t);
    CollectedChain(Collected(t));
    AllKept(Collected(t));
    LaunchMatchesGrid(Collected(t), host, c);
  }

  /** In a kernel of one signature, each nest, with tiles or without, is run exactly once over the grid that the
    * launcher asks for if and only if that grid, with extent 1 on the axes it leaves out, fits the nest. */
  lemma {:induction false} EveryNest(t: Loop, nest: seq<Info>, host: Env, env: Env, c: Ctx)
    requires WellTyped(t) && Attributed(t) && OnePathOf(t) && IsBranch(t, nest) && ChainOk(nest, c)
    ensures forall k :: 0 <= k < |Collected(t)| ==> TypesOk(Collected(t)[k].types)
    ensures RunsOnce(nest, env, c, RunDims(Collected(t), host, c))
            <==> GridFits(nest, LaunchedGrid(t, nest, host, c), c)
  {
    LaunchedRank(t, nest, host, c);
    PaddedGrid(nest, env, c, RunDims(Collected(t), host, c));
    GridExactly(nest, env, c, LaunchedGrid(t, nest, host, c));
  }

  /** For a nest of plain loops: its extents must be those of the loops down the first children, and 1 on every axis
    * that those leave out; or an ordinary loop in it has no iterations. */
  lemma {:induction false} SiblingNests(t: Loop, nest: seq<Info>, host: Env, env: Env, c: Ctx)
    requires WellTyped(t) && Attributed(t) && OnePathOf(t) && IsBranch(t, nest) && ChainOk(nest, c) && PlainChain(nest)
    requires ChainOk(Collected(t), c) && ChainLaunched(Collected(t), c) && Positive(GridExtents(Collected(t), c))
    ensures forall k :: 0 <= k < |Collected(t)| ==> TypesOk(Collected(t)[k].types)
    ensures NoMoreAxes(GridExtents(Collected(t), c), nest)
    ensures RunsOnce(nest, env, c, RunDims(Collected(t), host, c))
            <==> Pad(GridExtents(Collected(t), c), nest, 1) == GridExtents(nest, c) || SomeIdle(nest, c)
  {
    CollectedExtents(t, host, c);
    LaunchedRank(t, nest, host, c);
    var grid := GridExtents(Collected(t), c);
    PaddedGrid(nest, env, c, grid);
    PlainGridExactly(nest, env, c, Pad(grid, nest, 1));
  }
}
