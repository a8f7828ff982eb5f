/** Kernels that the semantic pass accepts: what the loops read back from its state are known to satisfy. */
module AcceptedKernels {
  import opened LoopLang
  import opened LoopHeader
  import opened LoopTree
  import opened KernelUtils
  import opened Axes
  import opened LoopLegality
  import opened SemaCtx
  import opened SemaRun
  import opened InnerSizes

  // ----- what the pass leaves in a loop -----

  /** No loop of the forest names an axis. */
  predicate AllAuto(ts: seq<Loop>)
    decreases ForestSize(ts)
  {
    ts == []
    || (assert ForestSize(ts) == 1 + ForestSize(ts[0].children) + ForestSize(ts[1..]);
        (forall k :: 0 <= k < |ts[0].info.axes| ==> ts[0].info.axes[k] == Auto)
        && AllAuto(ts[0].children) && AllAuto(ts[1..]))
  }

  /** The axes stored in the loop are the numbers computed for it. */
  predicate AxesStored(t: Loop) {
    TypesOk(t.info.types) && |t.info.axes| == |t.info.types| == |AxisHeights(t)|
    && forall k :: 0 <= k < |t.info.axes| ==> t.info.axes[k] != Auto && AxisNumber(t.info.axes[k]) == AxisHeights(t)[k]
  }

  /** Every loop is legal in its direct parent and holds its own axis numbers. */
  predicate Passed(t: Loop, parent: seq<LoopType>) {
    Legal(t.info.types, parent) && AxesStored(t)
    && forall k :: 0 <= k < |t.children| ==> Passed(t.children[k], t.info.types)
  }

  lemma {:induction false} StoredHere(t: Loop)
    requires InfoOk(t.info) && InfosOk(t.children) && AxesOk(t)
    requires forall k :: 0 <= k < |t.info.axes| ==> t.info.axes[k] == Auto
    ensures AxesStored(Loop(SettledInfo(t), SettleForest(t.children)))
  {
    var u := Loop(SettledInfo(t), SettleForest(t.children));
    assert t.info.axes[0] == Auto;
    SettleHeight(t, SettledInfo(t), t.info.types[0]);
    if |t.info.types| == 2 { SettleHeight(t, SettledInfo(t), t.info.types[1]); }
    assert AxisHeights(u) == AxisHeights(t);
  }

  /** A successful pass over loops without explicit axes leaves every loop like that. */
  lemma {:induction false} PassLeaves(ts: seq<Loop>, parent: seq<LoopType>)
    requires InfosOk(ts) && AllAuto(ts) && ForestOk(ts, parent)
    ensures forall k :: 0 <= k < |ts| ==> Passed(SettleForest(ts)[k], parent)
    decreases ForestSize(ts)
  {
    if ts != [] {
      var t, rest := ts[0], ts[1..];
      assert ForestSize(ts) == 1 + ForestSize(t.children) + ForestSize(rest);
      PassLeaves(t.children, t.info.types);
      PassLeaves(rest, parent);
      StoredHere(t);
      assert Passed(Loop(SettledInfo(t), SettleForest(t.children)), parent);
    }
  }

  lemma {:induction false} PassedIsSettled(t: Loop, parent: seq<LoopType>)
    requires Passed(t, parent)
    ensures WellTyped(t) && Settled(t) && AxesComputed(t) && DirectlyLegal(t, parent)
    decreases t
  {
    forall k | 0 <= k < |t.children|
      ensures WellTyped(t.children[k]) && Settled(t.children[k]) && AxesComputed(t.children[k])
              && DirectlyLegal(t.children[k], t.info.types)
    {
      PassedIsSettled(t.children[k], t.info.types);
    }
  }

  // ----- the top-level outer loops of the state -----

  /** The loop is the settled form of one that the pass accepts below some parent. */
  ghost predicate Accepted(u: Loop) {
    exists parent :: Passed(u, parent)
  }

  lemma {:induction false} FrontierAccepted(ts: seq<Loop>, parent: seq<LoopType>, x: Loop)
    requires InfosOk(ts) && AllAuto(ts) && ForestOk(ts, parent) && x in Frontier(ts)
    ensures InfosOk([x]) && Accepted(SettleForest([x])[0])
    decreases ForestSize(ts)
  {
    var t, rest := ts[0], ts[1..];
    assert ForestSize(ts) == 1 + ForestSize(t.children) + ForestSize(rest);
    if Attributed(t) && x == t {
      assert [t][1..] == [];
      PassLeaves([t], parent);
      assert Passed(SettleForest([t])[0], parent);
    } else if !Attributed(t) && x in Frontier(t.children) {
      FrontierAccepted(t.children, t.info.types, x);
    } else {
      FrontierAccepted(rest, parent, x);
    }
  }

  lemma {:induction false} TopOutersFrom(frontier: seq<Loop>, k: nat)
    requires k < |TopOuters(frontier)|
    ensures TopOuters(frontier)[k] in frontier
    ensures TopOuters(frontier)[k].info.types != [] && TopOuters(frontier)[k].info.types[0] == Outer
  {
    var own := if frontier[0].info.types != [] && frontier[0].info.types[0] == Outer then [frontier[0]] else [];
    if k >= |own| { TopOutersFrom(frontier[1..], k - |own|); }
  }

  /** The top-level outer loops as verifyLoops gets them. */
  function OuterTrees(s: State): (r: seq<Loop>)
    requires Valid(s)
    ensures |r| == |s.topLevelOuterLoops|
  {
    seq(|s.topLevelOuterLoops|, k requires 0 <= k < |s.topLevelOuterLoops| =>
      var id := s.topLevelOuterLoops[k];
      if id < |s.nodes| then Subtree(s.nodes, id)
        else Loop(Info(0, [], [], NO_HEADER, Lit(0), true, 0, false, false), []))
  }

  const NO_HEADER := Header("", Lit(0), Lt, Lit(0), Unary(PreInc))

  /** The state after a successful pass over a kernel without explicit axes. */
  ghost predicate PassOf(ts: seq<Loop>, s: State) {
    InfosOk(ts) && AllAuto(ts) && Valid(EMPTY) && Feed(EMPTY, Events(ts)) == (s, None)
  }

  lemma {:induction false} OuterTreesAccepted(ts: seq<Loop>, s: State, k: nat)
    requires PassOf(ts, s) && k < |s.topLevelOuterLoops|
    ensures var u := OuterTrees(s)[k]; Accepted(u) && u.info.types[0] == Outer
  {
    KernelRebuilt(ts);
    var tops := TopOuters(Frontier(ts));
    TopOutersFrom(Frontier(ts), k);
    FrontierAccepted(ts, [Regular], tops[k]);
    assert Subtree(s.nodes, s.topLevelOuterLoops[k]) == SettleForest([tops[k]])[0];
    assert SettleForest([tops[k]])[0].info.types == tops[k].info.types by { SettleAttributed([tops[k]]); }
  }

  /** They meet what verifyLoops requires of its caller. */
  lemma {:induction false} OuterTreesReady(ts: seq<Loop>, s: State)
    requires PassOf(ts, s)
    ensures AllWellTyped(OuterTrees(s)) && forall k :: 0 <= k < |OuterTrees(s)| ==> Attributed(OuterTrees(s)[k])
  {
    forall k | 0 <= k < |OuterTrees(s)| ensures WellTyped(OuterTrees(s)[k]) && Attributed(OuterTrees(s)[k]) {
      OuterTreesAccepted(ts, s, k);
      var u := OuterTrees(s)[k];
      var parent :| Passed(u, parent);
      PassedIsSettled(u, parent);
      assert u.info.types[0] == Outer;
    }
  }

  // ----- axes as they are stored -----

  function StoredNumbers(info: Info): (r: seq<nat>)
    requires forall k :: 0 <= k < |info.axes| ==> info.axes[k] != Auto
    ensures |r| == |info.axes| && forall k :: 0 <= k < |r| ==> r[k] == AxisNumber(info.axes[k]) <= MAX_AXIS_SZ
  {
    seq(|info.axes|, k requires 0 <= k < |info.axes| => AxisNumber(info.axes[k]))
  }

  /** The types along a root-to-leaf path with the axis numbers that the loops hold. */
  ghost predicate IsStoredPath(t: Loop, ap: seq<(LoopType, nat)>)
    decreases Size(t)
  {
    AxesStored(t)
    && var own, kids := Levels(t.info.types, StoredNumbers(t.info)), Frontier(t.children);
       own <= ap
       && if kids == [] then ap == own
          else exists k :: 0 <= k < |kids| && (FrontierShrinks(t.children, kids[k]); IsStoredPath(kids[k], ap[|own|..]))
  }

  lemma {:induction false} StoredLevels(t: Loop)
    requires AxesStored(t)
    ensures StoredNumbers(t.info) == AxisHeights(t)
  {
  }

  lemma {:induction false} StoredIsAxisPath(t: Loop, ap: seq<(LoopType, nat)>)
    requires WellTyped(t) && IsStoredPath(t, ap)
    ensures IsAxisPath(t, ap)
    decreases Size(t)
  {
    StoredLevels(t);
    FrontierWellTyped(t.children);
    if Frontier(t.children) != [] {
      var k := StoredStep(t, ap);
      StoredIsAxisPath(Frontier(t.children)[k], ap[|Levels(t.info.types, AxisHeights(t))|..]);
    }
  }

  lemma {:induction false} StoredStep(t: Loop, ap: seq<(LoopType, nat)>) returns (k: nat)
    requires WellTyped(t) && IsStoredPath(t, ap) && Frontier(t.children) != []
    ensures var own, kids := Levels(t.info.types, StoredNumbers(t.info)), Frontier(t.children);
            k < |kids| && WellTyped(kids[k]) && Size(kids[k]) < Size(t) && |own| <= |ap|
              && IsStoredPath(kids[k], ap[|own|..])
  {
    var own, kids := Levels(t.info.types, StoredNumbers(t.info)), Frontier(t.children);
    FrontierWellTyped(t.children);
    k :| 0 <= k < |kids| && (FrontierShrinks(t.children, kids[k]); IsStoredPath(kids[k], ap[|own|..]));
    FrontierShrinks(t.children, kids[k]);
  }

  lemma {:induction false} LevelsFit(types: seq<LoopType>, axes: seq<nat>)
    requires |types| == |axes| && forall k :: 0 <= k < |axes| ==> axes[k] <= MAX_AXIS_SZ
    ensures AxesFit(Levels(types, axes))
  {
    if types != [] { LevelsFit(types[1..], axes[1..]); }
  }

  /** Stored axes are hardware axes, so they fit. */
  lemma {:induction false} StoredFits(t: Loop, ap: seq<(LoopType, nat)>)
    requires WellTyped(t) && IsStoredPath(t, ap)
    ensures AxesFit(ap)
    decreases Size(t)
  {
    var own := Levels(t.info.types, StoredNumbers(t.info));
    LevelsFit(t.info.types, StoredNumbers(t.info));
    if Frontier(t.children) != [] {
      var k := StoredStep(t, ap);
      StoredFits(Frontier(t.children)[k], ap[|own|..]);
      assert ap == own + ap[|own|..];
    }
  }

  lemma {:induction false} KidPassed(ts: seq<Loop>, parent: seq<LoopType>, x: Loop)
    requires x in Frontier(ts) && forall k :: 0 <= k < |ts| ==> Passed(ts[k], parent)
    ensures Accepted(x)
    decreases ForestSize(ts)
  {
    assert ForestSize(ts) == 1 + ForestSize(ts[0].children) + ForestSize(ts[1..]);
    assert Passed(ts[0], parent);
    if Attributed(ts[0]) && x == ts[0] {
    } else if !Attributed(ts[0]) && x in Frontier(ts[0].children) {
      KidPassed(ts[0].children, ts[0].info.types, x);
    } else {
      KidPassed(ts[1..], parent, x);
    }
  }

  lemma {:induction false} AnyStoredPath(t: Loop, parent: seq<LoopType>) returns (ap: seq<(LoopType, nat)>)
    requires Passed(t, parent)
    ensures IsStoredPath(t, ap)
    decreases Size(t)
  {
    var own, kids := Levels(t.info.types, StoredNumbers(t.info)), Frontier(t.children);
    ap := own;
    if kids != [] {
      var x := kids[0];
      FrontierShrinks(t.children, x);
      KidPassed(t.children, t.info.types, x);
      var above :| Passed(x, above);
      var rest := AnyStoredPath(x, above);
      ap := own + rest;
      assert ap[|own|..] == rest;
      assert IsStoredPath(kids[0], ap[|own|..]);
    }
  }

  /** In an accepted tree with one path, stored axes of one type fall strictly along the path, each is the number of
    * levels of its type below, and no type has more than three levels. */
  lemma {:induction false} StoredAxes(t: Loop, parent: seq<LoopType>, ap: seq<(LoopType, nat)>)
    requires Passed(t, parent) && WellTyped(t) && Attributed(t) && OnePathOf(t) && IsStoredPath(t, ap)
    ensures CountsBelow(ap) && IsPath(t, Kinds(ap))
    ensures forall i: nat, j: nat :: i < j < |ap| && ap[i].0 == ap[j].0 ==> ap[i].1 > ap[j].1
    ensures Count(Kinds(ap), Outer) <= 3 && Count(Kinds(ap), Inner) <= 3
  {
    StoredIsAxisPath(t, ap);
    AxesCountLevelsBelow(t, ap);
    AxisPathIsPath(t, ap);
    StoredFits(t, ap);
    PathsHaveNoRegular(t, Kinds(ap));
    FitMeansThreeLevels(ap);
    forall i: nat, j: nat | i < j < |ap| && ap[i].0 == ap[j].0 ensures ap[i].1 > ap[j].1 { DistinctAxes(ap, i, j); }
  }

  // ----- the kernels that verifyLoops lets through -----

  /** What verifyLoops has checked of the loops it got. */
  ghost predicate Verified(tops: seq<Loop>) {
    AllWellTyped(tops) && OneSignature(tops) && forall k :: 0 <= k < |tops| ==> InnerPresent(tops[k])
  }

  /** In every kernel that passes, each path below a top-level outer loop has one to three outer and one to three inner
    * levels; they are in order exactly when no loop is illegal in its nearest attributed ancestor, which the check
    * against direct parents ensures where no regular loop lies between. */
  lemma {:induction false} KernelSignature(ts: seq<Loop>, s: State, k: nat, p: seq<LoopType>)
    requires PassOf(ts, s) && Verified(OuterTrees(s)) && k < |OuterTrees(s)| && IsPath(OuterTrees(s)[k], p)
    ensures var t, a, b := OuterTrees(s)[k], Count(p, Outer), Count(p, Inner);
            1 <= a <= 3 && 1 <= b <= 3 && (p == Repeat(Outer, a) + Repeat(Inner, b) <==> AttributedLegal(t))
            && (NoRegularBetween(t) ==> p == Repeat(Outer, a) + Repeat(Inner, b))
  {
    var t := OuterTrees(s)[k];
    OuterTreesAccepted(ts, s, k);
    var parent :| Passed(t, parent);
    PassedIsSettled(t, parent);
    TreeOfForest(OuterTrees(s), t);
    SignatureOf(t, parent, p);
    if NoRegularBetween(t) { DirectCheckSuffices(t, parent); }
  }

  lemma {:induction false} SignatureOf(t: Loop, parent: seq<LoopType>, p: seq<LoopType>)
    requires Passed(t, parent) && WellTyped(t) && t.info.types[0] == Outer && InnerPresent(t) && OnePathOf(t)
             && IsPath(t, p)
    ensures var a, b := Count(p, Outer), Count(p, Inner);
            1 <= a <= 3 && 1 <= b <= 3 && (p == Repeat(Outer, a) + Repeat(Inner, b) <==> AttributedLegal(t))
  {
    assert Attributed(t) by { assert t.info.types[0] != Regular; }
    LevelsOf(t, parent, p);
    OrderIsAttributedLegality(t, p);
    if Nested(p) { NestedForm(p); }
  }

  lemma {:induction false} LevelsOf(t: Loop, parent: seq<LoopType>, p: seq<LoopType>)
    requires Passed(t, parent) && WellTyped(t) && Attributed(t) && t.info.types[0] == Outer && InnerPresent(t)
    requires OnePathOf(t) && IsPath(t, p)
    ensures 1 <= Count(p, Outer) <= 3 && 1 <= Count(p, Inner) <= 3 && Regular !in p
  {
    var ap := AnyStoredPath(t, parent);
    StoredAxes(t, parent, ap);
    SamePath(t, p, Kinds(ap));
    PathStart(t, p);
    assert p[0] in p;
    AcceptedHasInner(t, p);
    CountPositive(p, Outer);
    CountPositive(p, Inner);
  }

  /** The axes of every loop of such a kernel: along each path they are the numbers of levels below and never repeat. */
  lemma {:induction false} KernelAxes(ts: seq<Loop>, s: State, k: nat, ap: seq<(LoopType, nat)>)
    requires PassOf(ts, s) && Verified(OuterTrees(s)) && k < |OuterTrees(s)| && IsStoredPath(OuterTrees(s)[k], ap)
    ensures CountsBelow(ap) && AxesFit(ap)
    ensures forall i: nat, j: nat :: i < j < |ap| && ap[i].0 == ap[j].0 ==> ap[i].1 > ap[j].1
  {
    var t := OuterTrees(s)[k];
    OuterTreesAccepted(ts, s, k);
    var parent :| Passed(t, parent);
    PassedIsSettled(t, parent);
    TreeOfForest(OuterTrees(s), t);
    assert Attributed(t) by { assert t.info.types[0] != Regular; }
    StoredAxes(t, parent, ap);
    StoredFits(t, ap);
  }

  /** The launch bound of such a kernel with known sizes is the product along one of its paths, and the largest one
    * exactly when every kept child is the largest. */
  lemma {:induction false} KernelLaunchBound(ts: seq<Loop>, s: State, k: nat)
    requires PassOf(ts, s) && Verified(OuterTrees(s)) && k < |OuterTrees(s)|
    ensures var t := OuterTrees(s)[k];
            && Settled(t) && AxesComputed(t)
            && (AllKnown(t) ==>
                  !HasNullOpts(Sizes(t)) && PathProduct(t, Product(Sizes(t)))
                  && (Dominates(t, Product(Sizes(t))) <==> KeepsLargest(t)))
  {
    var t := OuterTrees(s)[k];
    var h := AcceptedRank(ts, s, k);
    if AllKnown(t) {
      SizesOnPath(t, h);
      LargestExactly(t, h);
    }
  }

  /** The inner axes of such a kernel count down along every path. */
  lemma {:induction false} AcceptedRank(ts: seq<Loop>, s: State, k: nat) returns (h: nat)
    requires PassOf(ts, s) && Verified(OuterTrees(s)) && k < |OuterTrees(s)|
    ensures Settled(OuterTrees(s)[k]) && AxesComputed(OuterTrees(s)[k]) && Ranked(OuterTrees(s)[k], h)
  {
    var t := OuterTrees(s)[k];
    OuterTreesAccepted(ts, s, k);
    var parent :| Passed(t, parent);
    PassedIsSettled(t, parent);
    TreeOfForest(OuterTrees(s), t);
    assert Attributed(t) by { assert t.info.types[0] != Regular; }
    var p := AnyPath(t);
    KernelSignature(ts, s, k, p);
    h := Count(p, Inner);
    forall x, q | x in [t] && IsPath(x, q) ensures OnePathOf(x) && Count(q, Inner) == h { SamePath(t, p, q); }
    AcceptedIsRanked(t, h);
  }
}
