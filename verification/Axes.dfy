/** Hardware axes of an accepted kernel, read along its root-to-leaf paths. */
module Axes {
  import opened LoopLang
  import opened LoopTree
  import opened KernelUtils

  lemma {:induction false} EraseKeepsCount(types: seq<LoopType>, kind: LoopType)
    requires kind != Regular
    ensures Count(Erase(types), kind) == Count(types, kind)
  {
    if types != [] {
      EraseKeepsCount(types[1..], kind);
      CountConcat(if types[0] == Regular then [] else [types[0]], Erase(types[1..]), kind);
    }
  }

  lemma {:induction false} AnyPath(t: Loop) returns (p: seq<LoopType>)
    requires WellTyped(t) && Attributed(t)
    ensures IsPath(t, p)
  {
    var n := TreeNode(t, 0);
    p := PathExists(n);
    NodePathMeaning(n, p);
    assert t.info.types[0..] == t.info.types;
  }

  /** All paths of the tree read the same. */
  ghost predicate OnePathOf(t: Loop) {
    forall p, q :: IsPath(t, p) && IsPath(t, q) ==> p == q
  }

  lemma {:induction false} PathThroughChild(t: Loop, x: Loop, q: seq<LoopType>)
    requires x in Frontier(t.children) && IsPath(x, q)
    ensures IsPath(t, Erase(t.info.types) + q)
  {
    var own, kids := Erase(t.info.types), Frontier(t.children);
    var k :| 0 <= k < |kids| && kids[k] == x;
    assert (own + q)[|own|..] == q;
    FrontierShrinks(t.children, kids[k]);
    assert IsPath(kids[k], (own + q)[|own|..]);
  }

  lemma {:induction false} SamePath(t: Loop, p: seq<LoopType>, q: seq<LoopType>)
    requires OnePathOf(t) && IsPath(t, p) && IsPath(t, q)
    ensures p == q
  {
  }

  /** Below a loop with one path, every child has that path's rest as its own one path. */
  lemma {:induction false} ChildPath(t: Loop, p: seq<LoopType>, x: Loop, q: seq<LoopType>)
    requires OnePathOf(t) && IsPath(t, p) && x in Frontier(t.children) && IsPath(x, q)
    ensures p == Erase(t.info.types) + q
  {
    PathThroughChild(t, x, q);
    SamePath(t, p, Erase(t.info.types) + q);
  }

  lemma {:induction false} ChildOnePath(t: Loop, x: Loop)
    requires OnePathOf(t) && x in Frontier(t.children)
    ensures OnePathOf(x)
  {
    var own := Erase(t.info.types);
    forall q, q' | IsPath(x, q) && IsPath(x, q') ensures q == q' {
      PathThroughChild(t, x, q);
      ChildPath(t, own + q, x, q');
      assert (own + q)[|own|..] == q && (own + q')[|own|..] == q';
    }
  }

  /** With one signature, the height taken along first children is the number of levels of that
    * type below the loop on every path. */
  lemma {:induction false} HeightOnEveryPath(t: Loop, p: seq<LoopType>, kind: LoopType)
    requires WellTyped(t) && Attributed(t) && OnePathOf(t) && IsPath(t, p) && kind != Regular
    ensures Count(p, kind) == Count(t.info.types, kind) + HeightSameType(t, kind)
    decreases Size(t)
  {
    var own, kids := Erase(t.info.types), Frontier(t.children);
    EraseKeepsCount(t.info.types, kind);
    SearchOnFrontier(t.children);
    if kids != [] {
      var x := FirstAttributed(t).value;
      FrontierWellTyped(t.children);
      var i :| 0 <= i < |kids| && kids[i] == x;
      var q := AnyPath(x);
      ChildPath(t, p, x, q);
      ChildOnePath(t, x);
      SearchShrinks(t.children, Attributed);
      HeightOnEveryPath(x, q, kind);
      CountConcat(own, q, kind);
    }
  }

  // ----- axes along a path -----

  /** The attributed levels of one loop with the axis numbers computed for them. */
  function Levels(types: seq<LoopType>, axes: seq<nat>): seq<(LoopType, nat)>
    requires |types| == |axes|
  {
    if types == [] then []
    else (if types[0] == Regular then [] else [(types[0], axes[0])]) + Levels(types[1..], axes[1..])
  }

  /** `ap` is a root-to-leaf path of `t` with the axis number of every level on it. */
  ghost predicate IsAxisPath(t: Loop, ap: seq<(LoopType, nat)>)
    requires WellTyped(t)
    decreases Size(t)
  {
    var own, kids := Levels(t.info.types, AxisHeights(t)), Frontier(t.children);
    FrontierWellTyped(t.children);
    && own <= ap
    && if kids == [] then ap == own
       else exists k :: 0 <= k < |kids| && (FrontierShrinks(t.children, kids[k]); IsAxisPath(kids[k], ap[|own|..]))
  }

  function Kinds(ap: seq<(LoopType, nat)>): (r: seq<LoopType>)
    ensures |r| == |ap| && forall k :: 0 <= k < |r| ==> r[k] == ap[k].0
  {
    seq(|ap|, k requires 0 <= k < |ap| => ap[k].0)
  }

  lemma {:induction false} LevelsKinds(types: seq<LoopType>, axes: seq<nat>)
    requires |types| == |axes|
    ensures Kinds(Levels(types, axes)) == Erase(types)
  {
    if types != [] {
      LevelsKinds(types[1..], axes[1..]);
      var head := if types[0] == Regular then [] else [(types[0], axes[0])];
      KindsConcat(head, Levels(types[1..], axes[1..]));
      assert Kinds(head) == if types[0] == Regular then [] else [types[0]];
    }
  }

  lemma {:induction false} AxisPathIsPath(t: Loop, ap: seq<(LoopType, nat)>)
    requires WellTyped(t) && IsAxisPath(t, ap)
    ensures IsPath(t, Kinds(ap))
    decreases Size(t)
  {
    var own := Levels(t.info.types, AxisHeights(t));
    var x, rest := AxisPathChild(t, ap);
    LevelsKinds(t.info.types, AxisHeights(t));
    KindsConcat(own, rest);
    if Frontier(t.children) == [] {
      LeafPath(t);
      assert rest == [] && Kinds(own) + Kinds([]) == Kinds(own);
    } else {
      AxisPathIsPath(x, rest);
      PathThroughChild(t, x, Kinds(rest));
    }
  }

  lemma {:induction false} KindsConcat(a: seq<(LoopType, nat)>, b: seq<(LoopType, nat)>)
    ensures Kinds(a + b) == Kinds(a) + Kinds(b)
  {
  }

  lemma {:induction false} LeafPath(t: Loop)
    requires Frontier(t.children) == []
    ensures IsPath(t, Erase(t.info.types))
  {
  }

  /** Every axis is the number of levels of the same type further down the path. */
  ghost predicate CountsBelow(ap: seq<(LoopType, nat)>) {
    forall i :: 0 <= i < |ap| ==> LevelCounts(ap, i)
  }

  predicate LevelCounts(ap: seq<(LoopType, nat)>, i: nat)
    requires i < |ap|
  {
    ap[i].1 == Count(Kinds(ap[i + 1..]), ap[i].0)
  }

  /** The levels of one loop, given the number of levels of each type below it. */
  lemma {:induction false} OwnLevelsCount(t: Loop, rest: seq<(LoopType, nat)>)
    requires WellTyped(t) && CountsBelow(rest)
    requires forall kind :: kind != Regular ==> HeightSameType(t, kind) == Count(Kinds(rest), kind)
    ensures CountsBelow(Levels(t.info.types, AxisHeights(t)) + rest)
  {
    LevelsCount(t.info.types, AxisHeights(t), rest);
  }

  lemma {:induction false} LevelsCount(types: seq<LoopType>, h: seq<nat>, rest: seq<(LoopType, nat)>)
    requires TypesOk(types) && |h| == |types| && CountsBelow(rest)
    requires |types| == 2 && types[1] != Regular ==> h[1] == Count(Kinds(rest), types[1])
    requires types[0] != Regular ==>
               h[0] == Count(Kinds(rest), types[0]) + (if |types| == 2 && types[1] == types[0] then 1 else 0)
    ensures CountsBelow(Levels(types, h) + rest)
  {
    if types[0] == Regular {
      NoLevels(types, h);
      assert [] + rest == rest;
    } else if |types| == 1 || types[1] == Regular {
      OneLevel(types, h);
      OneMore((types[0], h[0]), rest);
    } else {
      TwoLevels(types, h);
      TwoMore((types[0], h[0]), (types[1], h[1]), rest);
    }
  }

  lemma {:induction false} TwoMore(first: (LoopType, nat), second: (LoopType, nat), rest: seq<(LoopType, nat)>)
    requires CountsBelow(rest) && second.1 == Count(Kinds(rest), second.0)
    requires first.1 == Count(Kinds(rest), first.0) + (if second.0 == first.0 then 1 else 0)
    ensures CountsBelow([first, second] + rest)
  {
    OneMore(second, rest);
    KindsCons(second, rest, first.0);
    OneMore(first, [second] + rest);
    assert [first] + ([second] + rest) == [first, second] + rest;
  }

  lemma {:induction false} KindsCons(level: (LoopType, nat), rest: seq<(LoopType, nat)>, kind: LoopType)
    ensures Count(Kinds([level] + rest), kind) == (if level.0 == kind then 1 else 0) + Count(Kinds(rest), kind)
  {
    assert Kinds([level] + rest) == [level.0] + Kinds(rest);
    assert ([level.0] + Kinds(rest))[1..] == Kinds(rest);
  }

  lemma {:induction false} OneMore(level: (LoopType, nat), rest: seq<(LoopType, nat)>)
    requires CountsBelow(rest) && level.1 == Count(Kinds(rest), level.0)
    ensures CountsBelow([level] + rest)
  {
    var ap := [level] + rest;
    assert ap[1..] == rest;
    forall i | 0 <= i < |ap| ensures LevelCounts(ap, i) {
      if i > 0 {
        assert LevelCounts(rest, i - 1);
        assert ap[i + 1..] == rest[i - 1 + 1..];
      }
    }
  }

  lemma {:induction false} NoLevels(types: seq<LoopType>, axes: seq<nat>)
    requires |types| == |axes| && IsRegular(types)
    ensures Levels(types, axes) == []
  {
    if types != [] { NoLevels(types[1..], axes[1..]); }
  }

  lemma {:induction false} OneLevel(types: seq<LoopType>, axes: seq<nat>)
    requires 1 <= |types| == |axes| <= 2 && types[0] != Regular && (|types| == 2 ==> types[1] == Regular)
    ensures Levels(types, axes) == [(types[0], axes[0])]
  {
    NoLevels(types[1..], axes[1..]);
  }

  lemma {:induction false} TwoLevels(types: seq<LoopType>, axes: seq<nat>)
    requires |types| == |axes| == 2 && Regular !in types
    ensures Levels(types, axes) == [(types[0], axes[0]), (types[1], axes[1])]
  {
    OneLevel(types[1..], axes[1..]);
  }

  lemma {:induction false} HeightsBelow(t: Loop, own: seq<LoopType>, rest: seq<LoopType>)
    requires WellTyped(t) && Attributed(t) && OnePathOf(t) && own == Erase(t.info.types) && IsPath(t, own + rest)
    ensures forall kind :: kind != Regular ==> HeightSameType(t, kind) == Count(rest, kind)
  {
    forall kind | kind != Regular ensures HeightSameType(t, kind) == Count(rest, kind) {
      HeightOnEveryPath(t, own + rest, kind);
      CountConcat(own, rest, kind);
      EraseKeepsCount(t.info.types, kind);
    }
  }

  /** An axis path goes on through one of the attributed children. */
  lemma {:induction false} AxisPathChild(t: Loop, ap: seq<(LoopType, nat)>)
    returns (x: Loop, rest: seq<(LoopType, nat)>)
    requires WellTyped(t) && IsAxisPath(t, ap)
    ensures ap == Levels(t.info.types, AxisHeights(t)) + rest
    ensures Frontier(t.children) == [] ==> rest == []
    ensures Frontier(t.children) != [] ==>
              x in Frontier(t.children) && Attributed(x) && WellTyped(x) && Size(x) < Size(t) && IsAxisPath(x, rest)
  {
    var own := Levels(t.info.types, AxisHeights(t));
    rest, x := ap[|own|..], t;
    if Frontier(t.children) != [] {
      var k := AxisPathStep(t, ap);
      x := Frontier(t.children)[k];
    }
  }

  lemma {:induction false} AxisPathStep(t: Loop, ap: seq<(LoopType, nat)>) returns (k: nat)
    requires WellTyped(t) && IsAxisPath(t, ap) && Frontier(t.children) != []
    ensures var own, kids := Levels(t.info.types, AxisHeights(t)), Frontier(t.children);
            k < |kids| && WellTyped(kids[k]) && Size(kids[k]) < Size(t) && |own| <= |ap|
              && IsAxisPath(kids[k], ap[|own|..])
  {
    var own, kids := Levels(t.info.types, AxisHeights(t)), Frontier(t.children);
    FrontierWellTyped(t.children);
    k :| 0 <= k < |kids| && (FrontierShrinks(t.children, kids[k]); IsAxisPath(kids[k], ap[|own|..]));
    FrontierShrinks(t.children, kids[k]);
  }

  lemma {:induction false} AxesCountLevelsBelow(t: Loop, ap: seq<(LoopType, nat)>)
    requires WellTyped(t) && Attributed(t) && OnePathOf(t) && IsAxisPath(t, ap)
    ensures CountsBelow(ap)
    decreases Size(t), 1
  {
    var own := Levels(t.info.types, AxisHeights(t));
    var x, rest := AxisPathChild(t, ap);
    AxisPathIsPath(t, ap);
    LevelsKinds(t.info.types, AxisHeights(t));
    KindsConcat(own, rest);
    HeightsBelow(t, Kinds(own), Kinds(rest));
    if rest != [] { AxesCountChild(t, x, rest); }
    OwnLevelsCount(t, rest);
  }

  lemma {:induction false} AxesCountChild(t: Loop, x: Loop, rest: seq<(LoopType, nat)>)
    requires OnePathOf(t) && x in Frontier(t.children) && Attributed(x) && WellTyped(x) && Size(x) < Size(t)
             && IsAxisPath(x, rest)
    ensures CountsBelow(rest)
    decreases Size(t), 0
  {
    ChildOnePath(t, x);
    AxesCountLevelsBelow(x, rest);
  }

  lemma {:induction false} CountDrops(s: seq<LoopType>, i: nat, j: nat)
    requires i < j < |s| && s[i] == s[j]
    ensures Count(s[i + 1..], s[i]) > Count(s[j + 1..], s[i])
    decreases j - i
  {
    if j == i + 1 {
      assert s[i + 1..][1..] == s[j + 1..];
    } else {
      CountSuffix(s, i + 1, j, s[i]);
      assert s[j..][1..] == s[j + 1..];
    }
  }

  lemma {:induction false} CountSuffix(s: seq<LoopType>, i: nat, j: nat, kind: LoopType)
    requires i <= j <= |s|
    ensures Count(s[i..], kind) >= Count(s[j..], kind)
    decreases j - i
  {
    if i < j {
      assert s[i..][1..] == s[i + 1..];
      CountSuffix(s, i + 1, j, kind);
    }
  }

  lemma {:induction false} TreeOfForest(ts: seq<Loop>, t: Loop)
    requires OneSignature(ts) && t in ts
    ensures OnePathOf(t)
  {
    var k :| 0 <= k < |ts| && ts[k] == t;
    forall p, q | IsPath(t, p) && IsPath(t, q) ensures p == q {
      assert IsForestPath(ts, p) by { assert IsPath(ts[k], p); }
      assert IsForestPath(ts, q) by { assert IsPath(ts[k], q); }
    }
  }

  lemma {:induction false} DistinctAxes(ap: seq<(LoopType, nat)>, i: nat, j: nat)
    requires CountsBelow(ap) && i < j < |ap| && ap[i].0 == ap[j].0
    ensures ap[i].1 > ap[j].1
  {
    assert LevelCounts(ap, i) && LevelCounts(ap, j);
    CountDrops(Kinds(ap), i, j);
    assert Kinds(ap)[i + 1..] == Kinds(ap[i + 1..]) && Kinds(ap)[j + 1..] == Kinds(ap[j + 1..]);
  }

  ghost predicate AxesFit(ap: seq<(LoopType, nat)>) {
    forall i :: 0 <= i < |ap| ==> ap[i].1 <= MAX_AXIS_SZ
  }

  lemma {:induction false} FitMeansThreeLevels(ap: seq<(LoopType, nat)>)
    requires CountsBelow(ap) && Regular !in Kinds(ap)
    ensures AxesFit(ap) <==> Count(Kinds(ap), Outer) <= MAX_AXIS_SZ + 1 && Count(Kinds(ap), Inner) <= MAX_AXIS_SZ + 1
  {
    LargestAxis(ap, Outer);
    LargestAxis(ap, Inner);
    forall i | 0 <= i < |ap| ensures ap[i].0 == Outer || ap[i].0 == Inner {
      assert Kinds(ap)[i] in Kinds(ap);
    }
  }

  /** In an accepted forest, on every path: each axis counts the levels of its type below, axes of
    * one type never repeat, and they fit the hardware exactly when no type has more than three levels. */
  lemma {:induction false} AcceptedAxes(ts: seq<Loop>, t: Loop, ap: seq<(LoopType, nat)>)
    requires AllWellTyped(ts) && OneSignature(ts) && t in ts && Attributed(t) && WellTyped(t) && IsAxisPath(t, ap)
    ensures CountsBelow(ap)
    ensures forall i: nat, j: nat :: i < j < |ap| && ap[i].0 == ap[j].0 ==> ap[i].1 > ap[j].1
    ensures AxesFit(ap) <==> Count(Kinds(ap), Outer) <= MAX_AXIS_SZ + 1 && Count(Kinds(ap), Inner) <= MAX_AXIS_SZ + 1
  {
    TreeOfForest(ts, t);
    AxesCountLevelsBelow(t, ap);
    AxisPathIsPath(t, ap);
    PathsHaveNoRegular(t, Kinds(ap));
    forall i: nat, j: nat | i < j < |ap| && ap[i].0 == ap[j].0 ensures ap[i].1 > ap[j].1 {
      DistinctAxes(ap, i, j);
    }
    FitMeansThreeLevels(ap);
  }

  /** The largest axis of a type is one less than its number of levels. */
  lemma {:induction false} LargestAxis(ap: seq<(LoopType, nat)>, kind: LoopType)
    requires CountsBelow(ap)
    ensures forall i :: 0 <= i < |ap| && ap[i].0 == kind ==> ap[i].1 < Count(Kinds(ap), kind)
    ensures Count(Kinds(ap), kind) > 0
            ==> exists i :: 0 <= i < |ap| && ap[i].0 == kind && ap[i].1 == Count(Kinds(ap), kind) - 1
  {
    if ap != [] {
      var rest := ap[1..];
      assert Kinds(ap)[1..] == Kinds(rest);
      assert CountsBelow(rest) by {
        forall i | 0 <= i < |rest| ensures LevelCounts(rest, i) {
          assert LevelCounts(ap, i + 1) && rest[i + 1..] == ap[i + 1 + 1..];
        }
      }
      LargestAxis(rest, kind);
      assert forall i :: 0 < i < |ap| ==> ap[i] == rest[i - 1];
      if ap[0].0 == kind {
        assert LevelCounts(ap, 0);
      } else if Count(Kinds(rest), kind) > 0 {
        var i :| 0 <= i < |rest| && rest[i].0 == kind && rest[i].1 == Count(Kinds(rest), kind) - 1;
        assert ap[i + 1] == rest[i];
      }
    }
  }

  lemma {:induction false} ErasedIsAttributed(types: seq<LoopType>)
    ensures Regular !in Erase(types)
  {
    if types != [] { ErasedIsAttributed(types[1..]); }
  }

  lemma {:induction false} PathsHaveNoRegular(t: Loop, p: seq<LoopType>)
    requires IsPath(t, p)
    ensures Regular !in p
    decreases Size(t)
  {
    var x, rest := PathChild(t, p);
    ErasedIsAttributed(t.info.types);
    if Frontier(t.children) != [] { PathsHaveNoRegular(x, rest); }
  }
}
