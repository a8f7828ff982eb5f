/** The sizes of the @inner loops of a tree, used as the launch bound and as the length of
  * @exclusive arrays.
  */
module InnerSizes {
  import opened LoopLang
  import opened LoopHeader
  import opened LoopTree
  import opened KernelUtils
  import opened Axes

  /** One size per axis; None is a size not known at compile time. */
  type OptSizes = s: seq<Option<nat>> | |s| == 3 witness [None, None, None]

  const ONES: OptSizes := [Some(1), Some(1), Some(1)]

  function ValueOrOne(o: Option<nat>): nat {
    if o.Some? then o.value else 1
  }

  function Product(s: OptSizes): nat {
    ValueOrOne(s[0]) * ValueOrOne(s[1]) * ValueOrOne(s[2])
  }

  predicate HasNullOpts(s: OptSizes) {
    s[0].None? || s[1].None? || s[2].None?
  }

  /** Every @inner type of every loop has a concrete axis. */
  predicate Settled(t: Loop) {
    && TypesOk(t.info.types) && |t.info.axes| == |t.info.types|
    && (forall k :: 0 <= k < |t.info.types| && t.info.types[k] == Inner ==> t.info.axes[k] != Auto)
    && forall k :: 0 <= k < |t.children| ==> Settled(t.children[k])
  }

  predicate AllSettled(ts: seq<Loop>) {
    forall k :: 0 <= k < |ts| ==> Settled(ts[k])
  }

  function KnownTile(info: Info): Option<nat> {
    if info.size.Lit? && info.size.n >= 0 then Some(info.size.n) else None
  }

  /** The size recorded for the first loop of a tile: the ceiling, in the form 1 + (n - 1) / T. */
  function FirstTileSize(info: Info): Option<nat> {
    if info.size.Lit? && info.size.n > 0 && info.rangeSize > 0 then Some(1 + (info.rangeSize - 1) / info.size.n)
      else None
  }

  /** Writes the sizes of one loop over those of the loops inside it. */
  function WithOwn(info: Info, ret: OptSizes): OptSizes
    requires TypesOk(info.types) && |info.axes| == |info.types|
    requires forall k :: 0 <= k < |info.types| && info.types[k] == Inner ==> info.axes[k] != Auto
  {
    if Inner !in info.types then ret
    else if |info.types| == 1
    then ret[AxisNumber(info.axes[0]) := if info.rangeSize == 0 then None else Some(info.rangeSize)]
    else
      var ret1: OptSizes := if info.types[1] == Inner then ret[AxisNumber(info.axes[1]) := KnownTile(info)] else ret;
      if info.types[0] == Inner then ret1[AxisNumber(info.axes[0]) := FirstTileSize(info)] else ret1
  }

  /** Keeps the sizes of the last child whose product exceeds that of the child before it. */
  function KeptSizes(ts: seq<Loop>, prevProd: nat, ret: OptSizes): OptSizes
    requires AllSettled(ts)
    decreases ts, 0
  {
    if ts == [] then ret
    else
      assert Settled(ts[0]);
      var sizes := Sizes(ts[0]);
      KeptSizes(ts[1..], Product(sizes), if Product(sizes) > prevProd then sizes else ret)
  }

  function Sizes(t: Loop): OptSizes
    requires Settled(t)
    decreases t, 1
  {
    if IsRegular(t.info.types) && t.children == [] then ONES else WithOwn(t.info, KeptSizes(t.children, 0, ONES))
  }

  method GetInnerSizes(t: Loop) returns (ret: OptSizes)
    requires Settled(t)
    ensures ret == Sizes(t)
    decreases t
  {
    ret := ONES;
    if IsRegular(t.info.types) && t.children == [] {
      return;
    }
    var prevProd: nat := 0;
    for k := 0 to |t.children|
      invariant KeptSizes(t.children, 0, ONES) == KeptSizes(t.children[k..], prevProd, ret)
    {
      assert Settled(t.children[k]);
      assert t.children[k..][1..] == t.children[k + 1..];
      var currSizes := GetInnerSizes(t.children[k]);
      var prod := Product(currSizes);
      if prod > prevProd {
        ret := currSizes;
      }
      prevProd := prod;
    }
    if Inner in t.info.types {
      if |t.info.types| == 1 {
        ret := ret[AxisNumber(t.info.axes[0]) := if t.info.rangeSize == 0 then None else Some(t.info.rangeSize)];
      } else {
        if t.info.types[1] == Inner {
          ret := ret[AxisNumber(t.info.axes[1]) := KnownTile(t.info)];
        }
        if t.info.types[0] == Inner {
          ret := ret[AxisNumber(t.info.axes[0]) := FirstTileSize(t.info)];
        }
      }
    }
  }

  // ----- paths -----

  /** What one loop multiplies into the number of threads. */
  function Factor(info: Info): nat
    requires TypesOk(info.types)
  {
    if |info.types| == 1 then if info.types[0] == Inner then info.rangeSize else 1
    else (if info.types[1] == Inner then ValueOrOne(KnownTile(info)) else 1)
         * (if info.types[0] == Inner then ValueOrOne(FirstTileSize(info)) else 1)
  }

  /** Sizes of the loop are compile-time constants. */
  predicate Known(info: Info)
    requires TypesOk(info.types)
  {
    Inner in info.types ==>
      && (info.types[0] == Inner ==> info.rangeSize > 0)
      && (|info.types| == 2 ==> info.size.Lit? && info.size.n > 0)
  }

  predicate AllKnown(t: Loop)
    requires Settled(t)
  {
    Known(t.info) && forall k :: 0 <= k < |t.children| ==> AllKnown(t.children[k])
  }

  /** `v` is the product of the inner sizes along one root-to-leaf path. */
  ghost predicate PathProduct(t: Loop, v: nat)
    requires Settled(t)
  {
    if t.children == [] then v == Factor(t.info)
    else exists k, u: nat :: 0 <= k < |t.children| && PathProduct(t.children[k], u) && v == Factor(t.info) * u
  }

  /** Axes of the @inner levels count down from h - 1 along every path. */
  predicate Ranked(t: Loop, h: nat)
    requires Settled(t)
  {
    var types, own := t.info.types, Count(t.info.types, Inner);
    && own <= h <= 3
    && (types[0] == Inner ==> AxisNumber(t.info.axes[0]) == h - 1)
    && (|types| == 2 && types[1] == Inner ==> AxisNumber(t.info.axes[1]) == h - own)
    && forall k :: 0 <= k < |t.children| ==> Ranked(t.children[k], h - own)
  }

  /** Only axes below h are in use, and all sizes are known. */
  predicate Fits(s: OptSizes, h: nat) {
    !HasNullOpts(s) && (forall k :: 0 <= k < 3 ==> ValueOrOne(s[k]) >= 1) && forall k :: h <= k < 3 ==> s[k] == Some(1)
  }

  lemma {:induction false} CountInner(types: seq<LoopType>)
    requires TypesOk(types)
    ensures Count(types, Inner)
            == (if types[0] == Inner then 1 else 0) + (if |types| == 2 && types[1] == Inner then 1 else 0)
    ensures Inner in types <==> Count(types, Inner) > 0
  {
    if |types| == 2 {
      assert types[1..] == [types[1]];
      assert Count([types[1]], Inner) == (if types[1] == Inner then 1 else 0) + Count([types[1]][1..], Inner);
    } else {
      assert types[1..] == [];
    }
  }

  lemma {:induction false} SetOne(s: OptSizes, a: nat, v: nat)
    requires a < 3 && Fits(s, a) && v >= 1
    ensures Fits(s[a := Some(v)], a + 1) && Product(s[a := Some(v)]) == v * Product(s)
  {
    var x, y, z := ValueOrOne(s[0]), ValueOrOne(s[1]), ValueOrOne(s[2]);
    if a == 2 { assert z == 1; assert x * y * v == v * (x * y * 1); }
    if a == 1 { assert y == 1 && z == 1; assert x * v * 1 == v * (x * 1 * 1); }
    if a == 0 { assert x == 1 && y == 1 && z == 1; assert v * 1 * 1 == v * (1 * 1 * 1); }
  }

  /** The own sizes of a loop multiply its factor into the product. */
  lemma {:induction false} OwnMultiplies(t: Loop, h: nat, ret: OptSizes)
    requires Settled(t) && Ranked(t, h) && Known(t.info) && Fits(ret, h - Count(t.info.types, Inner))
    ensures Fits(WithOwn(t.info, ret), h) && Product(WithOwn(t.info, ret)) == Factor(t.info) * Product(ret)
    ensures Factor(t.info) >= 1
  {
    var info, types := t.info, t.info.types;
    CountInner(types);
    if |types| == 1 {
      if types[0] == Inner { SetOne(ret, h - 1, info.rangeSize); }
    } else if types[0] == Inner && types[1] == Inner {
      SetOne(ret, h - 2, info.size.n);
      var ret1: OptSizes := ret[h - 2 := Some(info.size.n)];
      SetOne(ret1, h - 1, FirstTileSize(info).value);
      Swap(FirstTileSize(info).value, info.size.n, Product(ret));
    } else if types[1] == Inner {
      SetOne(ret, h - 1, info.size.n);
    } else if types[0] == Inner {
      SetOne(ret, h - 1, FirstTileSize(info).value);
    }
  }

  lemma {:induction false} Swap(a: nat, b: nat, p: nat)
    ensures a * (b * p) == (b * a) * p
  {
  }

  // ----- which child is kept -----

  function Products(ts: seq<Loop>): (ps: seq<nat>)
    requires AllSettled(ts)
    ensures |ps| == |ts| && forall k :: 0 <= k < |ts| ==> Settled(ts[k]) && ps[k] == Product(Sizes(ts[k]))
  {
    seq(|ts|, k requires 0 <= k < |ts| => assert Settled(ts[k]); Product(Sizes(ts[k])))
  }

  /** The last position whose product exceeds the one before it (or `prev`, for the first). */
  function LastRise(ps: seq<nat>, prev: nat): Option<nat> {
    if ps == [] then None
    else
      match LastRise(ps[1..], ps[0])
      case Some(k) => Some(k + 1)
      case None => if ps[0] > prev then Some(0) else None
  }

  lemma {:induction false} KeptIsLastRise(ts: seq<Loop>, prev: nat, ret: OptSizes)
    requires AllSettled(ts)
    ensures match LastRise(Products(ts), prev)
            case None => KeptSizes(ts, prev, ret) == ret
            case Some(k) => k < |ts| && Settled(ts[k]) && KeptSizes(ts, prev, ret) == Sizes(ts[k])
  {
    if ts != [] {
      assert Settled(ts[0]);
      var p := Product(Sizes(ts[0]));
      KeptIsLastRise(ts[1..], p, if p > prev then Sizes(ts[0]) else ret);
      assert Products(ts)[1..] == Products(ts[1..]);
    }
  }

  /** After the last rise nothing exceeds it; without a rise nothing exceeds `prev`. */
  lemma {:induction false} LastRiseFacts(ps: seq<nat>, prev: nat)
    ensures match LastRise(ps, prev)
            case None => forall j :: 0 <= j < |ps| ==> ps[j] <= prev
            case Some(k) =>
              && k < |ps| && ps[k] > (if k == 0 then prev else ps[k - 1])
              && forall j :: k <= j < |ps| ==> ps[j] <= ps[k]
  {
    if ps != [] {
      LastRiseFacts(ps[1..], ps[0]);
      assert forall j :: 0 < j < |ps| ==> ps[j] == ps[1..][j - 1];
    }
  }

  /** A product that falls never rises again. */
  predicate NoRiseAfterFall(ps: seq<nat>) {
    forall i, j, k :: 0 <= i < j < k < |ps| ==> !(ps[i] > ps[j] && ps[j] < ps[k])
  }

  /** The kept product is the greatest exactly when none before the last rise exceeds it. */
  lemma {:induction false} KeptIsGreatest(ps: seq<nat>, k: nat)
    requires LastRise(ps, 0) == Some(k)
    ensures k < |ps|
    ensures (forall j :: 0 <= j < |ps| ==> ps[j] <= ps[k]) <==> forall j :: 0 <= j < k ==> ps[j] <= ps[k]
    ensures NoRiseAfterFall(ps) ==> forall j :: 0 <= j < |ps| ==> ps[j] <= ps[k]
  {
    LastRiseFacts(ps, 0);
    if NoRiseAfterFall(ps) {
      forall j | 0 <= j < k ensures ps[j] <= ps[k] {
        if j < k - 1 { assert !(ps[j] > ps[k - 1] && ps[k - 1] < ps[k]); }
      }
    }
  }

  // ----- the product of a tree -----

  lemma {:induction false} KeptChild(ts: seq<Loop>, h: nat) returns (k: nat)
    requires AllSettled(ts) && ts != []
    requires forall j :: 0 <= j < |ts| ==> Fits(Sizes(ts[j]), h) && Product(Sizes(ts[j])) >= 1
    ensures LastRise(Products(ts), 0) == Some(k) && k < |ts| && Settled(ts[k]) && KeptSizes(ts, 0, ONES) == Sizes(ts[k])
  {
    KeptIsLastRise(ts, 0, ONES);
    LastRiseFacts(Products(ts), 0);
    assert Products(ts)[0] >= 1;
    k := LastRise(Products(ts), 0).value;
  }

  lemma {:induction false} Positive(a: nat, b: nat)
    requires a >= 1 && b >= 1
    ensures a * b >= 1
  {
  }

  lemma {:induction false} LeafSizes(t: Loop, h: nat)
    requires Settled(t) && Ranked(t, h) && Known(t.info) && t.children == []
    ensures Fits(Sizes(t), h) && Product(Sizes(t)) == Factor(t.info) >= 1
  {
    CountInner(t.info.types);
    OwnMultiplies(t, h, ONES);
    assert Factor(t.info) * 1 == Factor(t.info);
  }

  /** The computed product is always the product along one of the paths. */
  lemma {:induction false} SizesOnPath(t: Loop, h: nat)
    requires Settled(t) && Ranked(t, h) && AllKnown(t)
    ensures Fits(Sizes(t), h) && PathProduct(t, Product(Sizes(t))) && Product(Sizes(t)) >= 1
    decreases t
  {
    if t.children == [] {
      LeafSizes(t, h);
    } else {
      var below := h - Count(t.info.types, Inner);
      forall j | 0 <= j < |t.children|
        ensures Fits(Sizes(t.children[j]), below) && PathProduct(t.children[j], Product(Sizes(t.children[j])))
                && Product(Sizes(t.children[j])) >= 1
      {
        SizesOnPath(t.children[j], below);
      }
      var k := KeptChild(t.children, below);
      OwnMultiplies(t, h, Sizes(t.children[k]));
      Positive(Factor(t.info), Product(Sizes(t.children[k])));
    }
  }

  /** In every loop the children's products never rise again after a fall. */
  predicate Unimodal(t: Loop)
    requires Settled(t)
  {
    NoRiseAfterFall(Products(t.children)) && forall k :: 0 <= k < |t.children| ==> Unimodal(t.children[k])
  }

  lemma {:induction false} ProductStep(t: Loop, v: nat) returns (i: nat, u: nat)
    requires Settled(t) && t.children != [] && PathProduct(t, v)
    ensures i < |t.children| && Settled(t.children[i]) && PathProduct(t.children[i], u) && v == Factor(t.info) * u
  {
    i, u :| 0 <= i < |t.children| && PathProduct(t.children[i], u) && v == Factor(t.info) * u;
  }

  /** Then the computed product is the largest over all paths. */
  lemma {:induction false} SizesAreLargest(t: Loop, h: nat, v: nat)
    requires Settled(t) && Ranked(t, h) && AllKnown(t) && Unimodal(t) && PathProduct(t, v)
    ensures v <= Product(Sizes(t))
  {
    UnimodalKeeps(t, h);
    LargestExactly(t, h);
  }

  lemma {:induction false} UnimodalKeeps(t: Loop, h: nat)
    requires Settled(t) && Ranked(t, h) && AllKnown(t) && Unimodal(t)
    ensures KeepsLargest(t)
    decreases t
  {
    if t.children != [] {
      var k := KeptAt(t, h);
      var below := h - Count(t.info.types, Inner);
      forall j | 0 <= j < |t.children|
        ensures Settled(t.children[j]) && MaxProduct(t.children[j]) == Product(Sizes(t.children[j])) {
        UnimodalKeeps(t.children[j], below);
        MaxExactly(t.children[j], below);
      }
      UnimodalKeeps(t.children[k], below);
      KeptIsGreatest(Products(t.children), k);
      KeptTopsAll(t.children, k);
    }
  }

  lemma {:induction false} KeptTopsAll(ts: seq<Loop>, k: nat)
    requires AllSettled(ts) && k < |ts| && forall j :: 0 <= j < |ts| ==> Products(ts)[j] <= Products(ts)[k]
    requires forall j :: 0 <= j < |ts| ==> Settled(ts[j]) && MaxProduct(ts[j]) == Product(Sizes(ts[j]))
    ensures LargestOf(ts) <= MaxProduct(ts[k])
  {
    LargestFacts(ts);
    var j :| 0 <= j < |ts| && Settled(ts[j]) && MaxProduct(ts[j]) == LargestOf(ts);
    assert Products(ts)[j] <= Products(ts)[k];
  }

  // ----- exactly when it is the largest -----

  /** The largest product over all root-to-leaf paths. */
  function MaxProduct(t: Loop): nat
    requires Settled(t)
    decreases t, 1
  {
    if t.children == [] then Factor(t.info) else Factor(t.info) * LargestOf(t.children)
  }

  function LargestOf(ts: seq<Loop>): nat
    requires AllSettled(ts)
    decreases ts, 0
  {
    if ts == [] then 0
    else
      assert Settled(ts[0]);
      var first, rest := MaxProduct(ts[0]), LargestOf(ts[1..]);
      if first > rest then first else rest
  }

  lemma {:induction false} LargestFacts(ts: seq<Loop>)
    requires AllSettled(ts)
    ensures forall j :: 0 <= j < |ts| ==> Settled(ts[j]) && MaxProduct(ts[j]) <= LargestOf(ts)
    ensures ts != [] ==> exists j :: 0 <= j < |ts| && Settled(ts[j]) && MaxProduct(ts[j]) == LargestOf(ts)
  {
    if ts != [] {
      assert Settled(ts[0]);
      LargestFacts(ts[1..]);
      forall j | 0 <= j < |ts| ensures Settled(ts[j]) && MaxProduct(ts[j]) <= LargestOf(ts) {
        if j > 0 { assert ts[j] == ts[1..][j - 1]; }
      }
      if MaxProduct(ts[0]) < LargestOf(ts) {
        var j :| 0 <= j < |ts[1..]| && Settled(ts[1..][j]) && MaxProduct(ts[1..][j]) == LargestOf(ts[1..]);
        assert ts[j + 1] == ts[1..][j];
      }
    }
  }

  /** It is the product of a path, and no path has a larger one. */
  lemma {:induction false} MaxIsLargest(t: Loop)
    requires Settled(t)
    ensures PathProduct(t, MaxProduct(t)) && forall v: nat :: PathProduct(t, v) ==> v <= MaxProduct(t)
    decreases t, 1
  {
    if t.children != [] {
      LargestFacts(t.children);
      var j :| 0 <= j < |t.children| && Settled(t.children[j]) && MaxProduct(t.children[j]) == LargestOf(t.children);
      MaxIsLargest(t.children[j]);
      assert PathProduct(t.children[j], LargestOf(t.children));
      forall v: nat | PathProduct(t, v) ensures v <= MaxProduct(t) { PathBelowMax(t, v); }
    }
  }

  lemma {:induction false} PathBelowMax(t: Loop, v: nat)
    requires Settled(t) && t.children != [] && PathProduct(t, v)
    ensures v <= MaxProduct(t)
    decreases t, 0
  {
    var i, u := ProductStep(t, v);
    MaxIsLargest(t.children[i]);
    LargestFacts(t.children);
    MulMono(Factor(t.info), u, LargestOf(t.children));
  }

  /** From the root down, no sibling of the kept child has a path with a larger product. */
  predicate KeepsLargest(t: Loop)
    requires Settled(t)
    decreases t
  {
    t.children == []
    || match LastRise(Products(t.children), 0)
       case None => false
       case Some(k) =>
         k < |t.children|
         && (assert Settled(t.children[k]);
             KeepsLargest(t.children[k]) && LargestOf(t.children) <= MaxProduct(t.children[k]))
  }

  lemma {:induction false} LargestBelow(t: Loop, h: nat)
    requires Settled(t) && Ranked(t, h) && AllKnown(t)
    ensures Product(Sizes(t)) <= MaxProduct(t)
  {
    SizesOnPath(t, h);
    MaxIsLargest(t);
  }

  lemma {:induction false} CancelFactor(f: nat, a: nat, b: nat)
    requires f >= 1
    ensures f * a == f * b <==> a == b
  {
    if a < b { MulMono(f, a + 1, b); assert f * (a + 1) == f * a + f; }
    if b < a { MulMono(f, b + 1, a); assert f * (b + 1) == f * b + f; }
  }

  /** The computed product is the largest over all paths exactly when every kept child, from the root down,
    * has the largest product among its siblings. */
  lemma {:induction false} LargestExactly(t: Loop, h: nat)
    requires Settled(t) && Ranked(t, h) && AllKnown(t)
    ensures Dominates(t, Product(Sizes(t))) <==> KeepsLargest(t)
  {
    LargestBelow(t, h);
    MaxExactly(t, h);
    DominatesExactly(t, Product(Sizes(t)));
  }

  /** No path has a larger product. */
  ghost predicate Dominates(t: Loop, p: nat)
    requires Settled(t)
  {
    forall v: nat :: PathProduct(t, v) ==> v <= p
  }

  lemma {:induction false} DominatesExactly(t: Loop, p: nat)
    requires Settled(t)
    ensures Dominates(t, p) <==> MaxProduct(t) <= p
  {
    MaxIsLargest(t);
    if Dominates(t, p) { assert PathProduct(t, MaxProduct(t)) ==> MaxProduct(t) <= p; }
  }

  lemma {:induction false} MaxExactly(t: Loop, h: nat)
    requires Settled(t) && Ranked(t, h) && AllKnown(t)
    ensures Product(Sizes(t)) == MaxProduct(t) <==> KeepsLargest(t)
    decreases t
  {
    if t.children == [] {
      LeafSizes(t, h);
    } else {
      var k := KeptAt(t, h);
      var below := h - Count(t.info.types, Inner);
      MaxExactly(t.children[k], below);
      LargestBelow(t.children[k], below);
      LargestFacts(t.children);
      CancelFactor(Factor(t.info), Product(Sizes(t.children[k])), LargestOf(t.children));
    }
  }

  /** The child whose sizes are kept. */
  lemma {:induction false} KeptAt(t: Loop, h: nat) returns (k: nat)
    requires Settled(t) && Ranked(t, h) && AllKnown(t) && t.children != []
    ensures LastRise(Products(t.children), 0) == Some(k) && k < |t.children| && Settled(t.children[k])
    ensures Factor(t.info) >= 1 && Product(Sizes(t)) == Factor(t.info) * Product(Sizes(t.children[k]))
  {
    var below := h - Count(t.info.types, Inner);
    forall j | 0 <= j < |t.children| ensures Fits(Sizes(t.children[j]), below) && Product(Sizes(t.children[j])) >= 1 {
      SizesOnPath(t.children[j], below);
    }
    k := KeptChild(t.children, below);
    OwnMultiplies(t, h, Sizes(t.children[k]));
  }

  // ----- accepted trees are ranked -----

  /** Auto axes settled to the computed numbers, on every loop. */
  predicate AxesComputed(t: Loop)
    requires Settled(t)
  {
    && (forall k :: 0 <= k < |t.info.types| && t.info.types[k] == Inner ==>
          |AxisHeights(t)| == |t.info.types| && AxisNumber(t.info.axes[k]) == AxisHeights(t)[k])
    && forall k :: 0 <= k < |t.children| ==> AxesComputed(t.children[k])
  }

  /** Every attributed loop at or below `t`, nearest first, has the given number of @inner levels on all its paths. */
  ghost predicate InnerLevels(t: Loop, h: nat)
    requires WellTyped(t)
  {
    forall x, p :: x in (if Attributed(t) then [t] else Frontier(t.children)) && IsPath(x, p) ==>
      OnePathOf(x) && Count(p, Inner) == h
  }

  lemma {:induction false} AcceptedIsRanked(t: Loop, h: nat)
    requires WellTyped(t) && Settled(t) && AxesComputed(t) && InnerLevels(t, h) && h <= 3
    ensures Ranked(t, h)
    decreases t
  {
    var own := Count(t.info.types, Inner);
    RankedHere(t, h);
    forall k | 0 <= k < |t.children| ensures Ranked(t.children[k], h - own) {
      InnerLevelsBelow(t, k, h);
      AcceptedIsRanked(t.children[k], h - own);
    }
  }

  lemma {:induction false} InnerLevelsBelow(t: Loop, k: nat, h: nat)
    requires WellTyped(t) && InnerLevels(t, h) && k < |t.children| && Count(t.info.types, Inner) <= h
    requires !Attributed(t) ==> Count(t.info.types, Inner) == 0
    ensures WellTyped(t.children[k]) && InnerLevels(t.children[k], h - Count(t.info.types, Inner))
  {
    if Attributed(t) {
      var p := OwnPath(t, h);
      BelowAttributed(t, p, k, h);
    } else {
      BelowRegular(t, k, h);
    }
  }

  lemma {:induction false} OwnPath(t: Loop, h: nat) returns (p: seq<LoopType>)
    requires WellTyped(t) && Attributed(t) && InnerLevels(t, h)
    ensures IsPath(t, p) && OnePathOf(t) && Count(p, Inner) == h
  {
    p := AnyPath(t);
    assert t in [t];
  }

  lemma {:induction false} RankedHere(t: Loop, h: nat)
    requires WellTyped(t) && Settled(t) && AxesComputed(t) && InnerLevels(t, h) && h <= 3
    ensures var types, own := t.info.types, Count(t.info.types, Inner);
            && own <= h && (!Attributed(t) ==> own == 0)
            && (types[0] == Inner ==> AxisNumber(t.info.axes[0]) == h - 1)
            && (|types| == 2 && types[1] == Inner ==> AxisNumber(t.info.axes[1]) == h - own)
  {
    CountInner(t.info.types);
    if Attributed(t) {
      var p := OwnPath(t, h);
      HeightOnEveryPath(t, p, Inner);
    }
  }

  lemma {:induction false} BelowRegular(t: Loop, k: nat, h: nat)
    requires WellTyped(t) && !Attributed(t) && InnerLevels(t, h) && k < |t.children|
    ensures WellTyped(t.children[k]) && InnerLevels(t.children[k], h)
  {
    FrontierAt(t.children, k);
    assert WellTyped(t.children[k]);
  }

  lemma {:induction false} BelowAttributed(t: Loop, p: seq<LoopType>, k: nat, h: nat)
    requires WellTyped(t) && Attributed(t) && OnePathOf(t) && IsPath(t, p) && Count(p, Inner) == h && k < |t.children|
    ensures Count(t.info.types, Inner) <= h && WellTyped(t.children[k])
            && InnerLevels(t.children[k], h - Count(t.info.types, Inner))
  {
    FrontierAt(t.children, k);
    assert WellTyped(t.children[k]);
    HeightOnEveryPath(t, p, Inner);
    EraseKeepsCount(t.info.types, Inner);
    forall x, q | x in (if Attributed(t.children[k]) then [t.children[k]] else Frontier(t.children[k].children))
      && IsPath(x, q)
      ensures OnePathOf(x) && Count(q, Inner) == h - Count(t.info.types, Inner)
    {
      ChildPath(t, p, x, q);
      ChildOnePath(t, x);
      CountConcat(Erase(t.info.types), q, Inner);
    }
  }

  /** For an accepted loop with its Auto axes settled and all sizes known, the product of getInnerSizes
    * is that of one of its paths, and the largest one exactly when every kept child is the largest. */
  lemma {:induction false} AcceptedLaunchBound(t: Loop, p: seq<LoopType>)
    requires WellTyped(t) && Attributed(t) && Settled(t) && AxesComputed(t) && AllKnown(t)
    requires OnePathOf(t) && IsPath(t, p) && Count(p, Inner) <= 3
    ensures !HasNullOpts(Sizes(t)) && PathProduct(t, Product(Sizes(t)))
    ensures Dominates(t, Product(Sizes(t))) <==> KeepsLargest(t)
    ensures Unimodal(t) ==> KeepsLargest(t)
  {
    var h := Count(p, Inner);
    AcceptedIsRanked(t, h) by {
      forall x, q | x in [t] && IsPath(x, q) ensures OnePathOf(x) && Count(q, Inner) == h { SamePath(t, p, q); }
    }
    SizesOnPath(t, h);
    LargestExactly(t, h);
    if Unimodal(t) { UnimodalKeeps(t, h); }
  }
}
