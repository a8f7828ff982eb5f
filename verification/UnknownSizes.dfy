/** Inner sizes where some are not known at compile time: what is left out of the launch bound, and which `@exclusive`
  * arrays get the default length.
  */
module UnknownSizes {
  import opened LoopLang
  import opened LoopHeader
  import opened LoopTree
  import opened KernelUtils
  import opened SemaCtx
  import opened InnerSizes
  import opened LaunchBound
  import opened Exclusive
  import opened AcceptedKernels
  import opened LaunchedKernels

  // ----- one loop -----

  /** The tile size is a literal, and at least this large. */
  predicate LiteralTile(info: Info, least: nat) {
    info.size.Lit? && info.size.n >= least
  }

  /** An `@inner` level of this loop has a range or a tile size that is no constant. */
  predicate HasUnknown(info: Info)
    requires TypesOk(info.types)
  {
    if |info.types| == 1 then info.types[0] == Inner && info.rangeSize == 0
    else (info.types[0] == Inner && (info.rangeSize == 0 || !LiteralTile(info, 1)))
         || (info.types[1] == Inner && !LiteralTile(info, 0))
  }

  /** The product of the sizes of its `@inner` levels that are constants: the range, or for a tile the number of tiles
    * and the tile size. */
  function KnownFactor(info: Info): nat
    requires TypesOk(info.types)
  {
    if |info.types| == 1 then if info.types[0] == Inner && info.rangeSize > 0 then info.rangeSize else 1
    else (if info.types[0] == Inner && info.rangeSize > 0 && LiteralTile(info, 1)
          then Trips(info.rangeSize, info.size.n) else 1)
         * (if info.types[1] == Inner && LiteralTile(info, 0) then info.size.n else 1)
  }

  // ----- the kept path -----

  predicate AllTyped(p: seq<Loop>) {
    forall k :: 0 <= k < |p| ==> TypesOk(p[k].info.types)
  }

  /** The product of the known sizes on a path. */
  function PathValue(p: seq<Loop>): nat
    requires AllTyped(p)
  {
    if p == [] then 1 else KnownFactor(p[0].info) * PathValue(p[1..])
  }

  /** From `t` down: in each loop the last child whose product exceeds that of the child before it, if there is one. */
  function KeptPath(t: Loop): (p: seq<Loop>)
    requires Settled(t)
    ensures AllTyped(p)
    decreases t, 1
  {
    [t] + match LastRise(KeptValues(t.children), 0)
          case None => []
          case Some(k) =>
            LastRiseFacts(KeptValues(t.children), 0);
            assert Settled(t.children[k]);
            KeptPath(t.children[k])
  }

  function KeptValues(ts: seq<Loop>): (r: seq<nat>)
    requires AllSettled(ts)
    ensures |r| == |ts|
    decreases ts, 0
  {
    if ts == [] then [] else assert Settled(ts[0]); [PathValue(KeptPath(ts[0]))] + KeptValues(ts[1..])
  }

  predicate SomeUnknown(p: seq<Loop>)
    requires AllTyped(p)
  {
    exists k :: 0 <= k < |p| && HasUnknown(p[k].info)
  }

  // ----- what is computed -----

  /** Axes from h on are not in use. */
  predicate UnusedFrom(s: OptSizes, h: nat) {
    forall k :: h <= k < 3 ==> s[k] == Some(1)
  }

  lemma {:induction false} SetAny(s: OptSizes, a: nat, o: Option<nat>)
    requires a < 3 && UnusedFrom(s, a)
    ensures var r: OptSizes := s[a := o];
            && UnusedFrom(r, a + 1) && Product(r) == ValueOrOne(o) * Product(s)
            && (HasNullOpts(r) <==> HasNullOpts(s) || o.None?)
  {
    var x, y, v := ValueOrOne(s[0]), ValueOrOne(s[1]), ValueOrOne(o);
    if a == 2 { assert x * y * v == v * (x * y * 1); }
    if a == 1 { assert x * v * 1 == v * (x * 1 * 1); }
    if a == 0 { assert v * 1 * 1 == v * (1 * 1 * 1); }
  }

  /** A loop adds its own unknown sizes and multiplies its known ones into the product. */
  lemma {:induction false} OwnExactly(t: Loop, h: nat, ret: OptSizes)
    requires Settled(t) && Ranked(t, h) && UnusedFrom(ret, h - Count(t.info.types, Inner))
    ensures var r := WithOwn(t.info, ret);
            && UnusedFrom(r, h) && Product(r) == KnownFactor(t.info) * Product(ret)
            && (HasNullOpts(r) <==> HasNullOpts(ret) || HasUnknown(t.info))
  {
    var info, types := t.info, t.info.types;
    CountInner(types);
    if |types| == 1 {
      if types[0] == Inner { SetAny(ret, h - 1, if info.rangeSize == 0 then None else Some(info.rangeSize)); }
    } else if Inner in types {
      if info.rangeSize > 0 && LiteralTile(info, 1) { SameCeiling(info.rangeSize, info.size.n); }
      var ret1: OptSizes := if types[1] == Inner then ret[AxisNumber(info.axes[1]) := KnownTile(info)] else ret;
      if types[1] == Inner { SetAny(ret, AxisNumber(info.axes[1]), KnownTile(info)); }
      if types[0] == Inner { SetAny(ret1, h - 1, FirstTileSize(info)); }
      Regroup(ValueOrOne(FirstTileSize(info)), ValueOrOne(KnownTile(info)), Product(ret));
    }
  }

  lemma {:induction false} Regroup(a: nat, b: nat, p: nat)
    ensures a * (b * p) == (a * b) * p
  {
  }

  lemma {:induction false} ValueAt(ts: seq<Loop>, k: nat)
    requires AllSettled(ts) && k < |ts|
    ensures Settled(ts[k]) && KeptValues(ts)[k] == PathValue(KeptPath(ts[k]))
  {
    assert Settled(ts[0]);
    if k > 0 { ValueAt(ts[1..], k - 1); }
  }

  lemma {:induction false} KeptAreProducts(ts: seq<Loop>)
    requires AllSettled(ts)
    requires forall k :: 0 <= k < |ts| ==> Settled(ts[k]) && Product(Sizes(ts[k])) == PathValue(KeptPath(ts[k]))
    ensures KeptValues(ts) == Products(ts)
  {
    forall k | 0 <= k < |ts| ensures KeptValues(ts)[k] == Products(ts)[k] { ValueAt(ts, k); }
  }

  /** The sizes of a loop are those of the path kept. */
  predicate OfKeptPath(t: Loop, h: nat)
    requires Settled(t)
  {
    && UnusedFrom(Sizes(t), h) && Product(Sizes(t)) == PathValue(KeptPath(t))
    && (HasNullOpts(Sizes(t)) <==> SomeUnknown(KeptPath(t)))
  }

  lemma {:induction false} PathCons(t: Loop, p: seq<Loop>)
    requires TypesOk(t.info.types) && AllTyped(p)
    ensures AllTyped([t] + p) && PathValue([t] + p) == KnownFactor(t.info) * PathValue(p)
    ensures SomeUnknown([t] + p) <==> HasUnknown(t.info) || SomeUnknown(p)
  {
    var q := [t] + p;
    assert q[1..] == p && q[0] == t;
    if SomeUnknown(p) {
      var k :| 0 <= k < |p| && HasUnknown(p[k].info);
      assert q[k + 1] == p[k];
    }
  }

  lemma {:induction false} KeptPathCase(t: Loop, r: Option<nat>)
    requires Settled(t) && r == LastRise(KeptValues(t.children), 0)
    ensures match r
            case None => KeptPath(t) == [t] + []
            case Some(k) => k < |t.children| && Settled(t.children[k]) && KeptPath(t) == [t] + KeptPath(t.children[k])
  {
    LastRiseFacts(KeptValues(t.children), 0);
  }

  /** What the loops inside contribute: the path kept, or nothing. */
  lemma {:induction false} InsideExactly(t: Loop, g: nat) returns (p: seq<Loop>)
    requires Settled(t) && g <= 3
    requires forall k :: 0 <= k < |t.children| ==> Settled(t.children[k]) && OfKeptPath(t.children[k], g)
    ensures AllTyped(p) && KeptPath(t) == [t] + p && KeptFrom(t.children, p, g)
  {
    KeptAreProducts(t.children);
    var r := LastRise(Products(t.children), 0);
    KeptPathCase(t, r);
    p := if r.None? then [] else KeptPath(t.children[r.value]);
    KeptSizesCase(t.children, r, p, g);
  }

  lemma {:induction false} KeptSizesCase(ts: seq<Loop>, r: Option<nat>, p: seq<Loop>, g: nat)
    requires AllSettled(ts) && AllTyped(p) && g <= 3 && r == LastRise(Products(ts), 0)
    requires if r.None? then p == []
             else r.value < |ts| && Settled(ts[r.value]) && p == KeptPath(ts[r.value]) && OfKeptPath(ts[r.value], g)
    ensures KeptFrom(ts, p, g)
  {
    KeptIsLastRise(ts, 0, ONES);
  }

  /** The sizes kept from the loops inside are those of this path. */
  predicate KeptFrom(ts: seq<Loop>, p: seq<Loop>, g: nat)
    requires AllSettled(ts) && AllTyped(p)
  {
    var s := KeptSizes(ts, 0, ONES);
    UnusedFrom(s, g) && Product(s) == PathValue(p) && (HasNullOpts(s) <==> SomeUnknown(p))
  }

  /** For any settled tree whose inner axes count down, sizes known or not: some size is missing if and only if some
    * `@inner` loop on the path kept has an unknown range or tile size, and the product is that of the known sizes on
    * that path. */
  lemma {:induction false} SizesExactly(t: Loop, h: nat)
    requires Settled(t) && Ranked(t, h)
    ensures OfKeptPath(t, h)
    decreases t
  {
    var g := h - Count(t.info.types, Inner);
    forall k | 0 <= k < |t.children| ensures Settled(t.children[k]) && OfKeptPath(t.children[k], g) {
      SizesExactly(t.children[k], g);
    }
    var p := InsideExactly(t, g);
    PathCons(t, p);
    var inside := KeptSizes(t.children, 0, ONES);
    if IsRegular(t.info.types) && t.children == [] {
      assert !HasUnknown(t.info) && KnownFactor(t.info) == 1;
    } else {
      OwnExactly(t, h, inside);
    }
  }

  // ----- accepted kernels -----

  /** In every accepted kernel, whatever its sizes: the launch bound is left out if and only if some `@inner` loop on
    * the path kept has an unknown size, and is otherwise the product of the sizes on that path. */
  lemma {:induction false} KernelSizes(ts: seq<Loop>, s: State, k: nat)
    requires PassOf(ts, s) && Verified(OuterTrees(s)) && k < |OuterTrees(s)|
    ensures var t := OuterTrees(s)[k];
            && Settled(t) && (HasNullOpts(Sizes(t)) <==> SomeUnknown(KeptPath(t)))
            && Product(Sizes(t)) == PathValue(KeptPath(t))
  {
    var h := AcceptedRank(ts, s, k);
    SizesExactly(OuterTrees(s)[k], h);
  }

  /** The length of the array around these loops: 1024 if the path kept in one of them has an unknown size, else the
    * largest of the products. */
  predicate LengthOfPaths(children: seq<Loop>, length: nat)
    requires AllSettled(children)
  {
    if exists k :: 0 <= k < |children| && (assert Settled(children[k]); SomeUnknown(KeptPath(children[k])))
    then length == 1024
    else (forall k :: 0 <= k < |children| ==> (assert Settled(children[k]); PathValue(KeptPath(children[k])) <= length))
         && (length == 0
             || exists k :: 0 <= k < |children|
                  && (assert Settled(children[k]); length == PathValue(KeptPath(children[k]))))
  }

  lemma {:induction false} DeclaredOfPaths(children: seq<Loop>, h: nat, length: nat)
    requires AllSettled(children) && forall k :: 0 <= k < |children| ==> Settled(children[k]) && Ranked(children[k], h)
    ensures IsDeclared(children, length) <==> LengthOfPaths(children, length)
  {
    forall k | 0 <= k < |children| ensures Settled(children[k]) && OfKeptPath(children[k], h) {
      SizesExactly(children[k], h);
    }
  }

  /** In every accepted kernel the array that an `@exclusive` variable gets in a loop has that length. */
  lemma {:induction false} KernelDeclares(ts: seq<Loop>, s: State, k: nat, o: Loop, length: nat)
    requires PassOf(ts, s) && Verified(OuterTrees(s)) && k < |OuterTrees(s)| && Inside(o, OuterTrees(s)[k])
    ensures AllSettled(o.children) && (IsDeclared(o.children, length) <==> LengthOfPaths(o.children, length))
  {
    var h := AcceptedRank(ts, s, k);
    var below := RankedInside(o, OuterTrees(s)[k], h);
    DeclaredOfPaths(o.children, below, length);
  }
}
