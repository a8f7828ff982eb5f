/** Exactly which kernels of one signature the semantic pass accepts. */
module PassAccepts {
  import opened LoopLang
  import opened LoopTree
  import opened KernelUtils
  import opened Axes
  import opened LoopLegality
  import opened SemaCtx
  import opened SemaRun
  import opened AcceptedKernels

  // ----- the test of one loop, type by type -----

  /** If the loop has the type, there are at most three levels of it from there down the first attributed children. */
  predicate KindFits(t: Loop, kind: LoopType) {
    Has(t, kind) ==> Count(t.info.types, kind) + HeightSameType(t, kind) <= MAX_AXIS_SZ + 1
  }

  lemma {:induction false} OwnCount(types: seq<LoopType>, kind: LoopType)
    requires TypesOk(types)
    ensures Count(types, kind)
            == (if types[0] == kind then 1 else 0) + (if |types| == 2 && types[1] == kind then 1 else 0)
  {
    if |types| == 2 {
      assert types[1..] == [types[1]] && [types[1]][1..] == [];
      assert Count([types[1]], kind) == (if types[1] == kind then 1 else 0) + Count([types[1]][1..], kind);
    } else {
      assert types[1..] == [];
    }
  }

  lemma {:induction false} FitsByKind(t: Loop)
    requires TypesOk(t.info.types)
    ensures HeightsFit(t) <==> KindFits(t, Outer) && KindFits(t, Inner) && KindFits(t, Regular)
  {
    var types := t.info.types;
    OwnCount(types, Outer);
    OwnCount(types, Inner);
    OwnCount(types, Regular);
    if |types| == 2 {
      assert HeightsFit(t) <==> AxisHeights(t)[0] <= MAX_AXIS_SZ && AxisHeights(t)[1] <= MAX_AXIS_SZ;
    } else {
      assert HeightsFit(t) <==> AxisHeights(t)[0] <= MAX_AXIS_SZ;
    }
  }

  // ----- forests -----

  predicate LoopsFit(ts: seq<Loop>, kind: LoopType)
    decreases ForestSize(ts)
  {
    ts == []
    || (assert ForestSize(ts) == 1 + ForestSize(ts[0].children) + ForestSize(ts[1..]);
        KindFits(ts[0], kind) && LoopsFit(ts[0].children, kind) && LoopsFit(ts[1..], kind))
  }

  /** Every loop is legal in its direct parent. */
  predicate ForestLegal(ts: seq<Loop>, parent: seq<LoopType>) {
    forall k :: 0 <= k < |ts| ==> DirectlyLegal(ts[k], parent)
  }

  lemma {:induction false} AcceptedByKind(ts: seq<Loop>, parent: seq<LoopType>)
    requires InfosOk(ts) && AllAuto(ts)
    ensures ForestOk(ts, parent) <==>
            ForestLegal(ts, parent) && LoopsFit(ts, Outer) && LoopsFit(ts, Inner) && LoopsFit(ts, Regular)
    decreases ForestSize(ts)
  {
    if ts != [] {
      var t, rest := ts[0], ts[1..];
      assert ForestSize(ts) == 1 + ForestSize(t.children) + ForestSize(rest);
      AcceptedByKind(t.children, t.info.types);
      AcceptedByKind(rest, parent);
      assert t.info.axes[0] == Auto;
      FitsByKind(t);
      LegalCons(ts, parent);
    }
  }

  lemma {:induction false} LegalCons(ts: seq<Loop>, parent: seq<LoopType>)
    requires ts != []
    ensures ForestLegal(ts, parent) <==>
            Legal(ts[0].info.types, parent) && ForestLegal(ts[0].children, ts[0].info.types)
            && ForestLegal(ts[1..], parent)
  {
    assert DirectlyLegal(ts[0], parent) <==>
           Legal(ts[0].info.types, parent) && ForestLegal(ts[0].children, ts[0].info.types);
    if DirectlyLegal(ts[0], parent) && ForestLegal(ts[1..], parent) {
      forall k | 0 <= k < |ts| ensures DirectlyLegal(ts[k], parent) {
        if k > 0 { assert ts[k] == ts[1..][k - 1]; }
      }
    }
  }

  // ----- one signature -----

  /** The paths below the loops all read `p`. */
  ghost predicate AllRead(ts: seq<Loop>, p: seq<LoopType>) {
    forall x, q :: x in Frontier(ts) && IsPath(x, q) ==> q == p
  }

  /** At most three levels, unless there are no paths. */
  predicate LevelsFit(ts: seq<Loop>, p: seq<LoopType>, kind: LoopType) {
    Frontier(ts) == [] || Count(p, kind) <= MAX_AXIS_SZ + 1
  }

  lemma {:induction false} FitMeansLevels(ts: seq<Loop>, p: seq<LoopType>, kind: LoopType)
    requires AllWellTyped(ts) && AllRead(ts, p) && kind != Regular
    ensures LoopsFit(ts, kind) <==> LevelsFit(ts, p, kind)
    decreases ForestSize(ts)
  {
    if ts != [] {
      var t, rest := ts[0], ts[1..];
      assert ForestSize(ts) == 1 + ForestSize(t.children) + ForestSize(rest);
      assert WellTyped(t);
      FitMeansLevels(rest, p, kind);
      if Attributed(t) {
        assert t in Frontier(ts);
        var q := Below(t, p);
        FitMeansLevels(t.children, q, kind);
        FitHere(t, p, q, kind);
      } else {
        FitMeansLevels(t.children, p, kind);
      }
    }
  }

  lemma {:induction false} Below(t: Loop, p: seq<LoopType>) returns (q: seq<LoopType>)
    requires WellTyped(t) && Attributed(t) && forall r :: IsPath(t, r) ==> r == p
    ensures IsPath(t, p) && OnePathOf(t) && p == Erase(t.info.types) + q && AllRead(t.children, q)
    ensures Frontier(t.children) == [] ==> q == []
  {
    var own := Erase(t.info.types);
    var r := AnyPath(t);
    var _, rest := PathChild(t, p);
    q := rest;
    forall x, s | x in Frontier(t.children) && IsPath(x, s) ensures s == q {
      ChildPath(t, p, x, s);
      assert (own + s)[|own|..] == s && (own + q)[|own|..] == q;
    }
  }

  lemma {:induction false} FitHere(t: Loop, p: seq<LoopType>, q: seq<LoopType>, kind: LoopType)
    requires WellTyped(t) && Attributed(t) && OnePathOf(t) && IsPath(t, p) && p == Erase(t.info.types) + q
    requires kind != Regular && (Frontier(t.children) == [] ==> q == [])
    ensures KindFits(t, kind) && LevelsFit(t.children, q, kind) <==> Count(p, kind) <= MAX_AXIS_SZ + 1
  {
    HeightOnEveryPath(t, p, kind);
    CountConcat(Erase(t.info.types), q, kind);
    EraseKeepsCount(t.info.types, kind);
    OwnCount(t.info.types, kind);
  }

  // ----- ordinary second loops -----

  /** The tiles with an ordinary second loop below `t`, down the first attributed children. */
  function SecondLoops(t: Loop): nat
    decreases Size(t)
  {
    match FirstAttributed(t)
    case None => 0
    case Some(x) =>
      SearchShrinks(t.children, Attributed);
      (if |x.info.types| == 2 && x.info.types[1] == Regular then 1 else 0) + SecondLoops(x)
  }

  lemma {:induction false} RegularsAreSeconds(t: Loop)
    requires WellTyped(t)
    ensures HeightSameType(t, Regular) == SecondLoops(t)
    decreases Size(t)
  {
    SearchOnFrontier(t.children);
    if FirstAttributed(t).Some? {
      var x := FirstAttributed(t).value;
      FrontierWellTyped(t.children);
      SearchShrinks(t.children, Attributed);
      OwnCount(x.info.types, Regular);
      RegularsAreSeconds(x);
    }
  }

  /** No more than three ordinary loops, counted from an ordinary loop or a tile that ends in one. */
  predicate SecondsFit(ts: seq<Loop>)
    decreases ForestSize(ts)
  {
    ts == []
    || (assert ForestSize(ts) == 1 + ForestSize(ts[0].children) + ForestSize(ts[1..]);
        && (Has(ts[0], Regular) ==> Count(ts[0].info.types, Regular) + SecondLoops(ts[0]) <= MAX_AXIS_SZ + 1)
        && SecondsFit(ts[0].children) && SecondsFit(ts[1..]))
  }

  lemma {:induction false} FitMeansSeconds(ts: seq<Loop>)
    requires AllWellTyped(ts)
    ensures LoopsFit(ts, Regular) <==> SecondsFit(ts)
    decreases ForestSize(ts)
  {
    if ts != [] {
      assert ForestSize(ts) == 1 + ForestSize(ts[0].children) + ForestSize(ts[1..]);
      assert WellTyped(ts[0]);
      RegularsAreSeconds(ts[0]);
      FitMeansSeconds(ts[0].children);
      FitMeansSeconds(ts[1..]);
    }
  }

  lemma {:induction false} InfosWellTyped(ts: seq<Loop>)
    requires InfosOk(ts)
    ensures AllWellTyped(ts)
    decreases ForestSize(ts)
  {
    if ts != [] {
      assert ForestSize(ts) == 1 + ForestSize(ts[0].children) + ForestSize(ts[1..]);
      InfosWellTyped(ts[0].children);
      InfosWellTyped(ts[1..]);
      assert WellTyped(ts[0]);
    }
  }

  /** The pass accepts a kernel of one signature without explicit axes if and only if its loops are distinct, each is
    * legal in its direct parent, the signature has at most three levels of each type, and nowhere more than three
    * ordinary loops count together: second loops of tiles count as levels too. */
  lemma {:induction false} PassAcceptsExactly(ts: seq<Loop>, p: seq<LoopType>)
    requires InfosOk(ts) && AllAuto(ts) && AllRead(ts, p)
    ensures Feed(EMPTY, Events(ts)).1.None? <==>
            Fresh(map[], Stmts(ts)) && ForestLegal(ts, [Regular]) && LevelsFit(ts, p, Outer) && LevelsFit(ts, p, Inner)
            && SecondsFit(ts)
  {
    KernelRebuilt(ts);
    InfosWellTyped(ts);
    AcceptedByKind(ts, [Regular]);
    FitMeansLevels(ts, p, Outer);
    FitMeansLevels(ts, p, Inner);
    FitMeansSeconds(ts);
  }
}
