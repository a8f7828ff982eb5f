/** Concrete kernels that pass every check and still show where the code falls short. */
module KernelExamples {
  import opened LoopLang
  import opened LoopHeader
  import opened LoopTree
  import opened KernelUtils
  import opened LoopLegality
  import opened SemaCtx
  import opened SemaRun
  import opened InnerSizes
  import opened AcceptedKernels

  /** `for (int i = 0; i < n; ++i)` with the given attribute and no explicit axis, around uses of shared memory. */
  function Plain(stmt: nat, kind: LoopType, n: nat, children: seq<Loop>): Loop {
    Loop(Info(stmt, [kind], [Auto], Header("i", Lit(0), Lt, Lit(n), Unary(PreInc)), Lit(1), true, n, true, false),
      children)
  }

  /** The same loop once its axis is known. */
  function Axed(t: Loop, a: Axis, children: seq<Loop>): Loop {
    Loop(t.info.(axes := [a]), children)
  }

  lemma {:induction false} KindOf(kind: LoopType)
    ensures Erase([kind]) == (if kind == Regular then [] else [kind])
    ensures Count([kind], kind) == 1 && forall k :: k != kind ==> Count([kind], k) == 0
    ensures TypesOk([kind]) && (IsRegular([kind]) <==> kind == Regular) && Nested([kind])
  {
    assert [kind][1..] == [];
  }

  /** A plain loop is settled to the axis with the number of its height. */
  lemma {:induction false} SettledPlain(stmt: nat, kind: LoopType, n: nat, children: seq<Loop>)
    requires InfosOk(children) && HeightSameType(Plain(stmt, kind, n, children), kind) <= MAX_AXIS_SZ
    ensures var t := Plain(stmt, kind, n, children);
            InfosOk([t]) && AxesOk(t) && (AllAuto(children) ==> AllAuto([t]))
            && SettleForest([t]) == [Axed(t, ToAxis(HeightSameType(t, kind)), SettleForest(children))]
  {
    var t := Plain(stmt, kind, n, children);
    KindOf(kind);
    assert [t][1..] == [];
    assert t.info.axes[0] == Auto;
    assert AxisHeights(t) == [HeightSameType(t, kind)];
    assert SettledInfo(t).axes == [ToAxis(HeightSameType(t, kind))];
  }

  /** The pass accepts the forest below `parent` and leaves `us`. */
  predicate Settles(ts: seq<Loop>, us: seq<Loop>, parent: seq<LoopType>) {
    InfosOk(ts) && AllAuto(ts) && SettleForest(ts) == us && ForestOk(ts, parent)
  }

  lemma {:induction false} PlainSettles(stmt: nat, kind: LoopType, n: nat, children: seq<Loop>, us: seq<Loop>,
                                        parent: seq<LoopType>)
    requires Settles(children, us, [kind]) && HeightSameType(Plain(stmt, kind, n, children), kind) <= MAX_AXIS_SZ
    requires Legal([kind], parent)
    ensures var t := Plain(stmt, kind, n, children);
            Settles([t], [Axed(t, ToAxis(HeightSameType(t, kind)), us)], parent)
              && Stmts([t]) == [stmt] + Stmts(children)
  {
    var t := Plain(stmt, kind, n, children);
    SettledPlain(stmt, kind, n, children);
    assert [t][1..] == [];
    OneTree(t, 0, None);
  }

  lemma {:induction false} SettlesCons(t: Loop, ts: seq<Loop>, us: seq<Loop>, vs: seq<Loop>, parent: seq<LoopType>)
    requires Settles([t], us, parent) && Settles(ts, vs, parent)
    ensures Settles([t] + ts, us + vs, parent) && Stmts([t] + ts) == Stmts([t]) + Stmts(ts)
  {
    SettleConcat([t], ts);
    assert ([t] + ts)[1..] == ts && [t][1..] == [];
    OneTree(t, 0, None);
  }

  /** A kernel of one outer loop that the pass accepts, and what it leaves. */
  lemma {:induction false} OneOuter(t: Loop, u: Loop) returns (s: State)
    requires Settles([t], [u], [Regular]) && Fresh(map[], Stmts([t]))
    requires t.info.types == [Outer]
    ensures PassOf([t], s) && OuterTrees(s) == [u]
  {
    KernelRebuilt([t]);
    s := Feed(EMPTY, Events([t])).0;
    KindOf(Outer);
    assert [t][1..] == [];
    assert Frontier([t]) == [t] + Frontier([]);
    assert Frontier([t]) == [t];
    assert TopOuters([t]) == [t] + TopOuters([]);
    assert TopOuters([t]) == [t];
    assert OuterTrees(s)[0] == u;
  }

  lemma {:induction false} HeightStep(t: Loop, x: Loop, kind: LoopType)
    requires FirstAttributed(t) == Some(x)
    ensures HeightSameType(t, kind) == Count(x.info.types, kind) + HeightSameType(x, kind)
  {
  }

  lemma {:induction false} AttributedFrontier(ts: seq<Loop>)
    requires forall k :: 0 <= k < |ts| ==> Attributed(ts[k])
    ensures Frontier(ts) == ts
  {
    if ts != [] {
      AttributedFrontier(ts[1..]);
      assert Frontier(ts) == [ts[0]] + Frontier(ts[1..]);
    }
  }

  lemma {:induction false} LeafReads(t: Loop, p: seq<LoopType>)
    requires t.children == [] && IsPath(t, p)
    ensures p == Erase(t.info.types)
  {
    var _, rest := PathChild(t, p);
    assert Frontier(t.children) == [] && rest == [];
    assert Erase(t.info.types) + [] == Erase(t.info.types);
  }

  lemma {:induction false} OneTreeSignature(t: Loop, sig: seq<LoopType>)
    requires forall p :: IsPath(t, p) ==> p == sig
    ensures OneSignature([t])
  {
    forall p, q | IsForestPath([t], p) && IsForestPath([t], q) ensures p == q {
      assert IsPath([t][0], p) && IsPath([t][0], q);
    }
  }

  /** An outer loop at the top, around children that settle and have no outer loop among them. */
  lemma {:induction false} OuterSettles(children: seq<Loop>, us: seq<Loop>)
    requires Settles(children, us, [Outer]) && Stmts(children) == [1, 2, 3]
    requires HeightSameType(Plain(0, Outer, 1, children), Outer) == 0
    ensures var t := Plain(0, Outer, 1, children);
            Settles([t], [Axed(t, X, us)], [Regular]) && Fresh(map[], Stmts([t]))
  {
    KindOf(Outer);
    PlainSettles(0, Outer, 1, children, us, [Regular]);
    FourFresh();
  }

  lemma {:induction false} FourFresh()
    ensures Fresh(map[], [0] + [1, 2, 3])
  {
    assert [0] + [1, 2, 3] == [0, 1, 2, 3];
  }

  // ----- a regular loop hides an @outer from the order check -----

  const D := Plain(3, Outer, 1, [])
  const R := Plain(2, Regular, 1, [D])
  const I := Plain(1, Inner, 1, [R])
  const HIDDEN := Plain(0, Outer, 1, [I])

  const UD := Axed(D, X, [])
  const UR := Axed(R, X, [UD])
  const UI := Axed(I, X, [UR])
  const UHIDDEN := Axed(HIDDEN, Y, [UI])

  lemma {:induction false} HiddenHeights()
    ensures HeightSameType(D, Outer) == 0 && HeightSameType(R, Regular) == 0
    ensures HeightSameType(I, Inner) == 0 && HeightSameType(HIDDEN, Outer) == 1
  {
    KindOf(Outer);
    KindOf(Inner);
    KindOf(Regular);
    assert FirstAttributed(D) == None;
    assert FirstAttributed(R) == Some(D);
    assert [R][1..] + R.children == [D];
    assert FirstAttributed(I) == Search([D], Attributed) == Some(D);
    assert FirstAttributed(HIDDEN) == Some(I);
    HeightStep(R, D, Regular);
    HeightStep(I, D, Inner);
    HeightStep(I, D, Outer);
    HeightStep(HIDDEN, I, Outer);
  }

  lemma {:induction false} HiddenInside()
    ensures Settles([I], [UI], [Outer]) && Stmts([I]) == [1, 2, 3]
  {
    HiddenHeights();
    HiddenLegal();
    PlainSettles(3, Outer, 1, [], [], [Regular]);
    PlainSettles(2, Regular, 1, [D], [UD], [Inner]);
    PlainSettles(1, Inner, 1, [R], [UR], [Outer]);
    assert [1] + ([2] + ([3] + [])) == [1, 2, 3];
  }

  lemma {:induction false} HiddenLegal()
    ensures Legal([Outer], [Regular]) && Legal([Regular], [Inner]) && Legal([Inner], [Outer])
  {
    KindOf(Outer);
    KindOf(Inner);
    KindOf(Regular);
  }

  lemma {:induction false} HiddenSettles()
    ensures Settles([HIDDEN], [UHIDDEN], [Regular]) && Fresh(map[], Stmts([HIDDEN]))
  {
    HiddenHeights();
    HiddenInside();
    assert Legal([Outer], [Regular]) by { KindOf(Outer); }
    PlainSettles(0, Outer, 1, [I], [UI], [Regular]);
    FourFresh();
  }

  lemma {:induction false} HiddenPaths(p: seq<LoopType>)
    ensures IsPath(UHIDDEN, p) <==> p == [Outer, Inner, Outer]
  {
    KindOf(Outer);
    KindOf(Inner);
    HiddenFrontiers();
    ChainPath(UHIDDEN, UI, p);
    if [Outer] <= p {
      var q := p[1..];
      assert p == [Outer] + q;
      ChainPath(UI, UD, q);
      if [Inner] <= q {
        assert q == [Inner] + q[1..];
        LeafIs(UD, q[1..]);
      }
    }
  }

  lemma {:induction false} HiddenFrontiers()
    ensures Frontier(UHIDDEN.children) == [UI] && Frontier(UI.children) == [UD] && UD.children == []
  {
    KindOf(Outer);
    KindOf(Inner);
    KindOf(Regular);
    AttributedFrontier([UI]);
    AttributedFrontier([UD]);
    assert !Attributed(UR) && [UR][1..] == [];
    assert Frontier([UR]) == Frontier([UD]) + Frontier([]);
  }

  lemma {:induction false} LeafIs(t: Loop, p: seq<LoopType>)
    requires t.children == []
    ensures IsPath(t, p) <==> p == Erase(t.info.types)
  {
    if IsPath(t, p) { LeafReads(t, p); }
  }

  /** A kernel that the pass and verifyLoops accept although it has an `@outer` inside an `@inner`. */
  lemma {:induction false} HiddenOrder() returns (s: State)
    ensures PassOf([HIDDEN], s) && OuterTrees(s) == [UHIDDEN] && Verified(OuterTrees(s))
    ensures forall p :: IsPath(UHIDDEN, p) <==> p == [Outer, Inner, Outer]
    ensures !OuterInner([Outer, Inner, Outer])
  {
    HiddenSettles();
    s := OneOuter(HIDDEN, UHIDDEN);
    forall p ensures IsPath(UHIDDEN, p) <==> p == [Outer, Inner, Outer] { HiddenPaths(p); }
    OneTreeSignature(UHIDDEN, [Outer, Inner, Outer]);
    OuterTreesReady([HIDDEN], s);
    assert HasInner(UI);
    assert Search([UI], HasInner) == Some(UI);
    var bad := [Outer, Inner, Outer];
    assert bad[1] == Inner && bad[2] == Outer;
    if OuterInner(bad) { OuterInnerIsNested(bad); }
  }

  // ----- the launch bound forgets a child -----

  const A8 := Plain(1, Inner, 8, [])
  const B1 := Plain(2, Inner, 1, [])
  const C4 := Plain(3, Inner, 4, [])
  const DIP := Plain(0, Outer, 1, [A8, B1, C4])

  const UA8 := Axed(A8, X, [])
  const UB1 := Axed(B1, X, [])
  const UC4 := Axed(C4, X, [])
  const UDIP := Axed(DIP, X, [UA8, UB1, UC4])

  lemma {:induction false} LeafHeight(t: Loop, kind: LoopType)
    requires t.children == []
    ensures HeightSameType(t, kind) == 0
  {
  }

  lemma {:induction false} LeafSettles(stmt: nat, n: nat)
    ensures var t := Plain(stmt, Inner, n, []);
            && Settles([t], [Axed(t, X, [])], [Outer]) && Settles([t], [Axed(t, X, [])], [Inner])
            && Settles([t], [Axed(t, X, [])], [Regular]) && Stmts([t]) == [stmt]
  {
    var t := Plain(stmt, Inner, n, []);
    LeafHeight(t, Inner);
    KindOf(Inner);
    KindOf(Outer);
    PlainSettles(stmt, Inner, n, [], [], [Outer]);
    PlainSettles(stmt, Inner, n, [], [], [Inner]);
    PlainSettles(stmt, Inner, n, [], [], [Regular]);
    assert Stmts([t]) == [stmt] + [];
  }

  lemma {:induction false} LastTwo(parent: seq<LoopType>)
    requires parent == [Outer] || parent == [Regular]
    ensures Settles([B1, C4], [UB1, UC4], parent) && Stmts([B1, C4]) == [2, 3]
  {
    LeafSettles(2, 1);
    LeafSettles(3, 4);
    SettlesCons(B1, [C4], [UB1], [UC4], parent);
    assert [B1] + [C4] == [B1, C4] && [UB1] + [UC4] == [UB1, UC4];
    assert [2] + [3] == [2, 3];
  }

  lemma {:induction false} DipChildren(parent: seq<LoopType>)
    requires parent == [Outer] || parent == [Regular]
    ensures Settles(DIP.children, UDIP.children, parent) && Stmts(DIP.children) == [1, 2, 3]
  {
    LeafSettles(1, 8);
    LeafSettles(2, 1);
    LeafSettles(3, 4);
    LastTwo(parent);
    SettlesCons(A8, [B1, C4], [UA8], [UB1, UC4], parent);
    assert [A8] + [B1, C4] == [A8, B1, C4] && [UA8] + [UB1, UC4] == [UA8, UB1, UC4];
  }

  lemma {:induction false} DipHeight()
    ensures HeightSameType(DIP, Outer) == 0
  {
    KindOf(Inner);
    LeafHeight(A8, Outer);
    assert FirstAttributed(DIP) == Some(A8);
    HeightStep(DIP, A8, Outer);
  }

  lemma {:induction false} DipSettles()
    ensures Settles([DIP], [UDIP], [Regular]) && Fresh(map[], Stmts([DIP]))
  {
    DipChildren([Outer]);
    DipHeight();
    OuterSettles(DIP.children, UDIP.children);
  }

  /** All paths of an outer loop around inner leaves read alike. */
  lemma {:induction false} OuterAroundLeaves(t: Loop, p: seq<LoopType>)
    requires t.info.types == [Outer] && t.children != [] && IsPath(t, p)
    requires forall k :: 0 <= k < |t.children| ==> t.children[k].info.types == [Inner] && t.children[k].children == []
    ensures p == [Outer, Inner]
  {
    KindOf(Outer);
    KindOf(Inner);
    AttributedFrontier(t.children);
    var x, rest := PathChild(t, p);
    LeafReads(x, rest);
  }

  lemma {:induction false} LeafProduct(t: Loop, n: nat)
    requires t.info.types == [Inner] && t.info.axes == [X] && t.children == [] && t.info.rangeSize == n > 0
    ensures Settled(t) && AllKnown(t) && Sizes(t) == [Some(n), Some(1), Some(1)] && Product(Sizes(t)) == n
            && PathProduct(t, n)
  {
    assert Sizes(t) == WithOwn(t.info, ONES);
    assert n * 1 * 1 == n;
  }

  lemma {:induction false} DipKeepsLast()
    ensures AllSettled(UDIP.children) && KeptSizes(UDIP.children, 0, ONES) == [Some(4), Some(1), Some(1)]
  {
    LeafProduct(UA8, 8);
    LeafProduct(UB1, 1);
    LeafProduct(UC4, 4);
    var ts := UDIP.children;
    assert ts[1..] == [UB1, UC4] && ts[1..][1..] == [UC4] && ts[1..][1..][1..] == [];
    assert KeptSizes([UC4], 1, Sizes(UA8)) == Sizes(UC4);
    assert KeptSizes([UB1, UC4], 8, Sizes(UA8)) == KeptSizes([UC4], 1, Sizes(UA8));
  }

  /** Outer loops around nests of 8, 1 and 4 threads pass every check and get the launch bound 4. */
  lemma {:induction false} RiseAfterFallLosesMaximum() returns (s: State)
    ensures PassOf([DIP], s) && OuterTrees(s) == [UDIP] && Verified(OuterTrees(s))
    ensures Settled(UDIP) && AllKnown(UDIP) && Product(Sizes(UDIP)) == 4 && PathProduct(UDIP, 8) && !KeepsLargest(UDIP)
  {
    DipSettles();
    s := OneOuter(DIP, UDIP);
    forall p | IsPath(UDIP, p) ensures p == [Outer, Inner] { OuterAroundLeaves(UDIP, p); }
    OneTreeSignature(UDIP, [Outer, Inner]);
    OuterTreesReady([DIP], s);
    assert HasInner(UA8);
    assert Search(UDIP.children, HasInner) == Some(UA8);
    DipKeepsLast();
    DipProducts();
    var k: nat := 0;
    assert OuterTrees(s)[k] == UDIP;
    KernelLaunchBound([DIP], s, k);
  }

  lemma {:induction false} DipProducts()
    ensures Settled(UDIP) && AllKnown(UDIP) && Product(Sizes(UDIP)) == 4 && PathProduct(UDIP, 8)
  {
    LeafProduct(UA8, 8);
    LeafProduct(UB1, 1);
    LeafProduct(UC4, 4);
    DipKeepsLast();
    assert Sizes(UDIP) == WithOwn(UDIP.info, KeptSizes(UDIP.children, 0, ONES));
    assert Factor(UDIP.info) == 1;
    assert PathProduct(UDIP.children[0], 8) && 8 == 1 * 8;
  }

  // ----- the error names an innocent loop -----

  const IDLE := Plain(1, Regular, 1, [])
  const BLAMED := Plain(0, Outer, 1, [IDLE, Plain(2, Inner, 4, [])])
  const EMPTY_OUTER := Plain(3, Outer, 1, [])

  lemma {:induction false} BlamedTyped()
    ensures WellTyped(IDLE) && WellTyped(BLAMED) && WellTyped(EMPTY_OUTER)
  {
    assert WellTyped(BLAMED.children[1]);
  }

  lemma {:induction false} BlamedFrontier()
    ensures Frontier(BLAMED.children) == BLAMED.children[1..] && !Attributed(IDLE)
  {
    KindOf(Inner);
    KindOf(Regular);
    var rest := BLAMED.children[1..];
    assert rest == [Plain(2, Inner, 4, [])];
    AttributedFrontier(rest);
    assert Frontier(BLAMED.children) == Frontier(IDLE.children) + Frontier(rest) == rest;
  }

  lemma {:induction false} BlamedFacts()
    ensures var first, second := TreeNode(EMPTY_OUTER, 0), TreeNode(BLAMED, 0);
            && QueueOk([first, second]) && NextOf(first) == [] && NextOf(second) != []
            && NextIdx(BLAMED.info.types, 0) < 0 && !BlameIsAttributed(second)
  {
    BlamedTyped();
    BlamedFrontier();
    assert BLAMED.children[0] == IDLE && |BLAMED.children[1..]| == 1;
  }

  /** After an outer loop without an inner one, an outer loop with one is unexpected; the loop named is the ordinary
    * loop that comes first in it. */
  method InnocentBlamed() returns (r: Verdict)
    ensures r == UnexpectedLoop(1, Regular)
  {
    var queue := [TreeNode(EMPTY_OUTER, 0), TreeNode(BLAMED, 0)];
    BlamedFacts();
    var next;
    r, next := VisitNode(queue, 1, true, []);
  }
}
