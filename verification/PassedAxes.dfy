/** The axes that the pass leaves in the loops of any kernel, with or without axes named in the source. */
module PassedAxes {
  import opened LoopLang
  import opened LoopHeader
  import opened LoopTree
  import opened KernelUtils
  import opened LoopLegality
  import opened SemaCtx
  import opened SemaRun

  // ----- levels further in -----

  /** The types down the chain of first attributed loops inside `t`. */
  function TypesBelow(t: Loop): seq<LoopType>
    decreases Size(t)
  {
    match FirstAttributed(t)
    case None => []
    case Some(x) => SearchShrinks(t.children, Attributed); x.info.types + TypesBelow(x)
  }

  /** How many levels of its own type lie further in than entry `k` of the loop. */
  function LevelsBehind(t: Loop, k: nat): nat
    requires k < |t.info.types|
  {
    Count(t.info.types[k + 1..] + TypesBelow(t), t.info.types[k])
  }

  lemma {:induction false} HeightIsCount(t: Loop, kind: LoopType)
    ensures HeightSameType(t, kind) == Count(TypesBelow(t), kind)
    decreases Size(t)
  {
    if FirstAttributed(t).Some? {
      var x := FirstAttributed(t).value;
      SearchShrinks(t.children, Attributed);
      HeightIsCount(x, kind);
      CountConcat(x.info.types, TypesBelow(x), kind);
    }
  }

  lemma {:induction false} HeightsAreLevels(t: Loop)
    requires TypesOk(t.info.types)
    ensures |AxisHeights(t)| == |t.info.types|
    ensures forall k :: 0 <= k < |t.info.types| ==> AxisHeights(t)[k] == LevelsBehind(t, k)
  {
    var types := t.info.types;
    forall k | 0 <= k < |types| ensures AxisHeights(t)[k] == LevelsBehind(t, k) {
      HeightIsCount(t, types[k]);
      CountConcat(types[k + 1..], TypesBelow(t), types[k]);
      if k + 1 < |types| {
        assert types[1..] == [types[1]] && [types[1]][1..] == [];
        assert Count([types[1]], types[0])
               == (if types[1] == types[0] then 1 else 0) + Count([types[1]][1..], types[0]);
      } else {
        assert types[k + 1..] == [];
      }
    }
  }

  // ----- the loops of a forest in source order -----

  /** Each loop before those inside it. */
  function Preorder(ts: seq<Loop>): (r: seq<Loop>)
    ensures |r| == ForestSize(ts)
    decreases ForestSize(ts)
  {
    if ts == [] then []
    else
      assert ForestSize(ts) == 1 + ForestSize(ts[0].children) + ForestSize(ts[1..]);
      [ts[0]] + Preorder(ts[0].children) + Preorder(ts[1..])
  }

  /** What holds of the root, of the loops inside it and of the other trees, holds of all. */
  lemma {:induction false} PreorderParts(ts: seq<Loop>, i: nat)
    requires ts != [] && i < |Preorder(ts)|
    ensures ForestSize(ts) == 1 + ForestSize(ts[0].children) + ForestSize(ts[1..])
    ensures var n := ForestSize(ts[0].children);
            Preorder(ts)[i] == if i == 0 then ts[0]
              else if i <= n then Preorder(ts[0].children)[i - 1] else Preorder(ts[1..])[i - 1 - n]
  {
  }

  /** The slots hold the given loops with their axes settled, one by one. */
  predicate AllSettledIn(nodes: seq<Node>, us: seq<Loop>) {
    |nodes| == |us| && forall i :: 0 <= i < |us| ==> InfoOk(us[i].info) && nodes[i].info == SettledInfo(us[i])
  }

  /** A laid-out forest holds its loops in source order. */
  lemma {:induction false} SlotsAreSettled(ts: seq<Loop>, id: nat, parent: Option<nat>)
    requires InfosOk(ts)
    ensures AllSettledIn(Layout(ts, id, parent), Preorder(ts))
    decreases ForestSize(ts)
  {
    if ts != [] {
      PreorderUnfold(ts);
      SlotsAreSettled(ts[0].children, id + 1, Some(id));
      SlotsAreSettled(ts[1..], id + Size(ts[0]), parent);
      SlotsStep(ts, id, parent);
    }
  }

  lemma {:induction false} SlotsStep(ts: seq<Loop>, id: nat, parent: Option<nat>)
    requires InfosOk(ts) && ts != [] && InfosOk(ts[0].children) && InfosOk(ts[1..])
    requires AllSettledIn(Layout(ts[0].children, id + 1, Some(id)), Preorder(ts[0].children))
    requires AllSettledIn(Layout(ts[1..], id + Size(ts[0]), parent), Preorder(ts[1..]))
    ensures AllSettledIn(Layout(ts, id, parent), Preorder(ts))
  {
    PreorderUnfold(ts);
    LayoutUnfold(ts, id, parent);
    SettledParts(Node(SettledInfo(ts[0]), parent, RootIds(ts[0].children, id + 1)),
                 Layout(ts[0].children, id + 1, Some(id)), Layout(ts[1..], id + Size(ts[0]), parent),
                 ts[0], Preorder(ts[0].children), Preorder(ts[1..]));
  }

  lemma {:induction false} PreorderUnfold(ts: seq<Loop>)
    requires InfosOk(ts) && ts != []
    ensures ForestSize(ts) == 1 + ForestSize(ts[0].children) + ForestSize(ts[1..])
    ensures Preorder(ts) == [ts[0]] + Preorder(ts[0].children) + Preorder(ts[1..])
    ensures InfoOk(ts[0].info) && InfosOk(ts[0].children) && InfosOk(ts[1..])
  {
  }

  lemma {:induction false} SettledParts(root: Node, a: seq<Node>, b: seq<Node>, t: Loop, p: seq<Loop>, q: seq<Loop>)
    requires InfoOk(t.info) && root.info == SettledInfo(t) && AllSettledIn(a, p) && AllSettledIn(b, q)
    ensures AllSettledIn([root] + a + b, [t] + p + q)
  {
  }

  // ----- what the pass accepts -----

  /** The loops inside are legal in this one, and there are hardware axes for it if it leaves one to the compiler. */
  predicate LoopPasses(t: Loop) {
    (forall k :: 0 <= k < |t.children| ==> Legal(t.children[k].info.types, t.info.types))
    && (Auto in t.info.axes ==> forall k :: 0 <= k < |t.info.types| ==> LevelsBehind(t, k) <= 2)
  }

  predicate RootsLegal(ts: seq<Loop>, parent: seq<LoopType>) {
    forall k :: 0 <= k < |ts| ==> Legal(ts[k].info.types, parent)
  }

  predicate AllPass(us: seq<Loop>) {
    forall i :: 0 <= i < |us| ==> LoopPasses(us[i])
  }

  lemma {:induction false} AllPassParts(t: Loop, p: seq<Loop>, q: seq<Loop>)
    ensures AllPass([t] + p + q) <==> LoopPasses(t) && AllPass(p) && AllPass(q)
  {
    var us := [t] + p + q;
    assert us[0] == t;
    assert forall i :: 0 <= i < |p| ==> us[i + 1] == p[i];
    assert forall i :: 0 <= i < |q| ==> us[i + 1 + |p|] == q[i];
  }

  lemma {:induction false} LoopPassesMeans(t: Loop)
    requires InfoOk(t.info)
    ensures LoopPasses(t) <==> RootsLegal(t.children, t.info.types) && AxesOk(t)
  {
    HeightsAreLevels(t);
  }

  lemma {:induction false} RootsLegalParts(ts: seq<Loop>, parent: seq<LoopType>)
    requires ts != []
    ensures RootsLegal(ts, parent) <==> Legal(ts[0].info.types, parent) && RootsLegal(ts[1..], parent)
  {
    assert forall k :: 0 < k < |ts| ==> ts[k] == ts[1..][k - 1];
    assert forall k :: 0 <= k < |ts[1..]| ==> ts[1..][k] == ts[k + 1];
  }

  lemma {:induction false} ForestOkMeans(ts: seq<Loop>, parent: seq<LoopType>)
    requires InfosOk(ts)
    ensures ForestOk(ts, parent) <==> RootsLegal(ts, parent) && AllPass(Preorder(ts))
    decreases ForestSize(ts)
  {
    if ts != [] {
      PreorderUnfold(ts);
      ForestOkMeans(ts[0].children, ts[0].info.types);
      ForestOkMeans(ts[1..], parent);
      AllPassParts(ts[0], Preorder(ts[0].children), Preorder(ts[1..]));
      LoopPassesMeans(ts[0]);
      RootsLegalParts(ts, parent);
    }
  }

  predicate Distinct(us: seq<Loop>) {
    forall i, j :: 0 <= i < j < |us| ==> us[i].info.stmt != us[j].info.stmt
  }

  lemma {:induction false} StmtAt(ts: seq<Loop>, i: nat)
    requires i < |Preorder(ts)|
    ensures Stmts(ts)[i] == Preorder(ts)[i].info.stmt
    decreases ForestSize(ts)
  {
    PreorderParts(ts, i);
    var n := ForestSize(ts[0].children);
    if 0 < i <= n { StmtAt(ts[0].children, i - 1); } else if i > n { StmtAt(ts[1..], i - 1 - n); }
  }

  lemma {:induction false} FreshOf(stmts: seq<nat>, us: seq<Loop>)
    requires |stmts| == |us| && forall i :: 0 <= i < |us| ==> stmts[i] == us[i].info.stmt
    ensures Fresh(map[], stmts) <==> Distinct(us)
  {
  }

  /** The pass succeeds on any kernel, whatever axes it names, exactly if no statement occurs twice, every loop is legal
    * in the one directly around it, and every loop that leaves an axis to the compiler has at most two levels of each
    * of its types further in. */
  lemma {:induction false} PassSucceedsExactly(ts: seq<Loop>)
    requires InfosOk(ts)
    ensures Feed(EMPTY, Events(ts)).1.None? <==>
            Distinct(Preorder(ts)) && RootsLegal(ts, [Regular]) && AllPass(Preorder(ts))
  {
    KernelRebuilt(ts);
    ForestOkMeans(ts, [Regular]);
    forall i | 0 <= i < |Preorder(ts)| ensures Stmts(ts)[i] == Preorder(ts)[i].info.stmt { StmtAt(ts, i); }
    FreshOf(Stmts(ts), Preorder(ts));
  }

  // ----- what the pass leaves -----

  /** Nothing of the loop has changed but the axes it left to the compiler, and these are the numbers of levels of the
    * same type further in. */
  predicate KeptAxes(t: Loop, info: Info)
    requires |t.info.axes| == |t.info.types|
  {
    && |info.axes| == |t.info.axes| && info == t.info.(axes := info.axes)
    && forall k :: 0 <= k < |info.axes| ==>
         if t.info.axes[k] != Auto then info.axes[k] == t.info.axes[k]
         else info.axes[k] != Auto && AxisNumber(info.axes[k]) == LevelsBehind(t, k)
  }

  lemma {:induction false} SettledKeeps(t: Loop)
    requires InfoOk(t.info) && LoopPasses(t)
    ensures KeptAxes(t, SettledInfo(t))
  {
    HeightsAreLevels(t);
    var axes := SettledInfo(t).axes;
    forall k | 0 <= k < |axes|
      ensures if t.info.axes[k] != Auto then axes[k] == t.info.axes[k]
              else axes[k] != Auto && AxisNumber(axes[k]) == LevelsBehind(t, k)
    {
      if t.info.axes[k] == Auto { assert Auto in t.info.axes && LevelsBehind(t, k) <= 2; }
    }
  }

  /** After a successful pass over any kernel, slot i holds loop i of the source: every axis named there is kept, and
    * every other one is the number of levels of its type further in. */
  lemma {:induction false} AxesAreKept(ts: seq<Loop>, s: State)
    requires InfosOk(ts) && Valid(EMPTY) && Feed(EMPTY, Events(ts)) == (s, None)
    ensures |s.nodes| == |Preorder(ts)|
    ensures forall i :: 0 <= i < |s.nodes| ==>
              InfoOk(Preorder(ts)[i].info) && KeptAxes(Preorder(ts)[i], s.nodes[i].info)
  {
    KernelRebuilt(ts);
    ForestOkMeans(ts, [Regular]);
    SlotsAreSettled(ts, 0, None);
    forall i | 0 <= i < |s.nodes|
      ensures InfoOk(Preorder(ts)[i].info) && KeptAxes(Preorder(ts)[i], s.nodes[i].info)
    {
      SettledKeeps(Preorder(ts)[i]);
    }
  }
}
