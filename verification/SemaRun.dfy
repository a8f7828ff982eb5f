/** Whole traversals: what the semantic context holds after the events of a forest of loops. */
module SemaRun {
  import opened LoopLang
  import opened LoopHeader
  import opened LoopTree
  import opened LoopLegality
  import opened SemaCtx

  predicate InfosOk(ts: seq<Loop>)
    decreases ForestSize(ts)
  {
    ts == [] || (assert ForestSize(ts) == 1 + ForestSize(ts[0].children) + ForestSize(ts[1..]);
                 InfoOk(ts[0].info) && InfosOk(ts[0].children) && InfosOk(ts[1..]))
  }

  /** The start and stop events of a forest, depth first. */
  function Events(ts: seq<Loop>): (r: seq<Event>)
    requires InfosOk(ts)
    ensures EventsOk(r)
    decreases ForestSize(ts)
  {
    if ts == [] then []
    else
      assert ForestSize(ts) == 1 + ForestSize(ts[0].children) + ForestSize(ts[1..]);
      TreeEvents(ts[0].info, Events(ts[0].children)) + Events(ts[1..])
  }

  function TreeEvents(info: Info, inside: seq<Event>): (r: seq<Event>)
    requires InfoOk(info) && EventsOk(inside)
    ensures EventsOk(r)
  {
    [Start(info)] + inside + [Stop(info.stmt)]
  }

  // ----- the tables a traversal fills -----

  function SettleForest(ts: seq<Loop>): (r: seq<Loop>)
    requires InfosOk(ts)
    ensures |r| == |ts|
    decreases ForestSize(ts)
  {
    if ts == [] then []
    else
      assert ForestSize(ts) == 1 + ForestSize(ts[0].children) + ForestSize(ts[1..]);
      [Loop(SettledInfo(ts[0]), SettleForest(ts[0].children))] + SettleForest(ts[1..])
  }

  function RootIds(ts: seq<Loop>, id: nat): seq<nat> {
    if ts == [] then [] else [id] + RootIds(ts[1..], id + Size(ts[0]))
  }

  /** The slots of a forest in preorder from slot `id` on. */
  function Layout(ts: seq<Loop>, id: nat, parent: Option<nat>): (r: seq<Node>)
    requires InfosOk(ts)
    ensures |r| == ForestSize(ts)
    decreases ForestSize(ts)
  {
    if ts == [] then []
    else
      assert ForestSize(ts) == 1 + ForestSize(ts[0].children) + ForestSize(ts[1..]);
      [Node(SettledInfo(ts[0]), parent, RootIds(ts[0].children, id + 1))]
      + Layout(ts[0].children, id + 1, Some(id))
      + Layout(ts[1..], id + Size(ts[0]), parent)
  }

  /** Slots of the loops whose first type is `@outer` with only regular loops around them. */
  function OuterIds(ts: seq<Loop>, id: nat): seq<nat>
    requires InfosOk(ts)
    decreases ForestSize(ts)
  {
    if ts == [] then []
    else
      assert ForestSize(ts) == 1 + ForestSize(ts[0].children) + ForestSize(ts[1..]);
      (if IsRegular(ts[0].info.types) then OuterIds(ts[0].children, id + 1)
       else if ts[0].info.types[0] == Outer then [id] else [])
      + OuterIds(ts[1..], id + Size(ts[0]))
  }

  /** The statements of a forest in preorder. */
  function Stmts(ts: seq<Loop>): (r: seq<nat>)
    ensures |r| == ForestSize(ts)
    decreases ForestSize(ts)
  {
    if ts == [] then []
    else
      assert ForestSize(ts) == 1 + ForestSize(ts[0].children) + ForestSize(ts[1..]);
      [ts[0].info.stmt] + Stmts(ts[0].children) + Stmts(ts[1..])
  }

  function Mapped(m: map<nat, nat>, stmts: seq<nat>, id: nat): map<nat, nat>
    decreases stmts
  {
    if stmts == [] then m else Mapped(m[stmts[0] := id], stmts[1..], id + 1)
  }

  predicate Fresh(m: map<nat, nat>, stmts: seq<nat>) {
    && (forall i, j :: 0 <= i < j < |stmts| ==> stmts[i] != stmts[j])
    && (forall i :: 0 <= i < |stmts| ==> stmts[i] !in m)
  }

  predicate ForestOk(ts: seq<Loop>, parent: seq<LoopType>)
    requires InfosOk(ts)
    decreases ForestSize(ts)
  {
    ts == [] ||
    (assert ForestSize(ts) == 1 + ForestSize(ts[0].children) + ForestSize(ts[1..]);
     && Legal(ts[0].info.types, parent) && AxesOk(ts[0])
     && ForestOk(ts[0].children, ts[0].info.types) && ForestOk(ts[1..], parent))
  }

  /** What a forest adds to the state. */
  datatype Added = Added(roots: seq<nat>, nodes: seq<Node>, outers: seq<nat>, stmts: seq<nat>)

  function Extend(s: State, t: Added): State
    requires Valid(s)
  {
    State(Attach(s.nodes, s.currentLoop, t.roots) + t.nodes,
          if s.currentLoop.None? then s.topLevelLoops + t.roots else s.topLevelLoops,
          if RegularUp(s.nodes, s.currentLoop) then s.topLevelOuterLoops + t.outers else s.topLevelOuterLoops,
          s.currentLoop,
          Mapped(s.loopMap, t.stmts, |s.nodes|))
  }

  function Join(a: Added, b: Added): Added {
    Added(a.roots + b.roots, a.nodes + b.nodes, a.outers + b.outers, a.stmts + b.stmts)
  }

  function AddedBy(ts: seq<Loop>, id: nat, parent: Option<nat>): Added
    requires InfosOk(ts)
  {
    Added(RootIds(ts, id), Layout(ts, id, parent), OuterIds(ts, id), Stmts(ts))
  }

  /** The state expected after a traversal of `ts` from `s`. */
  function Built(s: State, ts: seq<Loop>): State
    requires Valid(s) && InfosOk(ts)
  {
    Extend(s, AddedBy(ts, |s.nodes|, s.currentLoop))
  }

  // ----- settling axes does not change heights -----

  lemma {:induction false} SettleAttributed(ts: seq<Loop>)
    requires InfosOk(ts)
    ensures forall k :: 0 <= k < |ts| ==> SettleForest(ts)[k].info.types == ts[k].info.types
    ensures ForestSize(SettleForest(ts)) == ForestSize(ts)
    decreases ForestSize(ts)
  {
    if ts != [] {
      assert ForestSize(ts) == 1 + ForestSize(ts[0].children) + ForestSize(ts[1..]);
      SettleAttributed(ts[0].children);
      SettleAttributed(ts[1..]);
      assert SettleForest(ts)[1..] == SettleForest(ts[1..]);
    }
  }

  lemma {:induction false} SettleConcat(a: seq<Loop>, b: seq<Loop>)
    requires InfosOk(a) && InfosOk(b)
    ensures InfosOk(a + b) && SettleForest(a + b) == SettleForest(a) + SettleForest(b)
  {
    if a == [] {
      assert a + b == b;
    } else {
      assert (a + b)[1..] == a[1..] + b;
      SettleConcat(a[1..], b);
    }
  }

  /** Searching the settled queue finds the settled loop. */
  lemma {:induction false} SettleSearch(queue: seq<Loop>)
    requires InfosOk(queue)
    ensures match Search(queue, Attributed)
            case None => Search(SettleForest(queue), Attributed) == None
            case Some(x) => InfosOk([x]) && Search(SettleForest(queue), Attributed) == Some(SettleForest([x])[0])
    decreases ForestSize(queue)
  {
    if queue != [] {
      var q := SettleForest(queue);
      SettleAttributed(queue);
      assert q[1..] == SettleForest(queue[1..]);
      if Attributed(queue[0]) {
        assert [queue[0]][1..] == [];
        assert SettleForest([queue[0]])
               == [Loop(SettledInfo(queue[0]), SettleForest(queue[0].children))] + SettleForest([]);
      } else {
        PopShrinks(queue);
        SettleConcat(queue[1..], queue[0].children);
        SettleSearch(queue[1..] + queue[0].children);
      }
    }
  }

  lemma {:induction false} SettleHeight(t: Loop, info: Info, kind: LoopType)
    requires InfosOk(t.children)
    ensures HeightSameType(Loop(info, SettleForest(t.children)), kind) == HeightSameType(t, kind)
    decreases Size(t)
  {
    SettleSearch(t.children);
    if FirstAttributed(t).Some? {
      var x := FirstAttributed(t).value;
      SearchShrinks(t.children, Attributed);
      assert SettleForest([x])[0] == Loop(SettledInfo(x), SettleForest(x.children));
      SettleHeight(x, SettledInfo(x), kind);
    }
  }

  lemma {:induction false} SettleHeights(t: Loop)
    requires InfoOk(t.info) && InfosOk(t.children)
    ensures AxisHeights(Loop(t.info, SettleForest(t.children))) == AxisHeights(t)
  {
    if |t.info.types| >= 1 { SettleHeight(t, t.info, t.info.types[0]); }
    if |t.info.types| >= 2 { SettleHeight(t, t.info, t.info.types[1]); }
  }

  // ----- a laid-out forest reads back as the settled forest -----

  ghost predicate LaidOut(nodes: seq<Node>, ts: seq<Loop>, id: nat, parent: Option<nat>)
    requires InfosOk(ts)
  {
    HoldsAt(nodes, id, Layout(ts, id, parent))
  }

  /** The slots from `id` on are these nodes. */
  ghost predicate HoldsAt(nodes: seq<Node>, id: nat, part: seq<Node>) {
    id + |part| <= |nodes| && nodes[id..id + |part|] == part
  }

  lemma {:induction false} SliceOfSlice<T>(s: seq<T>, i: nat, n: nat, lo: nat, hi: nat)
    requires i + n <= |s| && lo <= hi <= n
    ensures s[i..i + n][lo..hi] == s[i + lo..i + hi]
  {
    var a, b := s[i..i + n][lo..hi], s[i + lo..i + hi];
    assert |a| == |b| == hi - lo;
    forall k | 0 <= k < |a| ensures a[k] == b[k] {
      assert s[i..i + n][lo + k] == s[i + lo + k];
    }
  }

  lemma {:induction false} PartsOf<T>(a: seq<T>, b: seq<T>, c: seq<T>)
    ensures (a + b + c)[0..|a|] == a
    ensures (a + b + c)[|a|..|a| + |b|] == b
    ensures (a + b + c)[|a| + |b|..|a| + |b| + |c|] == c
  {
  }

  lemma {:induction false} ThreeParts<T>(s: seq<T>, i: nat, a: seq<T>, b: seq<T>, c: seq<T>)
    requires i + |a| + |b| + |c| <= |s| && s[i..i + |a| + |b| + |c|] == a + b + c
    ensures s[i..i + |a|] == a
    ensures s[i + |a|..i + |a| + |b|] == b
    ensures s[i + |a| + |b|..i + |a| + |b| + |c|] == c
  {
    var n := |a| + |b| + |c|;
    assert i + n == i + |a| + |b| + |c|;
    PartsOf(a, b, c);
    SliceOfSlice(s, i, n, 0, |a|);
    SliceOfSlice(s, i, n, |a|, |a| + |b|);
    SliceOfSlice(s, i, n, |a| + |b|, n);
  }

  /** A laid-out forest is a root slot, its laid-out children and the laid-out rest. */
  lemma {:induction false} LayoutParts(nodes: seq<Node>, ts: seq<Loop>, id: nat, parent: Option<nat>)
    requires InfosOk(ts) && ts != [] && LaidOut(nodes, ts, id, parent)
    ensures ForestSize(ts) == 1 + ForestSize(ts[0].children) + ForestSize(ts[1..])
    ensures id < |nodes| && nodes[id] == Node(SettledInfo(ts[0]), parent, RootIds(ts[0].children, id + 1))
    ensures LaidOut(nodes, ts[0].children, id + 1, Some(id))
    ensures LaidOut(nodes, ts[1..], id + Size(ts[0]), parent)
  {
    LayoutUnfold(ts, id, parent);
    RootAndParts(nodes, id, Node(SettledInfo(ts[0]), parent, RootIds(ts[0].children, id + 1)),
                 Layout(ts[0].children, id + 1, Some(id)), Layout(ts[1..], id + Size(ts[0]), parent));
  }

  lemma {:induction false} RootAndParts(nodes: seq<Node>, id: nat, root: Node, kids: seq<Node>, rest: seq<Node>)
    requires HoldsAt(nodes, id, [root] + kids + rest)
    ensures id < |nodes| && nodes[id] == root && HoldsAt(nodes, id + 1, kids) && HoldsAt(nodes, id + (1 + |kids|), rest)
  {
    ThreeParts(nodes, id, [root], kids, rest);
    assert nodes[id] == nodes[id..id + 1][0];
  }

  lemma {:induction false} LayoutUnfold(ts: seq<Loop>, id: nat, parent: Option<nat>)
    requires InfosOk(ts) && ts != []
    ensures ForestSize(ts) == 1 + ForestSize(ts[0].children) + ForestSize(ts[1..])
            && Size(ts[0]) == 1 + ForestSize(ts[0].children)
    ensures Layout(ts, id, parent)
            == [Node(SettledInfo(ts[0]), parent, RootIds(ts[0].children, id + 1))]
               + Layout(ts[0].children, id + 1, Some(id)) + Layout(ts[1..], id + Size(ts[0]), parent)
  {
  }

  lemma {:induction false} StmtsUnfold(ts: seq<Loop>)
    requires InfosOk(ts) && ts != []
    ensures Stmts(ts) == [ts[0].info.stmt] + Stmts(ts[0].children) + Stmts(ts[1..])
  {
  }

  lemma {:induction false} SubtreesCons(nodes: seq<Node>, i: nat, ids: seq<nat>, above: nat)
    requires NodesOk(nodes) && above < i < |nodes| && forall k :: 0 <= k < |ids| ==> above < ids[k] < |nodes|
    ensures ReadsBack(nodes, [i] + ids, above, [Subtree(nodes, i)] + Subtrees(nodes, ids, above))
  {
    assert ([i] + ids)[1..] == ids;
  }

  lemma {:induction false} LayoutReadsBack(nodes: seq<Node>, ts: seq<Loop>, id: nat, parent: Option<nat>, above: nat)
    requires NodesOk(nodes) && InfosOk(ts) && above < id && above < |nodes| && LaidOut(nodes, ts, id, parent)
    ensures ReadsBack(nodes, RootIds(ts, id), above, SettleForest(ts))
    decreases ForestSize(ts), 0
  {
    if ts != [] {
      LayoutParts(nodes, ts, id, parent);
      TreeReadsBack(nodes, ts[0], id);
      LayoutReadsBack(nodes, ts[1..], id + Size(ts[0]), parent, above);
      ReadsBackStep(nodes, ts, id, above);
    }
  }

  lemma {:induction false} ReadsBackStep(nodes: seq<Node>, ts: seq<Loop>, id: nat, above: nat)
    requires NodesOk(nodes) && InfosOk(ts) && ts != [] && InfoOk(ts[0].info) && InfosOk(ts[0].children)
             && InfosOk(ts[1..])
    requires above < id < |nodes| && Subtree(nodes, id) == Loop(SettledInfo(ts[0]), SettleForest(ts[0].children))
    requires ReadsBack(nodes, RootIds(ts[1..], id + Size(ts[0])), above, SettleForest(ts[1..]))
    ensures ReadsBack(nodes, RootIds(ts, id), above, SettleForest(ts))
  {
    SubtreesCons(nodes, id, RootIds(ts[1..], id + Size(ts[0])), above);
  }

  /** The slots lie behind `above` and hold the given trees. */
  predicate ReadsBack(nodes: seq<Node>, ids: seq<nat>, above: nat, us: seq<Loop>)
    requires NodesOk(nodes) && above < |nodes|
  {
    (forall k :: 0 <= k < |ids| ==> above < ids[k] < |nodes|) && Subtrees(nodes, ids, above) == us
  }

  lemma {:induction false} TreeReadsBack(nodes: seq<Node>, t: Loop, id: nat)
    requires NodesOk(nodes) && InfosOk(t.children) && id < |nodes|
    requires nodes[id].children == RootIds(t.children, id + 1) && LaidOut(nodes, t.children, id + 1, Some(id))
    ensures Subtree(nodes, id) == Loop(nodes[id].info, SettleForest(t.children))
    decreases ForestSize(t.children), 1
  {
    LayoutReadsBack(nodes, t.children, id + 1, Some(id), id);
  }

  // ----- the map of loops -----

  lemma {:induction false} MappedConcat(m: map<nat, nat>, a: seq<nat>, b: seq<nat>, id: nat)
    ensures Mapped(m, a + b, id) == Mapped(Mapped(m, a, id), b, id + |a|)
    decreases a
  {
    if a == [] {
      assert a + b == b;
    } else {
      assert (a + b)[1..] == a[1..] + b;
      MappedConcat(m[a[0] := id], a[1..], b, id + 1);
    }
  }

  lemma {:induction false} MappedLookup(m: map<nat, nat>, stmts: seq<nat>, id: nat)
    ensures forall k :: k in Mapped(m, stmts, id) <==> k in m || k in stmts
    ensures forall k :: k in m && k !in stmts ==> Mapped(m, stmts, id)[k] == m[k]
    decreases stmts
  {
    if stmts != [] { MappedLookup(m[stmts[0] := id], stmts[1..], id + 1); }
  }

  /** Preorder position `i` of fresh statements is slot id + i. */
  lemma {:induction false} MappedAt(m: map<nat, nat>, stmts: seq<nat>, id: nat, i: nat)
    requires Fresh(m, stmts) && i < |stmts|
    ensures stmts[i] in Mapped(m, stmts, id) && Mapped(m, stmts, id)[stmts[i]] == id + i
    decreases stmts
  {
    MappedLookup(m[stmts[0] := id], stmts[1..], id + 1);
    if i > 0 {
      assert stmts[1..][i - 1] == stmts[i];
      MappedAt(m[stmts[0] := id], stmts[1..], id + 1, i - 1);
    }
  }

  lemma {:induction false} FreshConcat(m: map<nat, nat>, a: seq<nat>, b: seq<nat>, id: nat)
    ensures Fresh(m, a + b) <==> Fresh(m, a) && Fresh(Mapped(m, a, id), b)
  {
    MappedLookup(m, a, id);
    var s := a + b;
    if Fresh(m, s) {
      forall i, j | 0 <= i < j < |a| ensures a[i] != a[j] { assert s[i] != s[j]; }
      forall i | 0 <= i < |a| ensures a[i] !in m { assert s[i] !in m; }
      forall i, j | 0 <= i < j < |b| ensures b[i] != b[j] { assert s[|a| + i] != s[|a| + j]; }
      forall i | 0 <= i < |b| ensures b[i] !in Mapped(m, a, id) {
        assert s[|a| + i] !in m;
        forall j | 0 <= j < |a| ensures a[j] != b[i] { assert s[j] != s[|a| + i]; }
      }
    }
    if Fresh(m, a) && Fresh(Mapped(m, a, id), b) {
      forall i, j | 0 <= i < j < |s| ensures s[i] != s[j] {
        if i < |a| <= j { assert a[i] in a && b[j - |a|] !in Mapped(m, a, id); }
      }
    }
  }

  lemma {:induction false} FreshOne(m: map<nat, nat>, x: nat, id: nat)
    ensures Fresh(m, [x]) <==> x !in m
    ensures Mapped(m, [x], id) == m[x := id]
  {
    assert Fresh(m, [x]) ==> [x][0] !in m;
    assert [x][1..] == [];
  }

  // ----- regular surroundings -----

  ghost predicate SameShape(a: seq<Node>, b: seq<Node>) {
    |a| <= |b| && forall i :: 0 <= i < |a| ==> a[i].info.types == b[i].info.types && a[i].parent == b[i].parent
  }

  lemma {:induction false} RegularUpSame(a: seq<Node>, b: seq<Node>, cur: Option<nat>)
    requires NodesOk(a) && NodesOk(b) && SameShape(a, b) && (cur.Some? ==> cur.value < |a|)
    ensures RegularUp(a, cur) == RegularUp(b, cur)
    decreases if cur.Some? then cur.value + 1 else 0
  {
    if cur.Some? { RegularUpSame(a, b, a[cur.value].parent); }
  }

  // ----- one loop -----

  lemma {:induction false} OneTree(t: Loop, id: nat, parent: Option<nat>)
    requires InfosOk([t])
    ensures InfoOk(t.info) && InfosOk(t.children)
    ensures RootIds([t], id) == [id]
    ensures Layout([t], id, parent)
            == [Node(SettledInfo(t), parent, RootIds(t.children, id + 1))] + Layout(t.children, id + 1, Some(id))
    ensures OuterIds([t], id) == if IsRegular(t.info.types) then OuterIds(t.children, id + 1)
              else if t.info.types[0] == Outer then [id] else []
    ensures Stmts([t]) == [t.info.stmt] + Stmts(t.children)
    ensures Events([t]) == TreeEvents(t.info, Events(t.children))
    ensures forall p :: ForestOk([t], p) <==> Legal(t.info.types, p) && AxesOk(t) && ForestOk(t.children, t.info.types)
  {
    assert [t][1..] == [];
  }

  lemma {:induction false} InsideSlots(s: State, t: Loop, s1: State)
    requires Valid(s) && InfosOk(t.children) && InfoOk(t.info) && Valid(s1)
    requires s1.nodes == Entered(s, t.info).nodes && s1.currentLoop == Some(|s.nodes|)
    ensures var id := |s.nodes|;
            Built(s1, t.children).nodes
            == Attach(s.nodes, s.currentLoop, [id]) + [Node(t.info, s.currentLoop, RootIds(t.children, id + 1))]
               + Layout(t.children, id + 1, Some(id))
  {
    var id := |s.nodes|;
    var before := Attach(s.nodes, s.currentLoop, [id]);
    var ids := RootIds(t.children, id + 1);
    assert [] + ids == ids;
    assert Attach(before + [Node(t.info, s.currentLoop, [])], Some(id), ids)
           == before + [Node(t.info, s.currentLoop, ids)];
  }

  /** Between start and stop of a loop the context holds the loop with its settled inside. */
  lemma {:induction false} InsideTree(s: State, t: Loop, s2: State)
    requires InfosOk(t.children) && InfoOk(t.info) && NodesOk(s2.nodes)
    requires var id := |s.nodes|;
             && (s.currentLoop.Some? ==> s.currentLoop.value < id)
             && s2.nodes == Attach(s.nodes, s.currentLoop, [id])
                + [Node(t.info, s.currentLoop, RootIds(t.children, id + 1))]
                            + Layout(t.children, id + 1, Some(id))
    ensures |s.nodes| < |s2.nodes| && Subtree(s2.nodes, |s.nodes|) == Loop(t.info, SettleForest(t.children))
  {
    var id := |s.nodes|;
    assert s2.nodes[id + 1..id + 1 + ForestSize(t.children)] == Layout(t.children, id + 1, Some(id));
    TreeReadsBack(s2.nodes, t, id);
  }

  lemma {:induction false} EnteredRegularUp(s: State, info: Info)
    requires Valid(s) && InfoOk(info) && Valid(Entered(s, info))
    ensures RegularUp(Entered(s, info).nodes, Some(|s.nodes|))
            <==> IsRegular(info.types) && RegularUp(s.nodes, s.currentLoop)
  {
    RegularUpSame(s.nodes, Entered(s, info).nodes, s.currentLoop);
  }

  lemma {:induction false} InsideMap(m: map<nat, nat>, stmt: nat, inside: seq<nat>, id: nat)
    requires Fresh(m, [stmt] + inside)
    ensures stmt in Mapped(m[stmt := id], inside, id + 1) && Mapped(m[stmt := id], inside, id + 1)[stmt] == id
    ensures Mapped(m[stmt := id], inside, id + 1) == Mapped(m, [stmt] + inside, id)
  {
    MappedAt(m, [stmt] + inside, id, 0);
    assert ([stmt] + inside)[1..] == inside;
  }

  lemma {:induction false} SettledHeights(t: Loop)
    requires InfoOk(t.info) && InfosOk(t.children)
    ensures var u := Loop(t.info, SettleForest(t.children));
            AxesOk(u) == AxesOk(t) && SettledInfo(u) == SettledInfo(t)
  {
    SettleHeights(t);
  }

  lemma {:induction false} UpdateMiddle<T>(a: seq<T>, m: T, b: seq<T>, u: T)
    ensures (a + [m] + b)[|a|] == m && (a + [m] + b)[|a| := u] == a + ([u] + b)
  {
  }

  lemma {:induction false} LeaveNodes(s: State, t: Loop, s2: State)
    requires Valid(s) && InfosOk([t]) && InfosOk(t.children) && InfoOk(t.info)
    requires var id := |s.nodes|;
             s2.nodes == Attach(s.nodes, s.currentLoop, [id])
               + [Node(t.info, s.currentLoop, RootIds(t.children, id + 1))]
                         + Layout(t.children, id + 1, Some(id))
    ensures var id := |s.nodes|;
            && s2.nodes[id].parent == s.currentLoop && s2.nodes[id].info == t.info
            && s2.nodes[id := s2.nodes[id].(info := SettledInfo(t))] == Built(s, [t]).nodes
  {
    var id := |s.nodes|;
    var entered := Node(t.info, s.currentLoop, RootIds(t.children, id + 1));
    var left := entered.(info := SettledInfo(t));
    UpdateMiddle(Attach(s.nodes, s.currentLoop, [id]), entered, Layout(t.children, id + 1, Some(id)), left);
    OneTree(t, id, s.currentLoop);
    BuiltNodes(s, [t]);
  }

  lemma {:induction false} BuiltNodes(s: State, ts: seq<Loop>)
    requires Valid(s) && InfosOk(ts)
    ensures Built(s, ts).nodes
            == Attach(s.nodes, s.currentLoop, RootIds(ts, |s.nodes|)) + Layout(ts, |s.nodes|, s.currentLoop)
  {
  }

  lemma {:induction false} OwnOuters(t: Loop, id: nat)
    requires InfosOk([t]) && InfosOk(t.children)
    ensures OuterIds([t], id) == if IsRegular(t.info.types) then OuterIds(t.children, id + 1)
              else if t.info.types[0] == Outer then [id] else []
  {
    OneTree(t, id, None);
  }

  lemma {:induction false} LeaveOuters(s: State, t: Loop, s1: State)
    requires Valid(s) && InfosOk([t]) && InfosOk(t.children) && InfoOk(t.info) && Valid(s1) && Valid(Entered(s, t.info))
    requires s1 == Entered(s, t.info).(loopMap := s1.loopMap)
    ensures Built(s1, t.children).topLevelOuterLoops == Built(s, [t]).topLevelOuterLoops
  {
    var id := |s.nodes|;
    EnteredRegularUp(s, t.info);
    var outers := OuterIds(t.children, id + 1);
    OwnOuters(t, id);
    var up := RegularUp(s.nodes, s.currentLoop);
    assert Built(s1, t.children).topLevelOuterLoops
        == if IsRegular(t.info.types) && up then s1.topLevelOuterLoops + outers else s1.topLevelOuterLoops;
    if !IsRegular(t.info.types) && up && t.info.types[0] != Outer {
      assert s.topLevelOuterLoops + [] == s.topLevelOuterLoops;
    }
  }

  /** Leaving the loop gives the state expected for the whole tree. */
  lemma {:induction false} LeaveTree(s: State, t: Loop, s1: State)
    requires Valid(s) && InfosOk([t]) && InfosOk(t.children) && InfoOk(t.info)
             && Fresh(s.loopMap, [t.info.stmt] + Stmts(t.children))
    requires Valid(Entered(s, t.info)) && s1 == Entered(s, t.info).(loopMap := s.loopMap[t.info.stmt := |s.nodes|])
    requires Valid(s1) && Valid(Built(s1, t.children))
    ensures var s2 := Built(s1, t.children);
            && StopSpec(s2, t.info.stmt).1.None? == AxesOk(t)
            && (AxesOk(t) ==> StopSpec(s2, t.info.stmt).0 == Built(s, [t]))
  {
    var id := |s.nodes|;
    var s2 := Built(s1, t.children);
    InsideMap(s.loopMap, t.info.stmt, Stmts(t.children), id);
    InsideSlots(s, t, s1);
    InsideTree(s, t, s2);
    SettledHeights(t);
    assert s2.loopMap[t.info.stmt] == id;
    if AxesOk(t) {
      LeaveNodes(s, t, s2);
      LeaveOuters(s, t, s1);
      LeaveRest(s, t, s1);
    }
  }

  lemma {:induction false} LeaveRest(s: State, t: Loop, s1: State)
    requires Valid(s) && InfosOk([t]) && InfosOk(t.children) && InfoOk(t.info) && Valid(s1)
    requires s1 == Entered(s, t.info).(loopMap := s.loopMap[t.info.stmt := |s.nodes|])
    ensures Built(s1, t.children).topLevelLoops == Built(s, [t]).topLevelLoops
    ensures Built(s, [t]).loopMap == Mapped(s.loopMap, [t.info.stmt] + Stmts(t.children), |s.nodes|)
  {
    OneTree(t, |s.nodes|, s.currentLoop);
  }

  /** One loop with everything inside it. */
  lemma {:induction false} TraverseTree(s: State, t: Loop)
    requires Valid(s) && InfosOk([t])
    ensures Traversed(s, [t])
    decreases Size(t), 0
  {
    OneTree(t, |s.nodes|, s.currentLoop);
    EnterTree(s, t);
    var (s1, err) := Step(s, Start(t.info));
    if err.None? { TraverseForest(s1, t.children); }
    AroundTree(s, t);
  }

  /** The events of the forest succeed exactly when its loops are legal, fit and new, and then add the forest. */
  ghost predicate Traversed(s: State, ts: seq<Loop>)
    requires Valid(s) && InfosOk(ts)
  {
    var r := Feed(s, Events(ts));
    && (r.1.None? <==> ForestOk(ts, ParentTypes(s)) && Fresh(s.loopMap, Stmts(ts)))
    && (r.1.None? ==> r.0 == Built(s, ts))
  }

  /** Entering a loop, its children, and leaving it. */
  lemma {:induction false} AroundTree(s: State, t: Loop)
    requires Valid(s) && InfosOk([t]) && InfoOk(t.info) && InfosOk(t.children)
    requires var (s1, err) := Step(s, Start(t.info)); Valid(s1) && (err.None? ==> Traversed(s1, t.children))
    ensures Traversed(s, [t])
  {
    OneTree(t, |s.nodes|, s.currentLoop);
    var inside := Events(t.children);
    FeedStartInsideStop(s, Start(t.info), inside, Stop(t.info.stmt));
    EnterTree(s, t);
    var (s1, err) := Step(s, Start(t.info));
    if err.None? && Feed(s1, inside).1.None? { LeaveTree(s, t, s1); }
  }

  /** Entering a loop succeeds when it is legal below its parent and new; what is new then is new inside. */
  lemma {:induction false} EnterTree(s: State, t: Loop)
    requires Valid(s) && InfoOk(t.info) && InfosOk(t.children)
    ensures var (s1, err) := Step(s, Start(t.info));
            Valid(s1) && (err.None? <==> Legal(t.info.types, ParentTypes(s)) && t.info.stmt !in s.loopMap)
            && (err.None? ==>
                  Valid(Entered(s, t.info)) && ParentTypes(s1) == t.info.types
                  && s1 == Entered(s, t.info).(loopMap := s.loopMap[t.info.stmt := |s.nodes|])
                  && (Fresh(s.loopMap, [t.info.stmt] + Stmts(t.children)) <==> Fresh(s1.loopMap, Stmts(t.children))))
    ensures Fresh(s.loopMap, [t.info.stmt] + Stmts(t.children)) ==> t.info.stmt !in s.loopMap
  {
    StepKeepsValid(s, Start(t.info));
    FreshConcat(s.loopMap, [t.info.stmt], Stmts(t.children), |s.nodes|);
    FreshOne(s.loopMap, t.info.stmt, |s.nodes|);
  }

  lemma {:induction false} FeedStartInsideStop(s: State, start: Event, inside: seq<Event>, stop: Event)
    requires Valid(s) && EventsOk([start] + inside + [stop]) && EventsOk(inside)
             && (start.Start? ==> InfoOk(start.info)) && stop.Stop?
    ensures Valid(Step(s, start).0)
    ensures Feed(s, [start] + inside + [stop])
            == if Step(s, start).1.Some? then Step(s, start)
               else if Feed(Step(s, start).0, inside).1.Some? then Feed(Step(s, start).0, inside)
               else Step(Feed(Step(s, start).0, inside).0, stop)
  {
    StepKeepsValid(s, start);
    var es := [start] + inside + [stop];
    assert es[1..] == inside + [stop];
    FeedConcat(Step(s, start).0, inside, [stop]);
    if Step(s, start).1.None? && Feed(Step(s, start).0, inside).1.None? {
      var s2 := Feed(Step(s, start).0, inside).0;
      assert [stop][1..] == [];
      StepKeepsValid(s2, stop);
      assert Feed(s2, [stop]) == if Step(s2, stop).1.Some? then (Step(s2, stop).0, Step(s2, stop).1)
               else Feed(Step(s2, stop).0, []);
    }
  }

  lemma {:induction false} TablesConcat(ts: seq<Loop>, id: nat, parent: Option<nat>)
    requires InfosOk(ts) && ts != []
    ensures InfosOk([ts[0]]) && InfosOk(ts[1..])
    ensures var t, rest, next := ts[0], ts[1..], id + Size(ts[0]);
            && RootIds(ts, id) == RootIds([t], id) + RootIds(rest, next)
            && Stmts(ts) == Stmts([t]) + Stmts(rest)
            && OuterIds(ts, id) == OuterIds([t], id) + OuterIds(rest, next)
            && Layout(ts, id, parent) == Layout([t], id, parent) + Layout(rest, next, parent)
            && |Stmts([t])| == |Layout([t], id, parent)| == Size(t)
  {
    assert InfosOk([ts[0]]) by { assert [ts[0]][1..] == []; }
    OneTree(ts[0], id, parent);
  }

  lemma {:induction false} NodesConcat2(nodes: seq<Node>, cur: Option<nat>, a: seq<nat>, l: seq<Node>, b: seq<nat>,
                                        l': seq<Node>)
    requires cur.Some? ==> cur.value < |nodes|
    ensures Attach(Attach(nodes, cur, a) + l, cur, b) + l' == Attach(nodes, cur, a + b) + (l + l')
  {
    if cur.Some? {
      assert nodes[cur.value].children + a + b == nodes[cur.value].children + (a + b);
    }
  }

  lemma {:induction false} BuiltKeepsContext(s: State, t: Loop, s': State)
    requires Valid(s) && InfosOk([t]) && Valid(s') && s' == Built(s, [t])
    ensures |s'.nodes| == |s.nodes| + Size(t)
    ensures s'.currentLoop == s.currentLoop
    ensures RegularUp(s'.nodes, s.currentLoop) == RegularUp(s.nodes, s.currentLoop)
    ensures ParentTypes(s') == ParentTypes(s)
  {
    AddedKeeps(s.nodes, s.currentLoop, RootIds([t], |s.nodes|), Layout([t], |s.nodes|, s.currentLoop));
    assert |Layout([t], |s.nodes|, s.currentLoop)| == ForestSize([t]) == Size(t);
    RegularUpSame(s.nodes, s'.nodes, s.currentLoop);
  }

  lemma {:induction false} AddedKeeps(nodes: seq<Node>, cur: Option<nat>, ids: seq<nat>, more: seq<Node>)
    requires cur.Some? ==> cur.value < |nodes|
    ensures var all := Attach(nodes, cur, ids) + more;
            |all| == |nodes| + |more| && SameShape(nodes, all)
            && (cur.Some? ==> all[cur.value].info == nodes[cur.value].info)
  {
  }

  lemma {:induction false} ExtendTwice(s: State, a: Added, b: Added, s': State)
    requires Valid(s) && Valid(s') && s' == Extend(s, a) && |s'.nodes| == |s.nodes| + |a.stmts|
    requires RegularUp(s'.nodes, s.currentLoop) == RegularUp(s.nodes, s.currentLoop)
    ensures Extend(s', b) == Extend(s, Join(a, b))
  {
    NodesConcat2(s.nodes, s.currentLoop, a.roots, a.nodes, b.roots, b.nodes);
    ConcatAssoc(s.topLevelLoops, a.roots, b.roots);
    ConcatAssoc(s.topLevelOuterLoops, a.outers, b.outers);
    MappedConcat(s.loopMap, a.stmts, b.stmts, |s.nodes|);
  }

  lemma {:induction false} BuiltConcat(s: State, ts: seq<Loop>, s': State)
    requires Valid(s) && InfosOk(ts) && ts != [] && InfosOk([ts[0]]) && InfosOk(ts[1..]) && Valid(s')
             && s' == Built(s, [ts[0]])
    ensures Built(s', ts[1..]) == Built(s, ts)
  {
    var id, cur := |s.nodes|, s.currentLoop;
    var a, b := AddedBy([ts[0]], id, cur), AddedBy(ts[1..], id + Size(ts[0]), cur);
    BuiltKeepsContext(s, ts[0], s');
    AddedConcat(ts, id, cur);
    ExtendTwice(s, a, b, s');
  }

  lemma {:induction false} AddedConcat(ts: seq<Loop>, id: nat, parent: Option<nat>)
    requires InfosOk(ts) && ts != [] && InfosOk([ts[0]]) && InfosOk(ts[1..])
    ensures AddedBy(ts, id, parent) == Join(AddedBy([ts[0]], id, parent), AddedBy(ts[1..], id + Size(ts[0]), parent))
    ensures |Stmts([ts[0]])| == Size(ts[0])
  {
    TablesConcat(ts, id, parent);
  }

  /** A traversal of any forest succeeds exactly when every loop is legal in its parent, every Auto
    * axis fits and no loop is met twice; it then adds exactly that forest. */
  lemma {:induction false} TraverseForest(s: State, ts: seq<Loop>)
    requires Valid(s) && InfosOk(ts)
    ensures Traversed(s, ts)
    decreases ForestSize(ts), 1
  {
    if ts == [] {
      NothingTraversed(s);
    } else {
      assert ForestSize(ts) == 1 + ForestSize(ts[0].children) + ForestSize(ts[1..]);
      TablesConcat(ts, |s.nodes|, s.currentLoop);
      TraverseTree(s, ts[0]);
      var s' := Feed(s, Events([ts[0]])).0;
      if Feed(s, Events([ts[0]])).1.None? { TraverseForest(s', ts[1..]); }
      ThenRest(s, ts);
    }
  }

  lemma {:induction false} NothingTraversed(s: State)
    requires Valid(s)
    ensures Traversed(s, [])
  {
    if s.currentLoop.Some? {
      var c := s.currentLoop.value;
      assert s.nodes[c].children + [] == s.nodes[c].children;
    }
  }

  /** The first tree and then the others. */
  lemma {:induction false} ThenRest(s: State, ts: seq<Loop>)
    requires Valid(s) && InfosOk(ts) && ts != [] && InfosOk([ts[0]]) && InfosOk(ts[1..]) && Traversed(s, [ts[0]])
    requires var (s', err) := Feed(s, Events([ts[0]])); err.None? ==> Traversed(s', ts[1..])
    ensures Traversed(s, ts)
  {
    var t, rest := ts[0], ts[1..];
    assert ts == [t] + rest && [t][1..] == [];
    FeedConcat(s, Events([t]), Events(rest));
    OneTree(t, |s.nodes|, s.currentLoop);
    TablesConcat(ts, |s.nodes|, s.currentLoop);
    FreshConcat(s.loopMap, Stmts([t]), Stmts(rest), |s.nodes|);
    if Feed(s, Events([t])).1.None? {
      var s' := Built(s, [t]);
      BuiltKeepsContext(s, t, s');
      BuiltConcat(s, ts, s');
    }
  }

  // ----- a whole kernel -----

  const EMPTY := State([], [], [], None, map[])

  lemma {:induction false} RootsReadBack(nodes: seq<Node>, ts: seq<Loop>, id: nat, parent: Option<nat>)
    requires NodesOk(nodes) && InfosOk(ts) && LaidOut(nodes, ts, id, parent)
    ensures HoldsForest(nodes, RootIds(ts, id), SettleForest(ts))
    decreases |ts|
  {
    if ts != [] {
      FirstReadsBack(nodes, ts, id, parent);
      RootsReadBack(nodes, ts[1..], id + Size(ts[0]), parent);
      HoldsStep(nodes, ts, id);
    }
  }

  lemma {:induction false} HoldsStep(nodes: seq<Node>, ts: seq<Loop>, id: nat)
    requires NodesOk(nodes) && InfosOk(ts) && ts != [] && InfosOk(ts[1..]) && id < |nodes|
             && Subtree(nodes, id) == SettleForest(ts)[0]
    requires HoldsForest(nodes, RootIds(ts[1..], id + Size(ts[0])), SettleForest(ts[1..]))
    ensures HoldsForest(nodes, RootIds(ts, id), SettleForest(ts))
  {
    SettleFirst(ts);
    HoldsCons(nodes, id, RootIds(ts[1..], id + Size(ts[0])), SettleForest(ts)[0], SettleForest(ts[1..]));
  }

  lemma {:induction false} FirstReadsBack(nodes: seq<Node>, ts: seq<Loop>, id: nat, parent: Option<nat>)
    requires NodesOk(nodes) && InfosOk(ts) && ts != [] && LaidOut(nodes, ts, id, parent)
    ensures id < |nodes| && Subtree(nodes, id) == SettleForest(ts)[0]
            && LaidOut(nodes, ts[1..], id + Size(ts[0]), parent)
    ensures InfosOk(ts[1..])
  {
    SettleFirst(ts);
    LayoutParts(nodes, ts, id, parent);
    TreeReadsBack(nodes, ts[0], id);
  }

  lemma {:induction false} SettleFirst(ts: seq<Loop>)
    requires InfosOk(ts) && ts != []
    ensures InfoOk(ts[0].info) && InfosOk(ts[0].children) && InfosOk(ts[1..])
    ensures SettleForest(ts) == [Loop(SettledInfo(ts[0]), SettleForest(ts[0].children))] + SettleForest(ts[1..])
  {
  }

  /** Slot by slot, `ids` holds the trees of `us`. */
  ghost predicate HoldsForest(nodes: seq<Node>, ids: seq<nat>, us: seq<Loop>)
    requires NodesOk(nodes)
  {
    |ids| == |us| && forall k :: 0 <= k < |ids| ==> ids[k] < |nodes| && Subtree(nodes, ids[k]) == us[k]
  }

  lemma {:induction false} HoldsCons(nodes: seq<Node>, id: nat, ids: seq<nat>, u: Loop, us: seq<Loop>)
    requires NodesOk(nodes) && id < |nodes| && Subtree(nodes, id) == u && HoldsForest(nodes, ids, us)
    ensures HoldsForest(nodes, [id] + ids, [u] + us)
  {
  }

  function StmtsOf(nodes: seq<Node>): (r: seq<nat>)
    ensures |r| == |nodes| && forall i :: 0 <= i < |nodes| ==> r[i] == nodes[i].info.stmt
  {
    seq(|nodes|, i requires 0 <= i < |nodes| => nodes[i].info.stmt)
  }

  lemma {:induction false} SlotStmts(ts: seq<Loop>, id: nat, parent: Option<nat>)
    requires InfosOk(ts)
    ensures StmtsOf(Layout(ts, id, parent)) == Stmts(ts)
    decreases ForestSize(ts)
  {
    if ts != [] {
      assert ForestSize(ts) == 1 + ForestSize(ts[0].children) + ForestSize(ts[1..]);
      SlotStmts(ts[0].children, id + 1, Some(id));
      SlotStmts(ts[1..], id + Size(ts[0]), parent);
      SlotStep(ts, id, parent);
    }
  }

  lemma {:induction false} SlotStep(ts: seq<Loop>, id: nat, parent: Option<nat>)
    requires InfosOk(ts) && ts != []
    requires StmtsOf(Layout(ts[0].children, id + 1, Some(id))) == Stmts(ts[0].children)
    requires StmtsOf(Layout(ts[1..], id + Size(ts[0]), parent)) == Stmts(ts[1..])
    ensures StmtsOf(Layout(ts, id, parent)) == Stmts(ts)
  {
    LayoutUnfold(ts, id, parent);
    StmtsUnfold(ts);
    SlotParts(Layout(ts, id, parent), Stmts(ts), Node(SettledInfo(ts[0]), parent, RootIds(ts[0].children, id + 1)),
              Layout(ts[0].children, id + 1, Some(id)), Layout(ts[1..], id + Size(ts[0]), parent));
  }

  lemma {:induction false} SlotParts(all: seq<Node>, stmts: seq<nat>, n: Node, a: seq<Node>, b: seq<Node>)
    requires all == [n] + a + b && stmts == [n.info.stmt] + StmtsOf(a) + StmtsOf(b)
    ensures StmtsOf(all) == stmts
  {
  }

  /** The loops whose first type is `@outer`, with only regular loops around them, left to right. */
  function TopOuters(frontier: seq<Loop>): seq<Loop> {
    if frontier == [] then []
    else
      (if frontier[0].info.types != [] && frontier[0].info.types[0] == Outer then [frontier[0]] else [])
      + TopOuters(frontier[1..])
  }

  lemma {:induction false} TopOutersConcat(a: seq<Loop>, b: seq<Loop>)
    ensures TopOuters(a + b) == TopOuters(a) + TopOuters(b)
  {
    if a == [] {
      assert a + b == b;
    } else {
      assert (a + b)[1..] == a[1..] + b;
      TopOutersConcat(a[1..], b);
    }
  }

  ghost predicate ReadsAs(nodes: seq<Node>, ids: seq<nat>, ts: seq<Loop>)
    requires NodesOk(nodes)
  {
    && |ids| == |ts|
    && forall k :: 0 <= k < |ids| ==>
         ids[k] < |nodes| && InfosOk([ts[k]]) && Subtree(nodes, ids[k]) == SettleForest([ts[k]])[0]
  }

  lemma {:induction false} ReadsAsConcat(nodes: seq<Node>, a: seq<nat>, b: seq<nat>, ts: seq<Loop>, us: seq<Loop>)
    requires NodesOk(nodes) && ReadsAs(nodes, a, ts) && ReadsAs(nodes, b, us)
    ensures ReadsAs(nodes, a + b, ts + us)
  {
  }

  lemma {:induction false} ReadsAsOne(nodes: seq<Node>, t: Loop, id: nat)
    requires NodesOk(nodes) && InfosOk([t]) && InfosOk(t.children) && InfoOk(t.info) && id < |nodes|
    requires Subtree(nodes, id) == Loop(SettledInfo(t), SettleForest(t.children))
    ensures ReadsAs(nodes, [id], [t])
  {
    assert [t][1..] == [];
    assert SettleForest([t])[0] == Loop(SettledInfo(t), SettleForest(t.children));
  }

  /** What the first tree of a laid-out forest contributes to the top-level outer loops. */
  lemma {:induction false} TreeOuters(nodes: seq<Node>, t: Loop, id: nat)
    requires NodesOk(nodes) && InfosOk([t]) && InfosOk(t.children) && InfoOk(t.info) && id < |nodes|
    requires LaidOut(nodes, t.children, id + 1, Some(id))
             && Subtree(nodes, id) == Loop(SettledInfo(t), SettleForest(t.children))
    ensures ReadsAs(nodes, OwnOuterIds(t, id), TopOuters(Own(t)))
    decreases ForestSize(t.children), 2
  {
    if Attributed(t) {
      assert [t][1..] == [];
      assert TopOuters([t]) == (if t.info.types[0] == Outer then [t] else []) + TopOuters([]);
      ReadsAsOne(nodes, t, id);
    } else {
      OutersReadBack(nodes, t.children, id + 1, Some(id));
    }
  }

  lemma {:induction false} FirstOuters(nodes: seq<Node>, ts: seq<Loop>, id: nat, parent: Option<nat>)
    requires NodesOk(nodes) && InfosOk(ts) && ts != [] && LaidOut(nodes, ts, id, parent)
    ensures ReadsAs(nodes, OwnOuterIds(ts[0], id), TopOuters(Own(ts[0])))
    ensures LaidOut(nodes, ts[1..], id + Size(ts[0]), parent)
    decreases ForestSize(ts), 0
  {
    LayoutParts(nodes, ts, id, parent);
    TreeReadsBack(nodes, ts[0], id);
    assert [ts[0]][1..] == [];
    TreeOuters(nodes, ts[0], id);
  }

  lemma {:induction false} OutersReadBack(nodes: seq<Node>, ts: seq<Loop>, id: nat, parent: Option<nat>)
    requires NodesOk(nodes) && InfosOk(ts) && LaidOut(nodes, ts, id, parent)
    ensures ReadsAs(nodes, OuterIds(ts, id), TopOuters(Frontier(ts)))
    decreases ForestSize(ts), 1
  {
    if ts != [] {
      FirstOuters(nodes, ts, id, parent);
      OutersReadBack(nodes, ts[1..], id + Size(ts[0]), parent);
      OutersStep(nodes, ts, id);
    }
  }

  lemma {:induction false} OutersStep(nodes: seq<Node>, ts: seq<Loop>, id: nat)
    requires NodesOk(nodes) && InfosOk(ts) && ts != []
    requires ReadsAs(nodes, OwnOuterIds(ts[0], id), TopOuters(Own(ts[0])))
    requires ReadsAs(nodes, OuterIds(ts[1..], id + Size(ts[0])), TopOuters(Frontier(ts[1..])))
    ensures ReadsAs(nodes, OuterIds(ts, id), TopOuters(Frontier(ts)))
  {
    SplitOuters(ts, id);
    ReadsAsConcat(nodes, OwnOuterIds(ts[0], id), OuterIds(ts[1..], id + Size(ts[0])), TopOuters(Own(ts[0])),
                  TopOuters(Frontier(ts[1..])));
  }

  function Own(t: Loop): seq<Loop> {
    if Attributed(t) then [t] else Frontier(t.children)
  }

  function OwnOuterIds(t: Loop, id: nat): seq<nat>
    requires InfoOk(t.info) && InfosOk(t.children)
  {
    if IsRegular(t.info.types) then OuterIds(t.children, id + 1) else if t.info.types[0] == Outer then [id] else []
  }

  lemma {:induction false} SplitOuters(ts: seq<Loop>, id: nat)
    requires InfosOk(ts) && ts != []
    ensures OuterIds(ts, id) == OwnOuterIds(ts[0], id) + OuterIds(ts[1..], id + Size(ts[0]))
    ensures TopOuters(Frontier(ts)) == TopOuters(Own(ts[0])) + TopOuters(Frontier(ts[1..]))
  {
    TopOutersConcat(Own(ts[0]), Frontier(ts[1..]));
  }

  /** The children of slot i name it as their parent. */
  predicate PointBack(nodes: seq<Node>, i: nat)
    requires NodesOk(nodes)
  {
    i < |nodes| && ParentIs(nodes, nodes[i].children, Some(i))
  }

  predicate ParentIs(nodes: seq<Node>, ids: seq<nat>, parent: Option<nat>) {
    forall k :: 0 <= k < |ids| ==> ids[k] < |nodes| && nodes[ids[k]].parent == parent
  }

  lemma {:induction false} RootParents(nodes: seq<Node>, ts: seq<Loop>, id: nat, parent: Option<nat>)
    requires InfosOk(ts) && LaidOut(nodes, ts, id, parent)
    ensures ParentIs(nodes, RootIds(ts, id), parent)
    decreases |ts|
  {
    if ts != [] {
      LayoutParts(nodes, ts, id, parent);
      RootParents(nodes, ts[1..], id + Size(ts[0]), parent);
      ParentCons(nodes, id, RootIds(ts[1..], id + Size(ts[0])), parent);
    }
  }

  /** Every slot laid out for a forest begins the slots of some forest inside it. */
  lemma {:induction false} SlotRoot(nodes: seq<Node>, ts: seq<Loop>, id: nat, parent: Option<nat>, i: nat)
    returns (us: seq<Loop>, p: Option<nat>)
    requires InfosOk(ts) && LaidOut(nodes, ts, id, parent) && id <= i < id + ForestSize(ts)
    ensures us != [] && InfosOk(us) && LaidOut(nodes, us, i, p)
    decreases ForestSize(ts)
  {
    us, p := ts, parent;
    if i > id {
      LayoutHalves(nodes, ts, id, parent);
      if i < id + Size(ts[0]) {
        us, p := SlotRoot(nodes, ts[0].children, id + 1, Some(id), i);
      } else {
        us, p := SlotRoot(nodes, ts[1..], id + Size(ts[0]), parent, i);
      }
    }
  }

  lemma {:induction false} LayoutHalves(nodes: seq<Node>, ts: seq<Loop>, id: nat, parent: Option<nat>)
    requires InfosOk(ts) && ts != [] && LaidOut(nodes, ts, id, parent)
    ensures InfosOk(ts[0].children) && InfosOk(ts[1..])
    ensures Size(ts[0]) == 1 + ForestSize(ts[0].children) && ForestSize(ts) == Size(ts[0]) + ForestSize(ts[1..])
    ensures LaidOut(nodes, ts[0].children, id + 1, Some(id)) && LaidOut(nodes, ts[1..], id + Size(ts[0]), parent)
  {
    LayoutParts(nodes, ts, id, parent);
  }

  lemma {:induction false} FirstPointsBack(nodes: seq<Node>, ts: seq<Loop>, id: nat, parent: Option<nat>)
    requires NodesOk(nodes) && InfosOk(ts) && ts != [] && LaidOut(nodes, ts, id, parent)
    ensures PointBack(nodes, id)
  {
    LayoutParts(nodes, ts, id, parent);
    RootParents(nodes, ts[0].children, id + 1, Some(id));
  }

  predicate AllPointBack(nodes: seq<Node>)
    requires NodesOk(nodes)
  {
    forall i :: 0 <= i < |nodes| ==> PointBack(nodes, i)
  }

  lemma {:induction false} ParentCons(nodes: seq<Node>, id: nat, ids: seq<nat>, parent: Option<nat>)
    requires id < |nodes| && nodes[id].parent == parent && ParentIs(nodes, ids, parent)
    ensures ParentIs(nodes, [id] + ids, parent)
  {
  }

  /** The traversal of a kernel: it succeeds exactly for legal forests of distinct loops, and then
    * holds that forest with its axes settled, every loop under its own statement, no loop open, and
    * the top-level outer loops in source order. */
  lemma {:induction false} KernelRebuilt(ts: seq<Loop>)
    requires InfosOk(ts)
    ensures Feed(EMPTY, Events(ts)).1.None? <==> ForestOk(ts, [Regular]) && Fresh(map[], Stmts(ts))
    ensures Feed(EMPTY, Events(ts)).1.None? ==> Rebuilt(ts, Feed(EMPTY, Events(ts)).0)
  {
    TraverseForest(EMPTY, ts);
    if Feed(EMPTY, Events(ts)).1.None? { BuiltIsRebuilt(ts); }
  }

  /** The state holds exactly the forest: nodes, parent links, trees, the map of statements, and the top-level outer
    * loops; no loop is left open. */
  ghost predicate Rebuilt(ts: seq<Loop>, s: State)
    requires InfosOk(ts) && NodesOk(s.nodes)
  {
    && s.currentLoop == None
    && s.nodes == Layout(ts, 0, None)
    && ParentIs(s.nodes, s.topLevelLoops, None) && AllPointBack(s.nodes)
    && HoldsForest(s.nodes, s.topLevelLoops, SettleForest(ts))
    && StmtsOf(s.nodes) == Stmts(ts)
    && (forall i :: 0 <= i < |s.nodes| ==> Stmts(ts)[i] in s.loopMap && s.loopMap[Stmts(ts)[i]] == i)
    && ReadsAs(s.nodes, s.topLevelOuterLoops, TopOuters(Frontier(ts)))
  }

  lemma {:induction false} BuiltIsRebuilt(ts: seq<Loop>)
    requires InfosOk(ts) && Valid(EMPTY) && NodesOk(Built(EMPTY, ts).nodes) && Fresh(map[], Stmts(ts))
    ensures Rebuilt(ts, Built(EMPTY, ts))
  {
    BuiltFromEmpty(ts);
    KernelSlots(ts, Layout(ts, 0, None));
  }

  lemma {:induction false} BuiltFromEmpty(ts: seq<Loop>)
    requires InfosOk(ts)
    ensures Built(EMPTY, ts)
            == State(Layout(ts, 0, None), RootIds(ts, 0), OuterIds(ts, 0), None, Mapped(map[], Stmts(ts), 0))
  {
  }

  lemma {:induction false} KernelSlots(ts: seq<Loop>, nodes: seq<Node>)
    requires InfosOk(ts) && nodes == Layout(ts, 0, None) && NodesOk(nodes) && Fresh(map[], Stmts(ts))
    ensures HoldsForest(nodes, RootIds(ts, 0), SettleForest(ts)) && StmtsOf(nodes) == Stmts(ts)
    ensures ReadsAs(nodes, OuterIds(ts, 0), TopOuters(Frontier(ts)))
    ensures ParentIs(nodes, RootIds(ts, 0), None) && AllPointBack(nodes)
    ensures var m := Mapped(map[], Stmts(ts), 0);
            forall i :: 0 <= i < |nodes| ==> Stmts(ts)[i] in m && m[Stmts(ts)[i]] == i
  {
    assert LaidOut(nodes, ts, 0, None);
    RootsReadBack(nodes, ts, 0, None);
    SlotStmts(ts, 0, None);
    RootParents(nodes, ts, 0, None);
    forall i | 0 <= i < |nodes| ensures PointBack(nodes, i) {
      var us, p := SlotRoot(nodes, ts, 0, None, i);
      FirstPointsBack(nodes, us, i, p);
    }
    OutersReadBack(nodes, ts, 0, None);
    forall i | 0 <= i < |nodes|
      ensures Stmts(ts)[i] in Mapped(map[], Stmts(ts), 0) && Mapped(map[], Stmts(ts), 0)[Stmts(ts)[i]] == i
    {
      MappedAt(map[], Stmts(ts), 0, i);
    }
  }
}
