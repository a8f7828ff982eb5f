/** The semantic context: it builds the loop tree of a kernel from the start and stop events of
  * the traversal, and settles the hardware axes on the way out.  A loop is a slot of `nodes`;
  * what the program holds as a pointer to a loop is its slot number here.
  */
module SemaCtx {
  import opened LoopLang
  import opened LoopHeader
  import opened LoopTree
  import opened KernelUtils
  import opened LoopLegality

  datatype Node = Node(info: Info, parent: Option<nat>, children: seq<nat>)

  datatype State = State(
    nodes: seq<Node>,
    topLevelLoops: seq<nat>,
    topLevelOuterLoops: seq<nat>,
    currentLoop: Option<nat>,
    loopMap: map<nat, nat>)

  datatype Error = IllegalLevel | DuplicateLoop | TooManyNested

  datatype Event = Start(info: Info) | Stop(stmt: nat)

  predicate InfoOk(info: Info) {
    TypesOk(info.types) && |info.axes| == |info.types|
  }

  /** Parents lie before their children, and every slot number is in range. */
  predicate NodesOk(nodes: seq<Node>) {
    forall i :: 0 <= i < |nodes| ==>
      && InfoOk(nodes[i].info)
      && (nodes[i].parent.Some? ==> nodes[i].parent.value < i)
      && forall k :: 0 <= k < |nodes[i].children| ==> i < nodes[i].children[k] < |nodes|
  }

  predicate Valid(s: State) {
    && NodesOk(s.nodes)
    && (s.currentLoop.Some? ==> s.currentLoop.value < |s.nodes|)
    && forall k :: k in s.loopMap ==> s.loopMap[k] < |s.nodes|
  }

  // ----- the tree a state holds -----

  function Subtree(nodes: seq<Node>, i: nat): Loop
    requires NodesOk(nodes) && i < |nodes|
    decreases |nodes| - i, 1, 0
  {
    Loop(nodes[i].info, Subtrees(nodes, nodes[i].children, i))
  }

  function Subtrees(nodes: seq<Node>, ids: seq<nat>, above: nat): seq<Loop>
    requires NodesOk(nodes) && above < |nodes| && forall k :: 0 <= k < |ids| ==> above < ids[k] < |nodes|
    decreases |nodes| - above, 0, |ids|
  {
    if ids == [] then [] else [Subtree(nodes, ids[0])] + Subtrees(nodes, ids[1..], above)
  }

  predicate RegularUp(nodes: seq<Node>, cur: Option<nat>)
    requires NodesOk(nodes) && (cur.Some? ==> cur.value < |nodes|)
    decreases if cur.Some? then cur.value + 1 else 0
  {
    cur.None? || (IsRegular(nodes[cur.value].info.types) && RegularUp(nodes, nodes[cur.value].parent))
  }

  function ParentTypes(s: State): seq<LoopType>
    requires Valid(s)
  {
    if s.currentLoop.Some? then s.nodes[s.currentLoop.value].info.types else [Regular]
  }

  // ----- one event -----

  function Attach(nodes: seq<Node>, cur: Option<nat>, ids: seq<nat>): (r: seq<Node>)
    requires cur.Some? ==> cur.value < |nodes|
    ensures |r| == |nodes|
  {
    if cur.None? then nodes
    else nodes[cur.value := nodes[cur.value].(children := nodes[cur.value].children + ids)]
  }

  /** The state after a loop has been entered; the map of loops is updated last. */
  function Entered(s: State, info: Info): State
    requires Valid(s) && InfoOk(info)
  {
    var id := |s.nodes|;
    State(Attach(s.nodes, s.currentLoop, [id]) + [Node(info, s.currentLoop, [])],
          if s.currentLoop.None? then s.topLevelLoops + [id] else s.topLevelLoops,
          if !IsRegular(info.types) && RegularUp(s.nodes, s.currentLoop) && info.types[0] == Outer
          then s.topLevelOuterLoops + [id] else s.topLevelOuterLoops,
          Some(id),
          s.loopMap)
  }

  function StartSpec(s: State, info: Info): (State, Option<Error>)
    requires Valid(s) && InfoOk(info)
  {
    if !Legal(info.types, ParentTypes(s)) then (s, Some(IllegalLevel))
    else if info.stmt in s.loopMap then (Entered(s, info), Some(DuplicateLoop))
    else (Entered(s, info).(loopMap := s.loopMap[info.stmt := |s.nodes|]), None)
  }

  /** Auto axes take the computed numbers, given ones stay. */
  function Settle(axes: seq<Axis>, heights: seq<nat>): (r: seq<Axis>)
    requires |axes| == |heights| && forall k :: 0 <= k < |heights| ==> heights[k] <= MAX_AXIS_SZ
    ensures |r| == |axes|
    ensures forall k :: 0 <= k < |r| ==> r[k] == if axes[k] == Auto then ToAxis(heights[k]) else axes[k]
  {
    seq(|axes|, k requires 0 <= k < |axes| => if axes[k] == Auto then ToAxis(heights[k]) else axes[k])
  }

  predicate AxesOk(t: Loop) {
    Auto in t.info.axes ==> HeightsFit(t)
  }

  function SettledInfo(t: Loop): Info
    requires InfoOk(t.info)
  {
    if Auto in t.info.axes && HeightsFit(t) then t.info.(axes := Settle(t.info.axes, AxisHeights(t))) else t.info
  }

  function StopSpec(s: State, stmt: nat): (State, Option<Error>)
    requires Valid(s)
  {
    if stmt !in s.loopMap then (s, None)
    else
      var id := s.loopMap[stmt];
      var t := Subtree(s.nodes, id);
      if !AxesOk(t) then (s, Some(TooManyNested))
      else (s.(nodes := s.nodes[id := s.nodes[id].(info := SettledInfo(t))], currentLoop := s.nodes[id].parent), None)
  }

  lemma {:induction false} AttachOk(nodes: seq<Node>, cur: Option<nat>, id: nat, info: Info)
    requires NodesOk(nodes) && (cur.Some? ==> cur.value < |nodes|) && InfoOk(info) && id == |nodes|
    ensures NodesOk(Attach(nodes, cur, [id]) + [Node(info, cur, [])])
  {
  }

  lemma {:induction false} StepKeepsValid(s: State, e: Event)
    requires Valid(s) && (e.Start? ==> InfoOk(e.info))
    ensures Valid(Step(s, e).0)
  {
    if e.Start? { AttachOk(s.nodes, s.currentLoop, |s.nodes|, e.info); }
  }

  function Step(s: State, e: Event): (State, Option<Error>)
    requires Valid(s) && (e.Start? ==> InfoOk(e.info))
  {
    match e
    case Start(info) => StartSpec(s, info)
    case Stop(stmt) => StopSpec(s, stmt)
  }

  predicate EventsOk(es: seq<Event>) {
    forall k :: 0 <= k < |es| ==> es[k].Start? ==> InfoOk(es[k].info)
  }

  /** Feeds events until one reports an error. */
  function Feed(s: State, es: seq<Event>): (r: (State, Option<Error>))
    requires Valid(s) && EventsOk(es)
    ensures Valid(r.0)
    decreases es
  {
    if es == [] then (s, None)
    else
      StepKeepsValid(s, es[0]);
      var (s', err) := Step(s, es[0]);
      if err.Some? then (s', err) else Feed(s', es[1..])
  }

  lemma {:induction false} FeedConcat(s: State, a: seq<Event>, b: seq<Event>)
    requires Valid(s) && EventsOk(a) && EventsOk(b)
    ensures EventsOk(a + b)
    ensures Feed(s, a + b) == if Feed(s, a).1.Some? then Feed(s, a) else Feed(Feed(s, a).0, b)
    decreases a
  {
    if a == [] {
      assert a + b == b;
    } else {
      assert (a + b)[1..] == a[1..] + b;
      StepKeepsValid(s, a[0]);
      if Step(s, a[0]).1.None? { FeedConcat(Step(s, a[0]).0, a[1..], b); }
    }
  }

  // ----- use of shared memory -----

  function Marked(n: Node): Node {
    n.(info := n.info.(sharedUsed := true))
  }

  /** Marks a loop and then everything around it. */
  function MarkUp(nodes: seq<Node>, cur: Option<nat>): seq<Node>
    requires NodesOk(nodes) && (cur.Some? ==> cur.value < |nodes|)
    decreases if cur.Some? then cur.value + 1 else 0
  {
    if cur.None? then nodes else MarkUp(nodes[cur.value := Marked(nodes[cur.value])], nodes[cur.value].parent)
  }

  /** Slot k is `cur` or one of the loops around it. */
  predicate AtOrAround(nodes: seq<Node>, k: nat, cur: Option<nat>)
    requires NodesOk(nodes) && (cur.Some? ==> cur.value < |nodes|)
    decreases if cur.Some? then cur.value + 1 else 0
  {
    cur.Some? && (cur.value == k || AtOrAround(nodes, k, nodes[cur.value].parent))
  }

  lemma {:induction false} MarkedElsewhere(nodes: seq<Node>, c: nat, k: nat, cur: Option<nat>)
    requires NodesOk(nodes) && c < |nodes| && (cur.Some? ==> cur.value < |nodes|)
    ensures NodesOk(nodes[c := Marked(nodes[c])])
    ensures AtOrAround(nodes[c := Marked(nodes[c])], k, cur) <==> AtOrAround(nodes, k, cur)
    decreases if cur.Some? then cur.value + 1 else 0
  {
    if cur.Some? { MarkedElsewhere(nodes, c, k, nodes[cur.value].parent); }
  }

  /** Exactly the loop and those around it are marked, and nothing else changes. */
  lemma {:induction false} MarkUpExactly(nodes: seq<Node>, cur: Option<nat>, k: nat)
    requires NodesOk(nodes) && (cur.Some? ==> cur.value < |nodes|) && k < |nodes|
    ensures |MarkUp(nodes, cur)| == |nodes|
    ensures MarkUp(nodes, cur)[k]
            == if AtOrAround(nodes, k, cur) then nodes[k].(info := nodes[k].info.(sharedUsed := true)) else nodes[k]
    decreases if cur.Some? then cur.value + 1 else 0
  {
    if cur.Some? {
      var c := cur.value;
      MarkedElsewhere(nodes, c, k, nodes[c].parent);
      MarkUpExactly(nodes[c := Marked(nodes[c])], nodes[c].parent, k);
      assert k == c ==> Marked(Marked(nodes[c])) == Marked(nodes[c]);
    }
  }

  lemma {:induction false} AroundIsClosed(nodes: seq<Node>, k: nat, cur: Option<nat>)
    requires NodesOk(nodes) && (cur.Some? ==> cur.value < |nodes|) && k < |nodes| && nodes[k].parent.Some?
    requires AtOrAround(nodes, k, cur)
    ensures AtOrAround(nodes, nodes[k].parent.value, cur)
    decreases if cur.Some? then cur.value + 1 else 0
  {
    if cur.value != k { AroundIsClosed(nodes, k, nodes[cur.value].parent); }
  }

  /** Everything around a loop that uses shared memory is marked as using it. */
  predicate UseReachesOut(nodes: seq<Node>)
    requires NodesOk(nodes)
  {
    forall k :: 0 <= k < |nodes| && nodes[k].parent.Some? && nodes[k].info.sharedUsed
      ==> nodes[nodes[k].parent.value].info.sharedUsed
  }

  lemma {:induction false} MarkKeepsUse(nodes: seq<Node>, cur: Option<nat>)
    requires NodesOk(nodes) && (cur.Some? ==> cur.value < |nodes|) && UseReachesOut(nodes)
    ensures NodesOk(MarkUp(nodes, cur)) && UseReachesOut(MarkUp(nodes, cur))
  {
    var after := MarkUp(nodes, cur);
    MarkUpShape(nodes, cur);
    forall k | 0 <= k < |after| && after[k].parent.Some? && after[k].info.sharedUsed
      ensures after[after[k].parent.value].info.sharedUsed
    {
      var p := nodes[k].parent.value;
      MarkUpExactly(nodes, cur, k);
      MarkUpExactly(nodes, cur, p);
      if AtOrAround(nodes, k, cur) { AroundIsClosed(nodes, k, cur); }
    }
  }

  lemma {:induction false} MarkUpShape(nodes: seq<Node>, cur: Option<nat>)
    requires NodesOk(nodes) && (cur.Some? ==> cur.value < |nodes|)
    ensures |MarkUp(nodes, cur)| == |nodes| && NodesOk(MarkUp(nodes, cur))
    ensures forall k :: 0 <= k < |nodes| ==> MarkUp(nodes, cur)[k].parent == nodes[k].parent
    decreases if cur.Some? then cur.value + 1 else 0
  {
    if cur.Some? {
      MarkedElsewhere(nodes, cur.value, 0, None);
      MarkUpShape(nodes[cur.value := Marked(nodes[cur.value])], nodes[cur.value].parent);
    }
  }

  // ----- the class -----

  class OklSemaCtx {
    var nodes: seq<Node>
    var topLevelLoops: seq<nat>
    var topLevelOuterLoops: seq<nat>
    var currentLoop: Option<nat>
    var loopMap: map<nat, nat>

    ghost function Abs(): State
      reads this
    {
      State(nodes, topLevelLoops, topLevelOuterLoops, currentLoop, loopMap)
    }

    constructor ()
      ensures Valid(Abs()) && Abs() == State([], [], [], None, map[])
    {
      nodes, topLevelLoops, topLevelOuterLoops, currentLoop, loopMap := [], [], [], None, map[];
    }

    /** The loop is attributed and everything around it is regular. */
    method IsTopLevelAttributed(types: seq<LoopType>) returns (r: bool)
      requires Valid(Abs())
      ensures r <==> !IsRegular(types) && RegularUp(nodes, currentLoop)
    {
      if IsRegular(types) {
        return false;
      }
      var currLoop: Option<nat> := currentLoop;
      while currLoop.Some?
        invariant currLoop.Some? ==> currLoop.value < |nodes|
        invariant RegularUp(nodes, currentLoop) <==> RegularUp(nodes, currLoop)
        decreases if currLoop.Some? then currLoop.value + 1 else 0
      {
        if !IsRegular(nodes[currLoop.value].info.types) {
          return false;
        }
        currLoop := nodes[currLoop.value].parent;
      }
      return true;
    }

    method StartParsingAttributedForLoop(info: Info) returns (err: Option<Error>)
      requires Valid(Abs()) && InfoOk(info)
      modifies this
      ensures Valid(Abs()) && (Abs(), err) == StartSpec(old(Abs()), info)
      ensures err == Some(IllegalLevel) <==> !Legal(info.types, old(ParentTypes(Abs())))
      ensures err == Some(DuplicateLoop) <==>
                Legal(info.types, old(ParentTypes(Abs()))) && info.stmt in old(loopMap)
      ensures err == Some(IllegalLevel) ==> Abs() == old(Abs())
      ensures err == Some(DuplicateLoop) ==>
                |nodes| == |old(nodes)| + 1 && currentLoop == Some(|old(nodes)|) && loopMap == old(loopMap)
      ensures err.Some? ==> err.value in {IllegalLevel, DuplicateLoop}
    {
      StepKeepsValid(Abs(), Start(info));
      AttachOk(nodes, currentLoop, |nodes|, info);
      var parentType := if currentLoop.Some? then nodes[currentLoop.value].info.types else [Regular];
      var legal := IsLegalLoopLevel(info.types, parentType);
      if !legal {
        return Some(IllegalLevel);
      }
      var isTop := IsTopLevelAttributed(info.types);
      var child := |nodes|;
      if currentLoop.Some? {
        var c := currentLoop.value;
        nodes := nodes[c := nodes[c].(children := nodes[c].children + [child])] + [Node(info, currentLoop, [])];
      } else {
        topLevelLoops := topLevelLoops + [child];
        nodes := nodes + [Node(info, currentLoop, [])];
      }
      if isTop && info.types[0] == Outer {
        topLevelOuterLoops := topLevelOuterLoops + [child];
      }
      currentLoop := Some(child);
      if info.stmt in loopMap {
        return Some(DuplicateLoop);
      }
      loopMap := loopMap[info.stmt := child];
      return None;
    }

    /** Gives the Auto axes of a loop their numbers; false when there are not enough axes. */
    method UpdateAutoWithSpecificAxis(id: nat) returns (ok: bool)
      requires Valid(Abs()) && id < |nodes| && Auto in nodes[id].info.axes
      modifies this`nodes
      ensures ok <==> old(HeightsFit(Subtree(nodes, id)))
      ensures ok ==> nodes == old(nodes[id := nodes[id].(info := SettledInfo(Subtree(nodes, id)))])
      ensures !ok ==> nodes == old(nodes)
    {
      var t := Subtree(nodes, id);
      var info := nodes[id].info;
      var axes := info.axes;
      if |info.types| == 2 {
        var height1 := GetHeightSameType(t, info.types[0]);
        var height2 := GetHeightSameType(t, info.types[1]);
        if info.types[0] == info.types[1] {
          height1 := height1 + 1;
        }
        assert AxisHeights(t) == [height1, height2];
        if height1 > MAX_AXIS_SZ || height2 > MAX_AXIS_SZ {
          assert AxisHeights(t)[0] == height1 && AxisHeights(t)[1] == height2;
          return false;
        }
        if axes[0] == Auto {
          axes := axes[0 := ToAxis(height1)];
        }
        if axes[1] == Auto {
          axes := axes[1 := ToAxis(height2)];
        }
      } else {
        var height := GetHeightSameType(t, info.types[0]);
        assert AxisHeights(t) == [height];
        if height > MAX_AXIS_SZ {
          assert AxisHeights(t)[0] == height;
          return false;
        }
        axes := [ToAxis(height)];
      }
      assert axes == Settle(info.axes, AxisHeights(t));
      nodes := nodes[id := nodes[id].(info := info.(axes := axes))];
      return true;
    }

    method MarkSharedUsed(id: nat)
      requires Valid(Abs()) && id < |nodes|
      modifies this`nodes
      ensures Valid(Abs()) && nodes == MarkUp(old(nodes), Some(id))
    {
      MarkUpShape(nodes, Some(id));
      MarkedElsewhere(nodes, id, 0, None);
      var curLoop: Option<nat> := nodes[id].parent;
      nodes := nodes[id := Marked(nodes[id])];
      while curLoop.Some?
        invariant NodesOk(nodes) && |nodes| == |old(nodes)| && (curLoop.Some? ==> curLoop.value < |nodes|)
        invariant MarkUp(nodes, curLoop) == MarkUp(old(nodes), Some(id))
        decreases if curLoop.Some? then curLoop.value + 1 else 0
      {
        MarkedElsewhere(nodes, curLoop.value, 0, None);
        var up := nodes[curLoop.value].parent;
        nodes := nodes[curLoop.value := Marked(nodes[curLoop.value])];
        curLoop := up;
      }
    }

    method StopParsingAttributedForLoop(stmt: nat) returns (err: Option<Error>)
      requires Valid(Abs())
      modifies this
      ensures Valid(Abs()) && (Abs(), err) == StopSpec(old(Abs()), stmt)
      ensures err.Some? ==> err == Some(TooManyNested) && stmt in loopMap && Abs() == old(Abs())
      ensures stmt !in loopMap ==> err.None? && Abs() == old(Abs())
    {
      StepKeepsValid(Abs(), Stop(stmt));
      if stmt !in loopMap {
        return None;
      }
      var id := loopMap[stmt];
      if Auto in nodes[id].info.axes {
        var ok := UpdateAutoWithSpecificAxis(id);
        if !ok {
          return Some(TooManyNested);
        }
      } else {
        assert nodes[id := nodes[id].(info := SettledInfo(Subtree(nodes, id)))] == nodes;
      }
      currentLoop := nodes[id].parent;
      return None;
    }
  }
}
