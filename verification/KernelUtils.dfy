/** Verification of the loop hierarchy of a kernel, level by level. */
module KernelUtils {
  import opened LoopLang
  import opened LoopTree

  /** A loop seen at one of its types; `@tile` loops are visited once per attributed type. */
  datatype TreeNode = TreeNode(loop: Loop, typeIdx: nat)

  datatype Verdict =
    | Accepted
    | TypeMismatch(stmt: nat, expected: LoopType, received: LoopType)
    | UnexpectedLoop(stmt: nat, kind: LoopType)
    | MissingLoop(stmt: nat, kind: LoopType)

  /** What attribute parsing produces: one type, or two of which the first is regular only if both are. */
  predicate TypesOk(types: seq<LoopType>) {
    && 1 <= |types| <= 2
    && (types[0] == Regular ==> IsRegular(types))
  }

  predicate WellTyped(t: Loop)
  {
    TypesOk(t.info.types) && forall k :: 0 <= k < |t.children| ==> WellTyped(t.children[k])
  }

  predicate AllWellTyped(ts: seq<Loop>) {
    forall k :: 0 <= k < |ts| ==> WellTyped(ts[k])
  }

  lemma {:induction false} FrontierWellTyped(ts: seq<Loop>)
    requires AllWellTyped(ts)
    ensures AllWellTyped(Frontier(ts))
    decreases ForestSize(ts)
  {
    if ts != [] {
      assert ForestSize(ts) == 1 + ForestSize(ts[0].children) + ForestSize(ts[1..]);
      assert WellTyped(ts[0]);
      FrontierWellTyped(ts[0].children);
      FrontierWellTyped(ts[1..]);
    }
  }

  // ----- paths -----

  /** The attributed types of a loop, in order. */
  function Erase(types: seq<LoopType>): seq<LoopType> {
    if types == [] then [] else (if types[0] == Regular then [] else [types[0]]) + Erase(types[1..])
  }

  /** `p` is what one root-to-leaf path of `t` reads, regular loops erased and tiles expanded. */
  ghost predicate IsPath(t: Loop, p: seq<LoopType>)
    decreases Size(t)
  {
    var own, kids := Erase(t.info.types), Frontier(t.children);
    && own <= p
    && if kids == [] then p == own
       else exists k :: 0 <= k < |kids| && (FrontierShrinks(t.children, kids[k]); IsPath(kids[k], p[|own|..]))
  }

  /** A path goes on through one of the nearest attributed descendants. */
  lemma {:induction false} PathChild(t: Loop, p: seq<LoopType>) returns (x: Loop, rest: seq<LoopType>)
    requires IsPath(t, p)
    ensures p == Erase(t.info.types) + rest
    ensures if Frontier(t.children) == [] then rest == []
            else x in Frontier(t.children) && Size(x) < Size(t) && IsPath(x, rest)
  {
    var own, kids := Erase(t.info.types), Frontier(t.children);
    rest, x := p[|own|..], t;
    if kids != [] {
      var k :| 0 <= k < |kids| && (FrontierShrinks(t.children, kids[k]); IsPath(kids[k], p[|own|..]));
      FrontierShrinks(t.children, kids[k]);
      x := kids[k];
    }
  }

  ghost predicate IsForestPath(ts: seq<Loop>, p: seq<LoopType>) {
    exists k :: 0 <= k < |ts| && IsPath(ts[k], p)
  }

  /** All root-to-leaf paths of the forest read the same. */
  ghost predicate OneSignature(ts: seq<Loop>) {
    forall p, q :: IsForestPath(ts, p) && IsForestPath(ts, q) ==> p == q
  }

  // ----- stepping from level to level -----

  function NextIdx(types: seq<LoopType>, i: nat): (r: int)
    requires i < |types|
    ensures r == -1 || (i < r < |types| && types[r] != Regular)
    decreases |types| - i
  {
    if i + 1 == |types| then -1 else if types[i + 1] != Regular then i + 1 else NextIdx(types, i + 1)
  }

  method GetNextAttributedTypeIdx(types: seq<LoopType>, currIdx: nat) returns (r: int)
    requires currIdx < |types|
    ensures r == NextIdx(types, currIdx)
  {
    var i: nat := currIdx + 1;
    while i < |types|
      invariant currIdx < i <= |types|
      invariant NextIdx(types, currIdx) == NextIdx(types, i - 1)
    {
      if types[i] != Regular {
        return i;
      }
      i := i + 1;
    }
    return -1;
  }

  predicate NodeOk(n: TreeNode) {
    WellTyped(n.loop) && n.typeIdx < |n.loop.info.types| && n.loop.info.types[n.typeIdx] != Regular
  }

  predicate QueueOk(q: seq<TreeNode>) {
    forall k :: 0 <= k < |q| ==> NodeOk(q[k])
  }

  function Nodes(ts: seq<Loop>): (r: seq<TreeNode>)
    ensures |r| == |ts| && forall k :: 0 <= k < |r| ==> r[k] == TreeNode(ts[k], 0)
  {
    seq(|ts|, k requires 0 <= k < |ts| => TreeNode(ts[k], 0))
  }

  function NextOf(n: TreeNode): (r: seq<TreeNode>)
    requires NodeOk(n)
    ensures QueueOk(r)
  {
    var nx := NextIdx(n.loop.info.types, n.typeIdx);
    if nx >= 0 then [TreeNode(n.loop, nx)]
    else
      FrontierWellTyped(n.loop.children);
      FrontierStartsAttributed(n.loop.children);
      Nodes(Frontier(n.loop.children))
  }

  lemma {:induction false} FrontierStartsAttributed(ts: seq<Loop>)
    requires AllWellTyped(Frontier(ts))
    ensures forall k :: 0 <= k < |Frontier(ts)| ==> NodeOk(TreeNode(Frontier(ts)[k], 0))
  {
    forall k | 0 <= k < |Frontier(ts)| ensures NodeOk(TreeNode(Frontier(ts)[k], 0)) {
      assert WellTyped(Frontier(ts)[k]) && Attributed(Frontier(ts)[k]);
    }
  }

  function TypeOf(n: TreeNode): LoopType
    requires NodeOk(n)
  {
    n.loop.info.types[n.typeIdx]
  }

  /** A path read one level at a time. */
  ghost predicate NodePath(n: TreeNode, p: seq<LoopType>)
    requires NodeOk(n)
    decreases |p|
  {
    && p != [] && p[0] == TypeOf(n)
    && if NextOf(n) == [] then |p| == 1
       else exists k :: 0 <= k < |NextOf(n)| && NodePath(NextOf(n)[k], p[1..])
  }

  ghost predicate QueuePath(q: seq<TreeNode>, p: seq<LoopType>)
    requires QueueOk(q)
  {
    exists k :: 0 <= k < |q| && NodePath(q[k], p)
  }

  ghost predicate OnePath(q: seq<TreeNode>)
    requires QueueOk(q)
  {
    forall p, p' :: QueuePath(q, p) && QueuePath(q, p') ==> p == p'
  }

  lemma {:induction false} EraseAt(types: seq<LoopType>, i: nat)
    requires i < |types| && types[i] != Regular
    ensures Erase(types[i..]) == [types[i]] + (if NextIdx(types, i) < 0 then [] else Erase(types[NextIdx(types, i)..]))
  {
    assert types[i..][1..] == types[i + 1..];
    EraseSkips(types, i);
  }

  lemma {:induction false} EraseSkips(types: seq<LoopType>, i: nat)
    requires i < |types|
    ensures Erase(types[i + 1..]) == if NextIdx(types, i) < 0 then [] else Erase(types[NextIdx(types, i)..])
    decreases |types| - i
  {
    if i + 1 < |types| && types[i + 1] == Regular {
      assert types[i + 1..][1..] == types[i + 2..];
      EraseSkips(types, i + 1);
    }
  }

  /** Reading level by level gives the paths of the erased forest. */
  lemma {:induction false} NodePathMeaning(n: TreeNode, p: seq<LoopType>)
    requires NodeOk(n)
    ensures var own, kids := Erase(n.loop.info.types[n.typeIdx..]), Frontier(n.loop.children);
            NodePath(n, p) <==> own <= p && if kids == [] then p == own else IsForestPath(kids, p[|own|..])
    decreases |p|
  {
    EraseAt(n.loop.info.types, n.typeIdx);
    if p != [] && p[0] == TypeOf(n) {
      var nx := NextIdx(n.loop.info.types, n.typeIdx);
      if nx >= 0 {
        NodePathMeaning(TreeNode(n.loop, nx), p[1..]);
        TiledNodePath(n, p);
      } else {
        var kids := Frontier(n.loop.children);
        forall k | 0 <= k < |kids| ensures NodePath(NextOf(n)[k], p[1..]) <==> IsPath(kids[k], p[1..]) {
          NodePathMeaning(NextOf(n)[k], p[1..]);
          assert kids[k].info.types[0..] == kids[k].info.types;
        }
        LastNodePath(n, p);
      }
    }
  }

  /** A node with another attributed type in its own loop goes on with that type. */
  lemma {:induction false} TiledNodePath(n: TreeNode, p: seq<LoopType>)
    requires NodeOk(n) && p != [] && p[0] == TypeOf(n) && NextIdx(n.loop.info.types, n.typeIdx) >= 0
    ensures var types, nx := n.loop.info.types, NextIdx(n.loop.info.types, n.typeIdx);
            && (NodePath(n, p) <==> NodePath(TreeNode(n.loop, nx), p[1..]))
            && var own, more := Erase(types[n.typeIdx..]), Erase(types[nx..]);
               (own <= p <==> more <= p[1..]) && (own <= p ==> p[|own|..] == p[1..][|more|..])
                 && (p == own <==> p[1..] == more)
  {
    var types, nx := n.loop.info.types, NextIdx(n.loop.info.types, n.typeIdx);
    EraseAt(types, n.typeIdx);
    assert NextOf(n) == [TreeNode(n.loop, nx)];
    assert NodePath(n, p) <==> NodePath(NextOf(n)[0], p[1..]);
    var own, more := Erase(types[n.typeIdx..]), Erase(types[nx..]);
    assert own == [TypeOf(n)] + more && p == [TypeOf(n)] + p[1..];
  }

  /** The last attributed type of a loop is followed by the paths of the loops below. */
  lemma {:induction false} LastNodePath(n: TreeNode, p: seq<LoopType>)
    requires NodeOk(n) && p != [] && p[0] == TypeOf(n) && NextIdx(n.loop.info.types, n.typeIdx) < 0
    requires forall k :: 0 <= k < |NextOf(n)| ==>
               (NodePath(NextOf(n)[k], p[1..]) <==> IsPath(Frontier(n.loop.children)[k], p[1..]))
    ensures NodePath(n, p) <==> if Frontier(n.loop.children) == [] then p == [TypeOf(n)]
              else IsForestPath(Frontier(n.loop.children), p[1..])
  {
    assert |NextOf(n)| == |Frontier(n.loop.children)|;
    assert p == [TypeOf(n)] + p[1..];
  }

  lemma {:induction false} LoopPathMeaning(ts: seq<Loop>)
    requires QueueOk(Nodes(ts))
    ensures OnePath(Nodes(ts)) <==> OneSignature(ts)
  {
    forall p, k | 0 <= k < |ts| ensures NodePath(Nodes(ts)[k], p) <==> IsPath(ts[k], p) {
      NodePathMeaning(Nodes(ts)[k], p);
      assert ts[k].info.types[0..] == ts[k].info.types;
    }
    forall p ensures QueuePath(Nodes(ts), p) <==> IsForestPath(ts, p) {
      if QueuePath(Nodes(ts), p) {
        var k :| 0 <= k < |ts| && NodePath(Nodes(ts)[k], p);
        assert IsPath(ts[k], p);
      }
      if IsForestPath(ts, p) {
        var k :| 0 <= k < |ts| && IsPath(ts[k], p);
        assert NodePath(Nodes(ts)[k], p);
      }
    }
  }

  // ----- the measure: what is left to visit -----

  function Weight(q: seq<TreeNode>): nat
    requires QueueOk(q)
  {
    if q == [] then 0 else (2 * Size(q[0].loop) - q[0].typeIdx) + Weight(q[1..])
  }

  lemma {:induction false} WeightConcat(a: seq<TreeNode>, b: seq<TreeNode>)
    requires QueueOk(a) && QueueOk(b)
    ensures QueueOk(a + b) && Weight(a + b) == Weight(a) + Weight(b)
  {
    if a == [] {
      assert a + b == b;
    } else {
      assert (a + b)[1..] == a[1..] + b;
      WeightConcat(a[1..], b);
    }
  }

  lemma {:induction false} FrontierLight(ts: seq<Loop>)
    ensures ForestSize(Frontier(ts)) <= ForestSize(ts)
    decreases ForestSize(ts)
  {
    if ts != [] {
      assert ForestSize(ts) == 1 + ForestSize(ts[0].children) + ForestSize(ts[1..]);
      FrontierLight(ts[0].children);
      FrontierLight(ts[1..]);
      var head := if Attributed(ts[0]) then [ts[0]] else Frontier(ts[0].children);
      ForestSizeConcat(head, Frontier(ts[1..]));
    }
  }

  lemma {:induction false} WeightOfNodes(ts: seq<Loop>)
    requires QueueOk(Nodes(ts))
    ensures Weight(Nodes(ts)) == 2 * ForestSize(ts)
  {
    if ts != [] {
      assert Nodes(ts)[1..] == Nodes(ts[1..]);
      WeightOfNodes(ts[1..]);
    }
  }

  lemma {:induction false} NextIsLighter(n: TreeNode)
    requires NodeOk(n)
    ensures Weight(NextOf(n)) < 2 * Size(n.loop) - n.typeIdx
  {
    if NextIdx(n.loop.info.types, n.typeIdx) < 0 {
      FrontierLight(n.loop.children);
      FrontierWellTyped(n.loop.children);
      FrontierStartsAttributed(n.loop.children);
      WeightOfNodes(Frontier(n.loop.children));
    } else {
      assert NextOf(n)[1..] == [];
    }
  }

  // ----- the algorithm -----

  lemma {:induction false} FrontierSnoc(ts: seq<Loop>, k: nat)
    requires k < |ts|
    ensures Frontier(ts[..k + 1])
            == Frontier(ts[..k]) + (if Attributed(ts[k]) then [ts[k]] else Frontier(ts[k].children))
  {
    assert ts[..k + 1] == ts[..k] + [ts[k]];
    FrontierConcat(ts[..k], [ts[k]]);
    assert Frontier([ts[k]])
           == (if Attributed(ts[k]) then [ts[k]] else Frontier(ts[k].children)) + Frontier([ts[k]][1..]);
  }

  lemma {:induction false} NodesConcat(q: seq<TreeNode>, a: seq<Loop>, b: seq<Loop>)
    ensures q + Nodes(a + b) == q + Nodes(a) + Nodes(b)
  {
  }

  /** Appends the attributed children of a loop, looking through regular loops. */
  method AddLoopChildrenToQueue(queue: seq<TreeNode>, loop: Loop) returns (q: seq<TreeNode>)
    ensures q == queue + Nodes(Frontier(loop.children))
    decreases Size(loop)
  {
    q := queue;
    for k := 0 to |loop.children|
      invariant q == queue + Nodes(Frontier(loop.children[..k]))
    {
      var child := loop.children[k];
      FrontierSnoc(loop.children, k);
      NodesConcat(queue, Frontier(loop.children[..k]), if Attributed(child) then [child] else Frontier(child.children));
      MemberShrinks(loop.children, k);
      if Attributed(child) {
        assert Nodes([child]) == [TreeNode(child, 0)];
        q := q + [TreeNode(child, 0)];
      } else {
        q := AddLoopChildrenToQueue(q, child);
      }
    }
    assert loop.children[..|loop.children|] == loop.children;
  }

  lemma {:induction false} MemberShrinks(ts: seq<Loop>, k: nat)
    requires k < |ts|
    ensures Size(ts[k]) <= ForestSize(ts)
  {
    if k > 0 { MemberShrinks(ts[1..], k - 1); }
  }

  lemma {:induction false} PathExists(n: TreeNode) returns (p: seq<LoopType>)
    requires NodeOk(n)
    ensures NodePath(n, p) && |p| >= 1 && (|p| == 1 <==> NextOf(n) == [])
    decreases 2 * Size(n.loop) - n.typeIdx
  {
    if NextOf(n) == [] {
      p := [TypeOf(n)];
    } else {
      NextIsLighter(n);
      var m := NextOf(n)[0];
      var rest := PathExists(m);
      p := [TypeOf(n)] + rest;
      assert p[1..] == rest;
      assert NodePath(NextOf(n)[0], p[1..]);
    }
  }

  /** Two nodes of one level that differ in type, or in being a leaf, have different paths. */
  lemma {:induction false} Differ(q: seq<TreeNode>, i: nat, j: nat)
    requires QueueOk(q) && i < |q| && j < |q|
    requires TypeOf(q[i]) != TypeOf(q[j]) || (NextOf(q[i]) == []) != (NextOf(q[j]) == [])
    ensures !OnePath(q)
  {
    var p := PathExists(q[i]);
    var p' := PathExists(q[j]);
    assert QueuePath(q, p) && QueuePath(q, p');
    assert p != p';
  }

  ghost predicate SameLevel(q: seq<TreeNode>, kind: LoopType, leaf: bool)
    requires QueueOk(q)
  {
    forall k :: 0 <= k < |q| ==> TypeOf(q[k]) == kind && (NextOf(q[k]) == [] <==> leaf)
  }

  function NextLevel(q: seq<TreeNode>): (r: seq<TreeNode>)
    requires QueueOk(q)
    ensures QueueOk(r)
  {
    if q == [] then [] else NextOf(q[0]) + NextLevel(q[1..])
  }

  lemma {:induction false} QueueSnoc(q: seq<TreeNode>, n: TreeNode)
    requires QueueOk(q) && NodeOk(n)
    ensures QueueOk(q + [n])
  {
  }

  lemma {:induction false} NextLevelCons(n: TreeNode, q: seq<TreeNode>)
    requires QueueOk(q) && NodeOk(n)
    ensures QueueOk([n] + q) && NextLevel([n] + q) == NextOf(n) + NextLevel(q)
  {
    assert ([n] + q)[1..] == q;
  }

  lemma {:induction false} NextLevelSnoc(q: seq<TreeNode>, n: TreeNode)
    requires QueueOk(q) && NodeOk(n)
    ensures QueueOk(q + [n]) && NextLevel(q + [n]) == NextLevel(q) + NextOf(n)
  {
    QueueSnoc(q, n);
    if q == [] {
      NextLevelCons(n, []);
      assert [] + [n] == [n] + [] && NextOf(n) + [] == [] + NextOf(n);
    } else {
      var first, rest := q[0], q[1..];
      SplitFirst(q, [n]);
      QueueSnoc(rest, n);
      NextLevelSnoc(rest, n);
      NextLevelCons(first, rest);
      NextLevelCons(first, rest + [n]);
      ConcatAssoc(NextOf(first), NextLevel(rest), NextOf(n));
    }
  }

  lemma {:induction false} QueuePathConcat(a: seq<TreeNode>, b: seq<TreeNode>, p: seq<LoopType>)
    requires QueueOk(a) && QueueOk(b)
    ensures QueueOk(a + b) && (QueuePath(a + b, p) <==> QueuePath(a, p) || QueuePath(b, p))
  {
    if QueuePath(a + b, p) {
      var k :| 0 <= k < |a + b| && NodePath((a + b)[k], p);
      if k >= |a| { assert NodePath(b[k - |a|], p); } else { assert NodePath(a[k], p); }
    }
    if k :| 0 <= k < |a| && NodePath(a[k], p) { assert NodePath((a + b)[k], p); }
    if k :| 0 <= k < |b| && NodePath(b[k], p) { assert NodePath((a + b)[|a| + k], p); }
  }

  /** `p` is read below some node of the level. */
  ghost predicate Below(q: seq<TreeNode>, p: seq<LoopType>)
    requires QueueOk(q)
  {
    exists i :: 0 <= i < |q| && QueuePath(NextOf(q[i]), p)
  }

  lemma {:induction false} NextLevelPath(q: seq<TreeNode>, p: seq<LoopType>)
    requires QueueOk(q)
    ensures QueuePath(NextLevel(q), p) <==> Below(q, p)
  {
    if q != [] {
      QueuePathConcat(NextOf(q[0]), NextLevel(q[1..]), p);
      NextLevelPath(q[1..], p);
      if i :| 0 <= i < |q| && QueuePath(NextOf(q[i]), p) {
        if i > 0 { assert QueuePath(NextOf(q[1..][i - 1]), p); }
      }
      if i :| 0 <= i < |q[1..]| && QueuePath(NextOf(q[1..][i]), p) { assert QueuePath(NextOf(q[i + 1]), p); }
    }
  }

  lemma {:induction false} PathStep(q: seq<TreeNode>, kind: LoopType, p: seq<LoopType>)
    requires QueueOk(q) && SameLevel(q, kind, false)
    ensures QueuePath(q, [kind] + p) <==> QueuePath(NextLevel(q), p)
  {
    NextLevelPath(q, p);
    forall i | 0 <= i < |q| ensures NodePath(q[i], [kind] + p) <==> QueuePath(NextOf(q[i]), p) {
      NodeStep(q[i], p);
    }
    if i :| 0 <= i < |q| && NodePath(q[i], [kind] + p) { assert QueuePath(NextOf(q[i]), p); }
    if i :| 0 <= i < |q| && QueuePath(NextOf(q[i]), p) { assert NodePath(q[i], [kind] + p); }
  }

  lemma {:induction false} NodeStep(n: TreeNode, p: seq<LoopType>)
    requires NodeOk(n) && NextOf(n) != []
    ensures NodePath(n, [TypeOf(n)] + p) <==> QueuePath(NextOf(n), p)
  {
    assert ([TypeOf(n)] + p)[1..] == p;
  }

  lemma {:induction false} PathHead(q: seq<TreeNode>, kind: LoopType, p: seq<LoopType>)
    requires QueueOk(q) && SameLevel(q, kind, false) && QueuePath(q, p)
    ensures p != [] && p == [kind] + p[1..] && QueuePath(NextLevel(q), p[1..])
  {
    assert p == [kind] + p[1..];
    PathStep(q, kind, p[1..]);
  }

  lemma {:induction false} SamePathBelow(q: seq<TreeNode>, kind: LoopType, p: seq<LoopType>, p': seq<LoopType>)
    requires QueueOk(q) && SameLevel(q, kind, false) && OnePath(q)
    requires QueuePath(NextLevel(q), p) && QueuePath(NextLevel(q), p')
    ensures p == p'
  {
    PathStep(q, kind, p);
    PathStep(q, kind, p');
    OnlyPath(q, [kind] + p, [kind] + p');
    SameTail(kind, p, p');
  }

  lemma {:induction false} OnlyPath(q: seq<TreeNode>, p: seq<LoopType>, p': seq<LoopType>)
    requires QueueOk(q) && OnePath(q) && QueuePath(q, p) && QueuePath(q, p')
    ensures p == p'
  {
  }

  lemma {:induction false} SameTail(kind: LoopType, p: seq<LoopType>, p': seq<LoopType>)
    ensures [kind] + p == [kind] + p' ==> p == p'
  {
    assert ([kind] + p)[1..] == p && ([kind] + p')[1..] == p';
  }

  lemma {:induction false} SamePathAbove(q: seq<TreeNode>, kind: LoopType, p: seq<LoopType>, p': seq<LoopType>)
    requires QueueOk(q) && SameLevel(q, kind, false) && OnePath(NextLevel(q))
    requires QueuePath(q, p) && QueuePath(q, p')
    ensures p == p'
  {
    PathHead(q, kind, p);
    PathHead(q, kind, p');
  }

  /** A uniform inner level has one path exactly when the next level has. */
  lemma {:induction false} LevelStep(q: seq<TreeNode>, kind: LoopType)
    requires QueueOk(q) && SameLevel(q, kind, false)
    ensures OnePath(q) <==> OnePath(NextLevel(q))
  {
    if OnePath(q) {
      forall p, p' | QueuePath(NextLevel(q), p) && QueuePath(NextLevel(q), p') ensures p == p' {
        SamePathBelow(q, kind, p, p');
      }
    }
    if OnePath(NextLevel(q)) {
      forall p, p' | QueuePath(q, p) && QueuePath(q, p') ensures p == p' {
        SamePathAbove(q, kind, p, p');
      }
    }
  }

  lemma {:induction false} LeafLevel(q: seq<TreeNode>, kind: LoopType)
    requires QueueOk(q) && SameLevel(q, kind, true)
    ensures OnePath(q)
  {
    forall p, p' | QueuePath(q, p) && QueuePath(q, p') ensures p == p' {
      assert p == [kind] == p';
    }
  }

  lemma {:induction false} NextOfNode(n: TreeNode)
    requires NodeOk(n)
    ensures var nx := NextIdx(n.loop.info.types, n.typeIdx);
            && (nx >= 0 ==> NextOf(n) == [TreeNode(n.loop, nx)])
            && (nx < 0 ==> NextOf(n) == Nodes(Frontier(n.loop.children)))
            && (NextOf(n) == [] <==> nx < 0 && Search(n.loop.children, Attributed).None?)
  {
    SearchOnFrontier(n.loop.children);
  }

  lemma {:induction false} LeafLevelEnds(q: seq<TreeNode>)
    requires QueueOk(q) && forall k :: 0 <= k < |q| ==> NextOf(q[k]) == []
    ensures NextLevel(q) == [] && OnePath(NextLevel(q))
  {
    if q != [] { LeafLevelEnds(q[1..]); }
  }

  lemma {:induction false} WeightSnoc(q: seq<TreeNode>, k: nat)
    requires QueueOk(q) && k < |q|
    ensures Weight(q[..k + 1]) == Weight(q[..k]) + 2 * Size(q[k].loop) - q[k].typeIdx
  {
    var n := q[k];
    assert q[..k + 1] == q[..k] + [n];
    WeightConcat(q[..k], [n]);
    assert [n][1..] == [];
    assert Weight([n]) == 2 * Size(n.loop) - n.typeIdx + Weight([]);
  }

  /** Visiting one more node of a level. */
  lemma {:induction false} NextLevelAndWeight(q: seq<TreeNode>, k: nat)
    requires QueueOk(q) && k < |q|
    ensures NextLevel(q[..k + 1]) == NextLevel(q[..k]) + NextOf(q[k])
    ensures Weight(q[..k]) - Weight(NextLevel(q[..k])) < Weight(q[..k + 1]) - Weight(NextLevel(q[..k + 1]))
  {
    assert q[..k + 1] == q[..k] + [q[k]];
    NextLevelSnoc(q[..k], q[k]);
    WeightSnoc(q, k);
    WeightConcat(NextLevel(q[..k]), NextOf(q[k]));
    NextIsLighter(q[k]);
  }

  ghost predicate LevelSoFar(q: seq<TreeNode>, k: nat, kind: LoopType, leaf: bool)
    requires QueueOk(q) && k <= |q|
  {
    forall j :: 0 <= j < k ==> TypeOf(q[j]) == kind && (NextOf(q[j]) == [] <==> leaf)
  }

  /** The successors of the first k nodes, which weigh less than those by k at least. */
  ghost predicate Lighter(q: seq<TreeNode>, k: nat, next: seq<TreeNode>)
    requires QueueOk(q) && k <= |q|
  {
    next == NextLevel(q[..k]) && Weight(next) + k <= Weight(q[..k])
  }

  lemma {:induction false} LighterStep(q: seq<TreeNode>, k: nat, next: seq<TreeNode>)
    requires QueueOk(q) && k < |q|
    requires exists sofar :: Lighter(q, k, sofar) && next == sofar + NextOf(q[k])
    ensures Lighter(q, k + 1, next)
  {
    NextLevelAndWeight(q, k);
  }

  lemma {:induction false} LevelGrows(q: seq<TreeNode>, k: nat, kind: LoopType, leaf: bool)
    requires QueueOk(q) && k < |q| && LevelSoFar(q, k, kind, leaf)
    requires TypeOf(q[k]) == kind && (NextOf(q[k]) == [] <==> leaf)
    ensures LevelSoFar(q, k + 1, kind, leaf)
  {
  }

  /** What the check blames below a leaf level is attributed: the tile's own second loop, or a first child that is
    * attributed itself. */
  predicate BlameIsAttributed(n: TreeNode)
    requires NodeOk(n)
  {
    NextIdx(n.loop.info.types, n.typeIdx) >= 0 || (n.loop.children != [] && Attributed(n.loop.children[0]))
  }

  // ----- which loop the error names -----

  /** The nodes d levels further on, in order. */
  function LevelAt(q: seq<TreeNode>, d: nat): (r: seq<TreeNode>)
    requires QueueOk(q)
    ensures QueueOk(r)
    decreases d
  {
    if d == 0 then q else LevelAt(NextLevel(q), d - 1)
  }

  /** Node j has the type of the first one of its level, and is a leaf if that one is. */
  predicate Agrees(level: seq<TreeNode>, j: nat)
    requires QueueOk(level) && j < |level|
  {
    TypeOf(level[j]) == TypeOf(level[0]) && (NextOf(level[j]) == [] <==> NextOf(level[0]) == [])
  }

  predicate AgreeUpTo(level: seq<TreeNode>, k: nat)
    requires QueueOk(level) && k <= |level|
  {
    forall j :: 0 <= j < k ==> Agrees(level, j)
  }

  /** What is said of node k: its type is another one, a loop inside is missing, or one inside is too many. */
  function Blame(level: seq<TreeNode>, k: nat): Verdict
    requires QueueOk(level) && k < |level|
  {
    var n := level[k];
    var info, nx := n.loop.info, NextIdx(n.loop.info.types, n.typeIdx);
    if TypeOf(n) != TypeOf(level[0]) then TypeMismatch(info.stmt, TypeOf(level[0]), TypeOf(n))
    else if NextOf(n) == [] then MissingLoop(info.stmt, TypeOf(n))
    else if nx >= 0 then UnexpectedLoop(info.stmt, info.types[nx])
    else
      SearchOnFrontier(n.loop.children);
      assert n.loop.children != [] && WellTyped(n.loop.children[0]);
      UnexpectedLoop(n.loop.children[0].info.stmt, n.loop.children[0].info.types[0])
  }

  /** Node k of level d is the first, level by level and left to right, that does not agree with its level. */
  ghost predicate FirstOff(q: seq<TreeNode>, d: nat, k: nat)
    requires QueueOk(q)
  {
    && (forall e: nat :: e < d ==> AgreeUpTo(LevelAt(q, e), |LevelAt(q, e)|))
    && k < |LevelAt(q, d)| && AgreeUpTo(LevelAt(q, d), k) && !Agrees(LevelAt(q, d), k)
  }

  ghost predicate Blamed(q: seq<TreeNode>, r: Verdict)
    requires QueueOk(q)
  {
    exists d: nat, k: nat :: FirstOff(q, d, k) && r == Blame(LevelAt(q, d), k)
  }

  lemma {:induction false} BlamedHere(q: seq<TreeNode>, k: nat)
    requires QueueOk(q) && k < |q| && AgreeUpTo(q, k) && !Agrees(q, k)
    ensures Blamed(q, Blame(q, k))
  {
    assert LevelAt(q, 0) == q;
    assert FirstOff(q, 0, k);
  }

  lemma {:induction false} BlamedBelow(q: seq<TreeNode>, r: Verdict)
    requires QueueOk(q) && AgreeUpTo(q, |q|) && Blamed(NextLevel(q), r)
    ensures Blamed(q, r)
  {
    var d: nat, k: nat :| FirstOff(NextLevel(q), d, k) && r == Blame(LevelAt(NextLevel(q), d), k);
    assert LevelAt(q, d + 1) == LevelAt(NextLevel(q), d);
    forall e: nat | e < d + 1 ensures AgreeUpTo(LevelAt(q, e), |LevelAt(q, e)|) {
      if e > 0 { assert LevelAt(q, e) == LevelAt(NextLevel(q), e - 1); }
    }
    assert FirstOff(q, d + 1, k);
  }

  /** Checks one node against its level and appends what it leads to. */
  method VisitNode(queue: seq<TreeNode>, k: nat, isLeafLevel: bool, queueSoFar: seq<TreeNode>)
    returns (r: Verdict, nextQueue: seq<TreeNode>)
    requires QueueOk(queue) && k < |queue| && (NextOf(queue[0]) == [] <==> isLeafLevel)
    ensures r.Accepted? <==> TypeOf(queue[k]) == TypeOf(queue[0]) && (NextOf(queue[k]) == [] <==> isLeafLevel)
    ensures r.Accepted? ==> nextQueue == queueSoFar + NextOf(queue[k])
    ensures !r.Accepted? ==> r == Blame(queue, k)
    ensures r.UnexpectedLoop? ==> (r.kind != Regular <==> BlameIsAttributed(queue[k]))
  {
    var node, levelType := queue[k], TypeOf(queue[0]);
    NextOfNode(node);
    nextQueue := queueSoFar;
    if TypeOf(node) != levelType {
      return TypeMismatch(node.loop.info.stmt, levelType, TypeOf(node)), nextQueue;
    }
    var child := GetFirstAttributedChild(node.loop, Attributed);
    var nextTiled := GetNextAttributedTypeIdx(node.loop.info.types, node.typeIdx);
    if isLeafLevel {
      if child.Some? || nextTiled != -1 {
        r := Unexpected(node, nextTiled);
        return;
      }
    } else if nextTiled != -1 {
      nextQueue := nextQueue + [TreeNode(node.loop, nextTiled)];
    } else if child.Some? {
      nextQueue := AddLoopChildrenToQueue(nextQueue, node.loop);
    } else {
      return MissingLoop(node.loop.info.stmt, TypeOf(node)), nextQueue;
    }
    return Accepted, nextQueue;
  }

  /** The level-by-level check. It accepts exactly when all paths read the same, and otherwise names the first node that
    * does not agree with its level. */
  method VerifyLoopStructureBFS(queue: seq<TreeNode>) returns (r: Verdict)
    requires QueueOk(queue)
    ensures r.Accepted? <==> OnePath(queue)
    ensures !r.Accepted? ==> Blamed(queue, r)
    decreases Weight(queue)
  {
    if queue == [] {
      return Accepted;
    }
    var nextQueue: seq<TreeNode> := [];
    var first := queue[0];
    var firstChild := GetFirstAttributedChild(first.loop, Attributed);
    var firstTiled := GetNextAttributedTypeIdx(first.loop.info.types, first.typeIdx);
    var isLeafLevel := firstChild.None? && firstTiled == -1;
    NextOfNode(first);
    ghost var kind := TypeOf(first);

    for k := 0 to |queue|
      invariant LevelSoFar(queue, k, kind, isLeafLevel) && Lighter(queue, k, nextQueue)
    {
      r, nextQueue := VisitNode(queue, k, isLeafLevel, nextQueue);
      if !r.Accepted? {
        Differ(queue, 0, k);
        BlamedHere(queue, k);
        return;
      }
      LevelGrows(queue, k, kind, isLeafLevel);
      LighterStep(queue, k, nextQueue);
    }
    assert queue[..|queue|] == queue;
    if isLeafLevel { LeafLevel(queue, kind); LeafLevelEnds(queue); } else { LevelStep(queue, kind); }
    r := VerifyLoopStructureBFS(nextQueue);
    if !r.Accepted? { BlamedBelow(queue, r); }
  }

  /** The loop blamed below a leaf level: the tile's own second loop, else the first child. */
  method Unexpected(node: TreeNode, nextTiled: int) returns (r: Verdict)
    requires NodeOk(node) && nextTiled == NextIdx(node.loop.info.types, node.typeIdx)
    requires nextTiled >= 0 || node.loop.children != []
    ensures r.UnexpectedLoop?
    ensures nextTiled >= 0 ==> r.stmt == node.loop.info.stmt && r.kind == node.loop.info.types[nextTiled] != Regular
    ensures nextTiled < 0 ==>
              r.stmt == node.loop.children[0].info.stmt && WellTyped(node.loop.children[0])
              && r.kind == node.loop.children[0].info.types[0]
    ensures r.kind != Regular <==> BlameIsAttributed(node)
  {
    if nextTiled >= 0 {
      return UnexpectedLoop(node.loop.info.stmt, node.loop.info.types[nextTiled]);
    }
    var front := node.loop.children[0];
    assert WellTyped(front);
    return UnexpectedLoop(front.info.stmt, front.info.types[0]);
  }

  /** The structure check of a kernel, started on its top-level outer loops. */
  method VerifyLoopStructure(topLevelOuterLoops: seq<Loop>) returns (r: Verdict)
    requires AllWellTyped(topLevelOuterLoops)
    requires forall k :: 0 <= k < |topLevelOuterLoops| ==> Attributed(topLevelOuterLoops[k])
    ensures r.Accepted? <==> OneSignature(topLevelOuterLoops)
    ensures QueueOk(Nodes(topLevelOuterLoops)) && (!r.Accepted? ==> Blamed(Nodes(topLevelOuterLoops), r))
  {
    var q := Nodes(topLevelOuterLoops);
    LoopPathMeaning(topLevelOuterLoops);
    r := VerifyLoopStructureBFS(q);
  }
}
