/** The tree of loops of a kernel and the queue searches over it. */
module LoopTree {
  import opened LoopLang
  import opened LoopHeader

  datatype Axis = X | Y | Z | Auto

  const MAX_AXIS_SZ: nat := 2

  /** What the semantic pass records of one loop.  `types` has one entry, or two for `@tile`. */
  datatype Info = Info(
    stmt: nat,
    types: seq<LoopType>,
    axes: seq<Axis>,
    head: Header,
    size: Expr,
    check: bool,
    rangeSize: nat,
    sharedUsed: bool,
    nobarrier: bool)

  datatype Loop = Loop(info: Info, children: seq<Loop>)

  predicate IsRegular(types: seq<LoopType>) {
    forall k :: 0 <= k < |types| ==> types[k] == Regular
  }

  predicate Attributed(t: Loop) {
    !IsRegular(t.info.types)
  }

  predicate Has(t: Loop, kind: LoopType) {
    kind in t.info.types
  }

  function Count(types: seq<LoopType>, kind: LoopType): nat {
    if types == [] then 0 else (if types[0] == kind then 1 else 0) + Count(types[1..], kind)
  }

  lemma {:induction false} CountConcat(a: seq<LoopType>, b: seq<LoopType>, kind: LoopType)
    ensures Count(a + b, kind) == Count(a, kind) + Count(b, kind)
  {
    if a == [] {
      assert a + b == b;
    } else {
      assert (a + b)[1..] == a[1..] + b;
      CountConcat(a[1..], b, kind);
    }
  }

  // ----- sizes -----

  function Size(t: Loop): nat {
    1 + ForestSize(t.children)
  }

  function ForestSize(ts: seq<Loop>): nat {
    if ts == [] then 0 else Size(ts[0]) + ForestSize(ts[1..])
  }

  lemma {:induction false} ForestSizeConcat(a: seq<Loop>, b: seq<Loop>)
    ensures ForestSize(a + b) == ForestSize(a) + ForestSize(b)
  {
    if a == [] {
      assert a + b == b;
    } else {
      assert (a + b)[1..] == a[1..] + b;
      ForestSizeConcat(a[1..], b);
    }
  }

  /** Replacing the front of a queue by its children drops one loop. */
  lemma {:induction false} PopShrinks(queue: seq<Loop>)
    requires queue != []
    ensures ForestSize(queue[1..] + queue[0].children) + 1 == ForestSize(queue)
  {
    ForestSizeConcat(queue[1..], queue[0].children);
    assert Size(queue[0]) == 1 + ForestSize(queue[0].children);
  }

  // ----- getFirstAttributedChild -----

  /** The queue search: take the front, or else append its children. */
  function Search(queue: seq<Loop>, f: Loop -> bool): Option<Loop>
    decreases ForestSize(queue)
  {
    if queue == [] then None
    else if f(queue[0]) then Some(queue[0])
    else (PopShrinks(queue); Search(queue[1..] + queue[0].children, f))
  }

  method GetFirstAttributedChild(t: Loop, f: Loop -> bool) returns (r: Option<Loop>)
    ensures r == Search(t.children, f)
  {
    var elements := t.children;
    while elements != []
      invariant Search(t.children, f) == Search(elements, f)
      decreases ForestSize(elements)
    {
      var el := elements[0];
      PopShrinks(elements);
      elements := elements[1..];
      if f(el) {
        return Some(el);
      }
      elements := elements + el.children;
    }
    return None;
  }

  function AllChildren(ts: seq<Loop>): seq<Loop> {
    if ts == [] then [] else ts[0].children + AllChildren(ts[1..])
  }

  /** The descendants `d` levels down, left to right. */
  function Level(ts: seq<Loop>, d: nat): seq<Loop>
    decreases d
  {
    if d == 0 then ts else Level(AllChildren(ts), d - 1)
  }

  /** Position `k` of level `d` satisfies `f`, and nothing above it or to its left does. */
  ghost predicate FirstAt(ts: seq<Loop>, f: Loop -> bool, d: nat, k: nat) {
    && k < |Level(ts, d)| && f(Level(ts, d)[k])
    && (forall j :: 0 <= j < k ==> !f(Level(ts, d)[j]))
    && (forall e: nat, j: nat :: e < d && j < |Level(ts, e)| ==> !f(Level(ts, e)[j]))
  }

  /** The search finds the left-most match of least depth, and nothing only when there is none. */
  lemma {:induction false} SearchFindsFirst(ts: seq<Loop>, f: Loop -> bool)
    ensures match Search(ts, f)
            case None => forall d: nat, j: nat :: j < |Level(ts, d)| ==> !f(Level(ts, d)[j])
            case Some(x) => exists d: nat, k: nat :: FirstAt(ts, f, d, k) && Level(ts, d)[k] == x
  {
    assert QueueAt(ts, 0) == ts;
    SearchFrom(ts, f, 0, 0);
  }

  lemma {:induction false} AllChildrenConcat(a: seq<Loop>, b: seq<Loop>)
    ensures AllChildren(a + b) == AllChildren(a) + AllChildren(b)
  {
    if a == [] {
      assert a + b == b;
    } else {
      assert (a + b)[1..] == a[1..] + b;
      AllChildrenConcat(a[1..], b);
    }
  }

  lemma {:induction false} NextLevel(ts: seq<Loop>, d: nat)
    ensures Level(ts, d + 1) == AllChildren(Level(ts, d))
    decreases d
  {
    if d > 0 { NextLevel(AllChildren(ts), d - 1); }
  }

  lemma {:induction false} EmptyBelow(ts: seq<Loop>, d: nat, e: nat)
    requires Level(ts, d) == [] && d <= e
    ensures Level(ts, e) == []
    decreases e
  {
    if d < e {
      EmptyBelow(ts, d, e - 1);
      NextLevel(ts, e - 1);
    }
  }

  /** The queue is always the rest of one level followed by the children of what was taken from it. */
  lemma {:induction false} SearchFrom(ts: seq<Loop>, f: Loop -> bool, d: nat, k: nat)
    requires k <= |Level(ts, d)| && NoneBefore(ts, f, d, k)
    ensures FoundFirst(ts, f, Search(QueueAt(Level(ts, d), k), f))
    decreases ForestSize(QueueAt(Level(ts, d), k)), if k == |Level(ts, d)| then 1 else 0
  {
    var level := Level(ts, d);
    var queue := QueueAt(level, k);
    if k == |level| {
      LevelDone(ts, f, d);
      if queue == [] { NothingBelow(ts, f, d); } else { SearchFrom(ts, f, d + 1, 0); }
    } else if f(level[k]) {
      QueueStep(level, k);
      assert FirstAt(ts, f, d, k);
      HitIsFirst(ts, f, d, k);
    } else {
      QueueStep(level, k);
      PopShrinks(queue);
      OneMoreMiss(ts, f, d, k);
      SearchFrom(ts, f, d, k + 1);
    }
  }

  /** Behind a whole level without a match the queue is the next level. */
  lemma {:induction false} LevelDone(ts: seq<Loop>, f: Loop -> bool, d: nat)
    requires NoneBefore(ts, f, d, |Level(ts, d)|)
    ensures QueueAt(Level(ts, d), |Level(ts, d)|) == Level(ts, d + 1) == QueueAt(Level(ts, d + 1), 0)
    ensures NoneBefore(ts, f, d + 1, 0)
  {
    NextLevel(ts, d);
    assert Level(ts, d)[..|Level(ts, d)|] == Level(ts, d);
  }

  lemma {:induction false} HitIsFirst(ts: seq<Loop>, f: Loop -> bool, d: nat, k: nat)
    requires FirstAt(ts, f, d, k)
    ensures FoundFirst(ts, f, Some(Level(ts, d)[k]))
  {
  }

  lemma {:induction false} OneMoreMiss(ts: seq<Loop>, f: Loop -> bool, d: nat, k: nat)
    requires k < |Level(ts, d)| && NoneBefore(ts, f, d, k) && !f(Level(ts, d)[k])
    ensures NoneBefore(ts, f, d, k + 1)
  {
  }

  /** The queue when k loops of a level have been taken. */
  function QueueAt(level: seq<Loop>, k: nat): seq<Loop>
    requires k <= |level|
  {
    level[k..] + AllChildren(level[..k])
  }

  /** No match on the levels above, nor to the left of position k of level d. */
  ghost predicate NoneBefore(ts: seq<Loop>, f: Loop -> bool, d: nat, k: nat) {
    (forall j :: 0 <= j < k && j < |Level(ts, d)| ==> !f(Level(ts, d)[j]))
    && forall e: nat, j: nat :: e < d && j < |Level(ts, e)| ==> !f(Level(ts, e)[j])
  }

  ghost predicate FoundFirst(ts: seq<Loop>, f: Loop -> bool, r: Option<Loop>) {
    match r
    case None => forall e: nat, j: nat :: j < |Level(ts, e)| ==> !f(Level(ts, e)[j])
    case Some(x) => exists e: nat, j: nat :: FirstAt(ts, f, e, j) && Level(ts, e)[j] == x
  }

  lemma {:induction false} QueueStep(level: seq<Loop>, k: nat)
    requires k < |level|
    ensures var queue := QueueAt(level, k);
            queue != [] && queue[0] == level[k] && queue[1..] + queue[0].children == QueueAt(level, k + 1)
  {
    TakenConcat(level, k);
    var queue, taken := QueueAt(level, k), AllChildren(level[..k]);
    assert level[k..] == [level[k]] + level[k + 1..];
    assert queue == [level[k]] + (level[k + 1..] + taken);
    assert queue[1..] == level[k + 1..] + taken;
    ConcatAssoc(level[k + 1..], taken, level[k].children);
  }

  lemma {:induction false} TakenConcat(level: seq<Loop>, k: nat)
    requires k < |level|
    ensures AllChildren(level[..k + 1]) == AllChildren(level[..k]) + level[k].children
  {
    assert level[..k + 1] == level[..k] + [level[k]];
    AllChildrenConcat(level[..k], [level[k]]);
    assert AllChildren([level[k]]) == level[k].children + AllChildren([level[k]][1..]);
    assert level[k].children + [] == level[k].children;
  }

  lemma {:induction false} NothingBelow(ts: seq<Loop>, f: Loop -> bool, d: nat)
    requires Level(ts, d + 1) == []
    requires forall e: nat, j: nat :: e <= d && j < |Level(ts, e)| ==> !f(Level(ts, e)[j])
    ensures forall e: nat, j: nat :: j < |Level(ts, e)| ==> !f(Level(ts, e)[j])
  {
    forall e: nat, j: nat | j < |Level(ts, e)| ensures !f(Level(ts, e)[j]) {
      if e > d { EmptyBelow(ts, d + 1, e); }
    }
  }

  // ----- attributed children, heights -----

  function FirstAttributed(t: Loop): Option<Loop> {
    Search(t.children, Attributed)
  }

  /** The attributed loops reached through regular loops only, left to right. */
  function Frontier(ts: seq<Loop>): (r: seq<Loop>)
    ensures forall x :: x in r ==> Attributed(x)
    decreases ForestSize(ts)
  {
    if ts == [] then []
    else
      assert ForestSize(ts) == 1 + ForestSize(ts[0].children) + ForestSize(ts[1..]);
      (if Attributed(ts[0]) then [ts[0]] else Frontier(ts[0].children)) + Frontier(ts[1..])
  }

  lemma {:induction false} FrontierCons(t: Loop, ts: seq<Loop>)
    ensures Frontier([t] + ts) == (if Attributed(t) then [t] else Frontier(t.children)) + Frontier(ts)
  {
    assert ([t] + ts)[1..] == ts;
  }

  lemma {:induction false} SplitFirst<T>(a: seq<T>, b: seq<T>)
    requires a != []
    ensures a == [a[0]] + a[1..] && a + b == [a[0]] + (a[1..] + b)
  {
  }

  lemma {:induction false} ConcatAssoc<T>(a: seq<T>, b: seq<T>, c: seq<T>)
    ensures a + (b + c) == (a + b) + c
  {
  }

  lemma {:induction false} FrontierConcat(a: seq<Loop>, b: seq<Loop>)
    ensures Frontier(a + b) == Frontier(a) + Frontier(b)
  {
    if a == [] {
      assert a + b == b;
    } else {
      var own := if Attributed(a[0]) then [a[0]] else Frontier(a[0].children);
      SplitFirst(a, b);
      FrontierConcat(a[1..], b);
      FrontierCons(a[0], a[1..]);
      FrontierCons(a[0], a[1..] + b);
      ConcatAssoc(own, Frontier(a[1..]), Frontier(b));
    }
  }

  lemma {:induction false} FrontierAt(ts: seq<Loop>, i: nat)
    requires i < |ts|
    ensures if Attributed(ts[i]) then ts[i] in Frontier(ts)
            else forall x :: x in Frontier(ts[i].children) ==> x in Frontier(ts)
  {
    if i > 0 { FrontierAt(ts[1..], i - 1); }
  }

  /** The first attributed descendant lies on the frontier, and is missing only if that is empty. */
  lemma {:induction false} SearchOnFrontier(queue: seq<Loop>)
    ensures Search(queue, Attributed).None? <==> Frontier(queue) == []
    ensures Search(queue, Attributed).Some? ==> Search(queue, Attributed).value in Frontier(queue)
    decreases ForestSize(queue)
  {
    if queue != [] && !Attributed(queue[0]) {
      PopShrinks(queue);
      FrontierConcat(queue[1..], queue[0].children);
      SearchOnFrontier(queue[1..] + queue[0].children);
    }
  }

  lemma {:induction false} SearchShrinks(queue: seq<Loop>, f: Loop -> bool)
    ensures Search(queue, f).Some? ==> Size(Search(queue, f).value) <= ForestSize(queue)
    decreases ForestSize(queue)
  {
    if queue != [] && !f(queue[0]) {
      PopShrinks(queue);
      SearchShrinks(queue[1..] + queue[0].children, f);
    }
  }

  lemma {:induction false} FrontierShrinks(ts: seq<Loop>, x: Loop)
    requires x in Frontier(ts)
    ensures Size(x) <= ForestSize(ts)
    decreases ForestSize(ts)
  {
    assert ForestSize(ts) == 1 + ForestSize(ts[0].children) + ForestSize(ts[1..]);
    if Attributed(ts[0]) && x == ts[0] {
    } else if !Attributed(ts[0]) && x in Frontier(ts[0].children) {
      FrontierShrinks(ts[0].children, x);
    } else {
      FrontierShrinks(ts[1..], x);
    }
  }

  /** Number of levels of the given type along the chain of first attributed descendants. */
  function HeightSameType(t: Loop, kind: LoopType): nat
    decreases Size(t)
  {
    match FirstAttributed(t)
    case None => 0
    case Some(x) => SearchShrinks(t.children, Attributed); Count(x.info.types, kind) + HeightSameType(x, kind)
  }

  method GetHeightSameType(t: Loop, kind: LoopType) returns (h: nat)
    ensures h == HeightSameType(t, kind)
  {
    var currLoop := Some(t);
    h := 0;
    while currLoop.Some? && currLoop.value.children != []
      invariant h + (if currLoop.Some? then HeightSameType(currLoop.value, kind) else 0) == HeightSameType(t, kind)
      decreases if currLoop.Some? then Size(currLoop.value) else 0
    {
      SearchShrinks(currLoop.value.children, Attributed);
      currLoop := GetFirstAttributedChild(currLoop.value, Attributed);
      if currLoop.Some? {
        var n := GetCount(currLoop.value.info.types, kind);
        h := h + n;
      }
    }
    if currLoop.Some? { assert HeightSameType(currLoop.value, kind) == 0; }
  }

  method GetCount(types: seq<LoopType>, kind: LoopType) returns (n: nat)
    ensures n == Count(types, kind)
  {
    n := 0;
    for k := 0 to |types|
      invariant n + Count(types[k..], kind) == Count(types, kind)
    {
      if types[k] == kind {
        n := n + 1;
      }
      assert types[k..][1..] == types[k + 1..];
    }
  }

  // ----- axes -----

  /** The axis numbers updateAutoWithSpecificAxis computes for a loop whose children are complete. */
  function AxisHeights(t: Loop): seq<nat> {
    var types := t.info.types;
    if |types| == 2
    then [HeightSameType(t, types[0]) + (if types[0] == types[1] then 1 else 0), HeightSameType(t, types[1])]
    else if |types| == 1 then [HeightSameType(t, types[0])]
    else []
  }

  function ToAxis(n: nat): Axis
    requires n <= MAX_AXIS_SZ
  {
    if n == 0 then X else if n == 1 then Y else Z
  }

  function AxisNumber(a: Axis): nat
    requires a != Auto
  {
    match a
    case X => 0
    case Y => 1
    case Z => 2
  }

  predicate HeightsFit(t: Loop) {
    forall k :: 0 <= k < |AxisHeights(t)| ==> AxisHeights(t)[k] <= MAX_AXIS_SZ
  }
}
