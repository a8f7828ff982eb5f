/** Which loop may stand inside which, and what the kernel checks together guarantee. */
module LoopLegality {
  import opened LoopLang
  import opened LoopTree
  import opened KernelUtils
  import opened Axes

  // ----- one loop -----

  /** No `@inner` before an `@outer`. */
  predicate Nested(s: seq<LoopType>) {
    forall i, j :: 0 <= i < j < |s| ==> !(s[i] == Inner && s[j] == Outer)
  }

  function FirstType(types: seq<LoopType>): LoopType {
    if Erase(types) == [] then Regular else Erase(types)[0]
  }

  function LastType(types: seq<LoopType>): LoopType {
    if Erase(types) == [] then Regular else Erase(types)[|Erase(types)| - 1]
  }

  /** Whether the types of one loop are in order, with its first and last attributed type. */
  method IsLegalTypes(types: seq<LoopType>) returns (ok: bool, firstType: LoopType, lastType: LoopType)
    ensures ok <==> Nested(types)
    ensures ok ==> firstType == FirstType(types) && lastType == LastType(types)
  {
    lastType, firstType := Regular, Regular;
    for k := 0 to |types|
      invariant Nested(types[..k])
      invariant firstType == FirstType(types[..k]) && lastType == LastType(types[..k])
      invariant lastType == Inner <==> Inner in types[..k]
    {
      var loopType := types[k];
      assert types[..k + 1] == types[..k] + [loopType];
      EraseSnoc(types[..k], loopType);
      if loopType != Regular && firstType == Regular {
        ErasedIsAttributed(types[..k]);
        firstType := loopType;
      }
      if loopType == Inner {
        lastType := Inner;
      } else if loopType == Outer {
        if lastType == Inner {
          return false, firstType, lastType;
        }
        lastType := Outer;
      }
    }
    assert types[..|types|] == types;
    ok := true;
  }

  lemma {:induction false} EraseSnoc(s: seq<LoopType>, x: LoopType)
    ensures Erase(s + [x]) == Erase(s) + (if x == Regular then [] else [x])
  {
    if s == [] {
      assert [] + [x] == [x] && [x][1..] == [];
    } else {
      assert (s + [x])[1..] == s[1..] + [x];
      EraseSnoc(s[1..], x);
    }
  }

  // ----- child in parent -----

  predicate Legal(child: seq<LoopType>, parent: seq<LoopType>) {
    Nested(child) && Nested(parent) && !(LastType(parent) == Inner && FirstType(child) == Outer)
  }

  method IsLegalLoopLevel(childTypes: seq<LoopType>, parentTypes: seq<LoopType>) returns (ok: bool)
    ensures ok <==> Legal(childTypes, parentTypes)
  {
    var okP, firstParent, lastParent := IsLegalTypes(parentTypes);
    if !okP {
      return false;
    }
    var okC, firstChild, lastChild := IsLegalTypes(childTypes);
    if !okC {
      return false;
    }
    if lastParent == firstChild {
      return true;
    }
    if firstChild == Regular || lastParent == Regular {
      return true;
    }
    return lastParent == Outer && firstChild == Inner;
  }

  /** Every loop is legal inside its direct parent: what parsing a kernel without error means. */
  predicate DirectlyLegal(t: Loop, parent: seq<LoopType>) {
    Legal(t.info.types, parent) && forall k :: 0 <= k < |t.children| ==> DirectlyLegal(t.children[k], t.info.types)
  }

  /** Every attributed loop is legal inside its nearest attributed ancestor. */
  predicate AttributedLegal(t: Loop)
    decreases Size(t)
  {
    && Nested(t.info.types)
    && forall k :: 0 <= k < |Frontier(t.children)| ==>
         (FrontierShrinks(t.children, Frontier(t.children)[k]);
          Legal(Frontier(t.children)[k].info.types, t.info.types) && AttributedLegal(Frontier(t.children)[k]))
  }

  // ----- legality and the order of types on paths -----

  lemma {:induction false} EraseNested(types: seq<LoopType>)
    requires TypesOk(types)
    ensures Nested(Erase(types)) <==> Nested(types)
  {
    assert types[1..] == if |types| == 2 then [types[1]] else [];
    assert Erase(types[1..]) == if |types| == 2 && types[1] != Regular then [types[1]] else [];
    if |types| == 2 && types[0] != Regular && types[1] != Regular {
      assert Erase(types) == types;
    } else {
      assert |Erase(types)| <= 1;
    }
  }

  lemma {:induction false} NestedConcat(a: seq<LoopType>, b: seq<LoopType>)
    requires a != [] && b != [] && Regular !in a && Regular !in b
    ensures Nested(a + b) <==> Nested(a) && Nested(b) && !(a[|a| - 1] == Inner && b[0] == Outer)
  {
    var s := a + b;
    if Nested(s) {
      forall i, j | 0 <= i < j < |a| ensures !(a[i] == Inner && a[j] == Outer) { assert s[i] == a[i] && s[j] == a[j]; }
      forall i, j | 0 <= i < j < |b|
        ensures !(b[i] == Inner && b[j] == Outer) { assert s[|a| + i] == b[i] && s[|a| + j] == b[j]; }
      assert s[|a| - 1] == a[|a| - 1] && s[|a|] == b[0];
    }
    if Nested(a) && Nested(b) && !(a[|a| - 1] == Inner && b[0] == Outer) {
      forall i, j | 0 <= i < j < |s| ensures !(s[i] == Inner && s[j] == Outer) {
        if i < |a| <= j {
          assert a[i] in a && b[0] in b && a[|a| - 1] in a;
          assert i == |a| - 1 || !(a[i] == Inner && a[|a| - 1] == Outer);
          assert j == |a| || !(b[0] == Inner && b[j - |a|] == Outer);
        }
      }
    }
  }

  lemma {:induction false} OwnNotEmpty(t: Loop)
    requires WellTyped(t) && Attributed(t)
    ensures Erase(t.info.types) != [] && FirstType(t.info.types) == Erase(t.info.types)[0] == t.info.types[0]
  {
  }

  /** A path of an attributed loop starts with the types of that loop. */
  lemma {:induction false} PathStart(t: Loop, p: seq<LoopType>)
    requires WellTyped(t) && Attributed(t) && IsPath(t, p)
    ensures p != [] && p[0] == t.info.types[0] && Regular !in p
  {
    OwnNotEmpty(t);
    PathsHaveNoRegular(t, p);
  }

  /** With one path, that path is in order exactly when every attributed loop is legal inside its
    * nearest attributed ancestor. */
  lemma {:induction false} OrderIsAttributedLegality(t: Loop, p: seq<LoopType>)
    requires WellTyped(t) && Attributed(t) && OnePathOf(t) && IsPath(t, p)
    ensures Nested(p) <==> AttributedLegal(t)
    decreases Size(t)
  {
    var own, kids := Erase(t.info.types), Frontier(t.children);
    OwnNotEmpty(t);
    EraseNested(t.info.types);
    ErasedIsAttributed(t.info.types);
    FrontierWellTyped(t.children);
    forall k | 0 <= k < |kids|
      ensures Nested(p) <==> Nested(own) && Legal(kids[k].info.types, t.info.types) && AttributedLegal(kids[k])
    {
      var x := kids[k];
      var q := AnyPath(x);
      ChildPath(t, p, x, q);
      ChildOnePath(t, x);
      FrontierShrinks(t.children, x);
      OrderIsAttributedLegality(x, q);
      PathStart(x, q);
      OwnNotEmpty(x);
      NestedConcat(own, q);
    }
  }

  // ----- verifyLoops -----

  datatype LoopsVerdict =
    | LoopsOk
    | InnerOutsideOuter
    | NoOuter
    | NoInner
    | SomeInnerMissing
    | BadStructure(why: Verdict)

  predicate HasInner(t: Loop) { Has(t, Inner) }
  predicate HasOuter(t: Loop) { Has(t, Outer) }

  /** The loop is `@tile(T, @outer, @inner)` or has a descendant with an `@inner` type. */
  predicate InnerPresent(t: Loop) {
    t.info.types == [Outer, Inner] || Search(t.children, HasInner).Some?
  }

  /** No loop of the forest has the type. */
  predicate Nowhere(ts: seq<Loop>, kind: LoopType)
    decreases ForestSize(ts)
  {
    ts == []
    || (assert ForestSize(ts) == 1 + ForestSize(ts[0].children) + ForestSize(ts[1..]);
        kind !in ts[0].info.types && Nowhere(ts[0].children, kind) && Nowhere(ts[1..], kind))
  }

  lemma {:induction false} NowhereConcat(a: seq<Loop>, b: seq<Loop>, kind: LoopType)
    ensures Nowhere(a + b, kind) <==> Nowhere(a, kind) && Nowhere(b, kind)
    decreases |a|
  {
    if a == [] {
      assert a + b == b;
    } else {
      assert (a + b)[1..] == a[1..] + b;
      NowhereConcat(a[1..], b, kind);
    }
  }

  /** The search for a type fails exactly if it is nowhere. */
  lemma {:induction false} SearchMeans(queue: seq<Loop>, f: Loop -> bool, kind: LoopType)
    requires forall x :: f(x) <==> kind in x.info.types
    ensures Search(queue, f).None? <==> Nowhere(queue, kind)
    decreases ForestSize(queue)
  {
    if queue != [] && !f(queue[0]) {
      PopShrinks(queue);
      NowhereConcat(queue[1..], queue[0].children, kind);
      SearchMeans(queue[1..] + queue[0].children, f, kind);
    }
  }

  lemma {:induction false} OuterSearch(t: Loop)
    ensures Search(t.children, HasOuter).Some? <==> !Nowhere(t.children, Outer)
  {
    SearchMeans(t.children, HasOuter, Outer);
  }

  /** Without a top-level outer loop: whether there is one further in. */
  method NoTopOuter(topLevelLoops: seq<Loop>) returns (r: LoopsVerdict)
    ensures r == if exists k :: 0 <= k < |topLevelLoops| && !Nowhere(topLevelLoops[k].children, Outer)
                 then InnerOutsideOuter else NoOuter
  {
    for k := 0 to |topLevelLoops|
      invariant forall j :: 0 <= j < k ==> Nowhere(topLevelLoops[j].children, Outer)
    {
      var found := GetFirstAttributedChild(topLevelLoops[k], HasOuter);
      OuterSearch(topLevelLoops[k]);
      if found.Some? {
        return InnerOutsideOuter;
      }
    }
    return NoOuter;
  }

  /** How many of the outer loops have no inner one; all that matters is whether it is none or all. */
  method CountMissingInner(topOuterLoops: seq<Loop>) returns (nMissingInner: nat)
    ensures nMissingInner == 0 <==> forall k :: 0 <= k < |topOuterLoops| ==> InnerPresent(topOuterLoops[k])
    ensures nMissingInner == |topOuterLoops| <==>
            forall k :: 0 <= k < |topOuterLoops| ==> !InnerPresent(topOuterLoops[k])
  {
    nMissingInner := 0;
    for k := 0 to |topOuterLoops|
      invariant nMissingInner <= k
      invariant nMissingInner == 0 <==> forall j :: 0 <= j < k ==> InnerPresent(topOuterLoops[j])
      invariant nMissingInner == k <==> forall j :: 0 <= j < k ==> !InnerPresent(topOuterLoops[j])
    {
      var loop := topOuterLoops[k];
      if loop.info.types != [Outer, Inner] {
        var found := GetFirstAttributedChild(loop, HasInner);
        if found.None? {
          nMissingInner := nMissingInner + 1;
        }
      }
    }
  }

  method VerifyLoops(topOuterLoops: seq<Loop>, topLevelLoops: seq<Loop>) returns (r: LoopsVerdict)
    requires AllWellTyped(topOuterLoops)
    requires forall k :: 0 <= k < |topOuterLoops| ==> Attributed(topOuterLoops[k])
    ensures r.LoopsOk? <==>
              topOuterLoops != [] && OneSignature(topOuterLoops)
              && forall k :: 0 <= k < |topOuterLoops| ==> InnerPresent(topOuterLoops[k])
    ensures r.NoInner? <==>
              topOuterLoops != []
              && forall k :: 0 <= k < |topOuterLoops| ==> !InnerPresent(topOuterLoops[k])
    ensures r.SomeInnerMissing? <==>
              (exists k :: 0 <= k < |topOuterLoops| && InnerPresent(topOuterLoops[k]))
              && exists k :: 0 <= k < |topOuterLoops| && !InnerPresent(topOuterLoops[k])
    ensures r.BadStructure? ==> QueueOk(Nodes(topOuterLoops)) && Blamed(Nodes(topOuterLoops), r.why)
    ensures r.InnerOutsideOuter? || r.NoOuter? <==> topOuterLoops == []
    ensures r.InnerOutsideOuter? <==>
              topOuterLoops == []
              && exists k :: 0 <= k < |topLevelLoops| && !Nowhere(topLevelLoops[k].children, Outer)
  {
    if topOuterLoops == [] {
      r := NoTopOuter(topLevelLoops);
      return;
    }
    var nMissingInner := CountMissingInner(topOuterLoops);
    if nMissingInner > 0 {
      if nMissingInner == |topOuterLoops| {
        return NoInner;
      }
      return SomeInnerMissing;
    }
    var structureOk := VerifyLoopStructure(topOuterLoops);
    assert InnerPresent(topOuterLoops[0]);
    if !structureOk.Accepted? {
      return BadStructure(structureOk);
    }
    return LoopsOk;
  }

  /** An `@inner` type below a loop shows up on one of its paths. */
  lemma {:induction false} InnerOnPath(ts: seq<Loop>)
    requires AllWellTyped(ts) && Search(ts, HasInner).Some?
    ensures InnerPathIn(Frontier(ts))
    decreases ForestSize(ts)
  {
    SearchFindsFirst(ts, HasInner);
    var d: nat, j: nat :| FirstAt(ts, HasInner, d, j);
    InnerAtLevel(ts, d, j);
  }

  lemma {:induction false} InnerAtLevel(ts: seq<Loop>, d: nat, j: nat)
    requires AllWellTyped(ts) && j < |Level(ts, d)| && HasInner(Level(ts, d)[j])
    ensures InnerPathIn(Frontier(ts))
    decreases d, 1
  {
    var i := LevelMember(ts, d, j);
    InnerInTree(ts[i], d, Level(ts, d)[j]);
    FrontierAt(ts, i);
    var own := if Attributed(ts[i]) then [ts[i]] else Frontier(ts[i].children);
    var k, p :| 0 <= k < |own| && IsPath(own[k], p) && Inner in p;
    assert own[k] in Frontier(ts);
    var k' :| 0 <= k' < |Frontier(ts)| && Frontier(ts)[k'] == own[k];
    assert IsPath(Frontier(ts)[k'], p);
  }

  lemma {:induction false} InnerInTree(t: Loop, d: nat, x: Loop)
    requires WellTyped(t) && x in Level([t], d) && HasInner(x)
    ensures InnerPathIn(if Attributed(t) then [t] else Frontier(t.children))
    decreases d, 0
  {
    if d == 0 {
      InnerHere(t);
    } else {
      LevelBelow(t, d);
      var j :| 0 <= j < |Level(t.children, d - 1)| && Level(t.children, d - 1)[j] == x;
      InnerAtLevel(t.children, d - 1, j);
      if Attributed(t) { InnerBelow(t); }
    }
  }

  /** Some root-to-leaf path of the forest has an inner level. */
  ghost predicate InnerPathIn(ts: seq<Loop>) {
    exists k, p :: 0 <= k < |ts| && IsPath(ts[k], p) && Inner in p
  }

  lemma {:induction false} LevelBelow(t: Loop, d: nat)
    requires d > 0
    ensures Level([t], d) == Level(t.children, d - 1)
  {
    assert AllChildren([t]) == t.children + AllChildren([]);
    assert AllChildren([t]) == t.children;
  }

  lemma {:induction false} InnerHere(t: Loop)
    requires WellTyped(t) && HasInner(t)
    ensures Attributed(t) && InnerPathIn([t])
  {
    assert Inner in t.info.types;
    var p := AnyPath(t);
    ErasedMember(t.info.types, Inner);
    InnerOwn(t, p);
    InnerPathOf([t], 0, p);
  }

  lemma {:induction false} InnerPathOf(ts: seq<Loop>, k: nat, p: seq<LoopType>)
    requires k < |ts| && IsPath(ts[k], p) && Inner in p
    ensures InnerPathIn(ts)
  {
  }

  lemma {:induction false} InnerBelow(t: Loop)
    requires InnerPathIn(Frontier(t.children))
    ensures InnerPathIn([t])
  {
    var kids := Frontier(t.children);
    var k, q :| 0 <= k < |kids| && IsPath(kids[k], q) && Inner in q;
    PathThroughChild(t, kids[k], q);
    InnerPathOf([t], 0, Erase(t.info.types) + q);
  }

  lemma {:induction false} InnerOwn(t: Loop, p: seq<LoopType>)
    requires IsPath(t, p) && Inner in Erase(t.info.types)
    ensures Inner in p
  {
    var _, rest := PathChild(t, p);
    assert p == Erase(t.info.types) + rest;
  }

  lemma {:induction false} ErasedMember(types: seq<LoopType>, kind: LoopType)
    requires kind in types && kind != Regular
    ensures kind in Erase(types)
  {
    if types[0] != kind { ErasedMember(types[1..], kind); }
  }

  /** Where a type is nowhere, no path reads it. */
  lemma {:induction false} NowhereOnFrontier(ts: seq<Loop>, x: Loop, kind: LoopType)
    requires Nowhere(ts, kind) && x in Frontier(ts)
    ensures kind !in x.info.types && Nowhere(x.children, kind)
    decreases ForestSize(ts)
  {
    assert ForestSize(ts) == 1 + ForestSize(ts[0].children) + ForestSize(ts[1..]);
    if Attributed(ts[0]) && x == ts[0] {
    } else if !Attributed(ts[0]) && x in Frontier(ts[0].children) {
      NowhereOnFrontier(ts[0].children, x, kind);
    } else {
      NowhereOnFrontier(ts[1..], x, kind);
    }
  }

  lemma {:induction false} NowhereOnPath(t: Loop, p: seq<LoopType>, kind: LoopType)
    requires IsPath(t, p) && kind !in t.info.types && Nowhere(t.children, kind)
    ensures kind !in p
    decreases Size(t)
  {
    var x, rest := PathChild(t, p);
    if kind in Erase(t.info.types) { ErasedOnly(t.info.types, kind); }
    if Frontier(t.children) != [] {
      NowhereOnFrontier(t.children, x, kind);
      NowhereOnPath(x, rest, kind);
    }
  }

  lemma {:induction false} ErasedOnly(types: seq<LoopType>, kind: LoopType)
    requires kind in Erase(types)
    ensures kind in types
  {
    if types[0] != kind { ErasedOnly(types[1..], kind); }
  }

  /** Inner loops count as present in a loop that begins with `@outer` exactly if some path through it has an `@inner`
    * level. */
  lemma {:induction false} InnerPresentExactly(t: Loop)
    requires WellTyped(t) && t.info.types[0] == Outer
    ensures InnerPresent(t) <==> InnerPathIn([t])
  {
    SearchMeans(t.children, HasInner, Inner);
    if t.info.types == [Outer, Inner] {
      assert t.info.types[1] == Inner;
      InnerHere(t);
    } else if InnerPresent(t) {
      InnerOnPath(t.children);
      InnerBelow(t);
    } else {
      assert forall k :: 0 <= k < |t.info.types| ==> t.info.types[k] != Inner;
      forall k, p | 0 <= k < |[t]| && IsPath([t][k], p) ensures Inner !in p { NowhereOnPath(t, p, Inner); }
    }
  }

  lemma {:induction false} LevelConcat(a: seq<Loop>, b: seq<Loop>, d: nat)
    ensures Level(a + b, d) == Level(a, d) + Level(b, d)
    decreases d
  {
    if d > 0 {
      AllChildrenConcat(a, b);
      LevelConcat(AllChildren(a), AllChildren(b), d - 1);
    }
  }

  /** A loop at depth `d` of a forest is at depth `d` of one of its trees. */
  lemma {:induction false} LevelMember(ts: seq<Loop>, d: nat, j: nat) returns (i: nat)
    requires j < |Level(ts, d)|
    ensures i < |ts| && Level(ts, d)[j] in Level([ts[i]], d)
    decreases |ts|
  {
    i := 0;
    if ts == [] {
      EmptyBelow(ts, 0, d);
    } else {
      assert ts == [ts[0]] + ts[1..];
      LevelConcat([ts[0]], ts[1..], d);
      if j >= |Level([ts[0]], d)| {
        i := LevelMember(ts[1..], d, j - |Level([ts[0]], d)|);
        i := i + 1;
      }
    }
  }

  // ----- the signature of an accepted kernel -----

  function Repeat(kind: LoopType, n: nat): (r: seq<LoopType>)
    ensures |r| == n && forall k :: 0 <= k < n ==> r[k] == kind
  {
    seq(n, _ => kind)
  }

  lemma {:induction false} NestedForm(p: seq<LoopType>)
    requires Nested(p) && Regular !in p
    ensures p == Repeat(Outer, Count(p, Outer)) + Repeat(Inner, Count(p, Inner))
  {
    if p != [] {
      var q := p[1..];
      forall i, j | 0 <= i < j < |q| ensures !(q[i] == Inner && q[j] == Outer) {
        assert q[i] == p[i + 1] && q[j] == p[j + 1];
      }
      NestedForm(q);
      assert p[0] in p;
      if p[0] == Inner {
        forall j | 0 <= j < |q| ensures q[j] != Outer { assert p[0] == Inner && p[j + 1] == q[j]; }
        CountPositive(q, Outer);
        assert Repeat(Outer, 0) == [];
      }
    }
  }

  lemma {:induction false} CountPositive(p: seq<LoopType>, kind: LoopType)
    ensures Count(p, kind) > 0 <==> kind in p
  {
    if p != [] { CountPositive(p[1..], kind); }
  }

  lemma {:induction false} AcceptedHasInner(t: Loop, p: seq<LoopType>)
    requires WellTyped(t) && Attributed(t) && OnePathOf(t) && IsPath(t, p) && InnerPresent(t)
    ensures Inner in p
  {
    if t.info.types == [Outer, Inner] {
      ErasedMember(t.info.types, Inner);
    } else {
      InnerOnPath(t.children);
      var k, q :| 0 <= k < |Frontier(t.children)| && IsPath(Frontier(t.children)[k], q) && Inner in q;
      ChildPath(t, p, Frontier(t.children)[k], q);
    }
  }

  /** `p` reads a @outer levels and then b @inner levels, at least one of each. */
  ghost predicate OuterInner(p: seq<LoopType>) {
    exists a: nat, b: nat :: a >= 1 && b >= 1 && p == Repeat(Outer, a) + Repeat(Inner, b)
  }

  lemma {:induction false} OuterInnerIsNested(p: seq<LoopType>)
    requires OuterInner(p)
    ensures Nested(p)
  {
  }

  /** What verifyLoops accepts under outer loops has, on all paths, some @outer levels followed by
    * some @inner levels exactly when every attributed loop is legal inside its nearest attributed
    * ancestor; the per-loop check looks at the direct parent only. */
  lemma {:induction false} AcceptedSignature(tops: seq<Loop>, t: Loop, p: seq<LoopType>)
    requires AllWellTyped(tops) && OneSignature(tops) && t in tops && WellTyped(t) && IsPath(t, p)
    requires t.info.types[0] == Outer && InnerPresent(t)
    ensures OuterInner(p) <==> AttributedLegal(t)
  {
    TreeOfForest(tops, t);
    OrderIsAttributedLegality(t, p);
    PathStart(t, p);
    AcceptedHasInner(t, p);
    if Nested(p) {
      NestedForm(p);
      CountPositive(p, Outer);
      CountPositive(p, Inner);
      assert p[0] in p;
    }
    if OuterInner(p) { OuterInnerIsNested(p); }
  }

  /** No regular loop has an attributed loop below it. */
  predicate NoRegularBetween(t: Loop) {
    && (!Attributed(t) ==> Frontier(t.children) == [])
    && forall k :: 0 <= k < |t.children| ==> NoRegularBetween(t.children[k])
  }

  /** Then the direct-parent check is enough. */
  lemma {:induction false} DirectCheckSuffices(t: Loop, parent: seq<LoopType>)
    requires Attributed(t) && DirectlyLegal(t, parent) && NoRegularBetween(t)
    ensures AttributedLegal(t)
    decreases Size(t)
  {
    var kids := Frontier(t.children);
    forall k | 0 <= k < |kids|
      ensures (FrontierShrinks(t.children, kids[k]);
               Legal(kids[k].info.types, t.info.types) && AttributedLegal(kids[k]))
    {
      FrontierShrinks(t.children, kids[k]);
      DirectKid(t.children, kids[k]);
      DirectCheckSuffices(kids[k], t.info.types);
    }
  }

  lemma {:induction false} DirectKid(ts: seq<Loop>, x: Loop)
    requires x in Frontier(ts) && forall k :: 0 <= k < |ts| ==> NoRegularBetween(ts[k])
    ensures x in ts
  {
    assert NoRegularBetween(ts[0]);
    if x !in (if Attributed(ts[0]) then [ts[0]] else Frontier(ts[0].children)) { DirectKid(ts[1..], x); }
  }

  lemma {:induction false} ChainPath(t: Loop, x: Loop, p: seq<LoopType>)
    requires Frontier(t.children) == [x]
    ensures IsPath(t, p) <==> Erase(t.info.types) <= p && IsPath(x, p[|Erase(t.info.types)|..])
  {
    if Erase(t.info.types) <= p && IsPath(x, p[|Erase(t.info.types)|..]) {
      assert IsPath(Frontier(t.children)[0], p[|Erase(t.info.types)|..]);
    }
  }
}
