/** `@exclusive` variables in serial code: an array per variable and one counter that is reset
  * before each nest of @inner loops and stepped at the end of the innermost body.
  */
module Exclusive {
  import opened LoopLang
  import opened LoopTree
  import opened CudaNest
  import opened GridCoverage
  import opened InnerSizes
  import opened LaunchBound

  // ----- the generated code -----

  /** The handlers of @inner loops under an outer loop that declares an @exclusive variable: the
    * counter is stepped at the end of a loop that contains no other loop. */
  predicate StepsCounter(innermost: Loop) {
    innermost.children == []
  }

  /** One use of the variable: the iteration it happens in and the slot it reads. */
  datatype Use = Use(at: seq<int>, slot: nat)

  /** A nest of @inner loops run with the counter at `k`; `plain` says the innermost loop steps it. */
  function RunNest(infos: seq<Info>, plain: bool, k: nat, c: Ctx): (seq<Use>, nat)
    requires ChainOk(infos, c)
    decreases |infos|, 1, 0
  {
    if infos == [] then ([Use([], k)], if plain then k + 1 else k)
    else RunLoop(infos, plain, 0, k, c)
  }

  /** Iterations `i` and on of the outermost loop of the nest. */
  function RunLoop(infos: seq<Info>, plain: bool, i: nat, k: nat, c: Ctx): (seq<Use>, nat)
    requires ChainOk(infos, c) && infos != []
    decreases |infos|, 0, 1 + (if i < Trip(infos[0], c) then Trip(infos[0], c) - i else 0)
  {
    if i >= Trip(infos[0], c) then ([], k)
    else
      var (uses, k1) := RunNest(infos[1..], plain, k, c);
      var (more, k2) := RunLoop(infos, plain, i + 1, k1, c);
      (Under(i, uses) + more, k2)
  }

  function Under(i: int, uses: seq<Use>): (r: seq<Use>)
    ensures |r| == |uses| && forall j :: 0 <= j < |r| ==> r[j] == Use([i] + uses[j].at, uses[j].slot)
  {
    seq(|uses|, j requires 0 <= j < |uses| => Use([i] + uses[j].at, uses[j].slot))
  }

  // ----- ranks -----

  function Volume(infos: seq<Info>, c: Ctx): nat
    requires ChainOk(infos, c)
  {
    if infos == [] then 1 else Trip(infos[0], c) * Volume(infos[1..], c)
  }

  predicate Within(at: seq<int>, infos: seq<Info>, c: Ctx)
    requires ChainOk(infos, c)
  {
    |at| == |infos| && (infos == [] || (0 <= at[0] < Trip(infos[0], c) && Within(at[1..], infos[1..], c)))
  }

  /** The mixed-radix number of an iteration: innermost loop fastest. */
  function Rank(at: seq<int>, infos: seq<Info>, c: Ctx): int
    requires ChainOk(infos, c)
  {
    if infos == [] || at == [] then 0 else at[0] * Volume(infos[1..], c) + Rank(at[1..], infos[1..], c)
  }

  /** Uses from counter value `k` on come in rank order from rank `base`, each in slot k + its position. */
  ghost predicate InOrder(uses: seq<Use>, infos: seq<Info>, base: int, k: int, c: Ctx)
    requires ChainOk(infos, c)
  {
    forall j :: 0 <= j < |uses| ==>
      Within(uses[j].at, infos, c) && Rank(uses[j].at, infos, c) == base + j && uses[j].slot == k + j
  }

  lemma {:induction false} UnderInOrder(infos: seq<Info>, i: int, uses: seq<Use>, k: int, c: Ctx)
    requires ChainOk(infos, c) && infos != [] && 0 <= i < Trip(infos[0], c) && InOrder(uses, infos[1..], 0, k, c)
    ensures InOrder(Under(i, uses), infos, i * Volume(infos[1..], c), k, c)
  {
    forall j | 0 <= j < |uses|
      ensures var u := Under(i, uses)[j];
              Within(u.at, infos, c) && Rank(u.at, infos, c) == i * Volume(infos[1..], c) + j && u.slot == k + j
    {
      assert Under(i, uses)[j].at[1..] == uses[j].at;
    }
  }

  lemma {:induction false} InOrderConcat(a: seq<Use>, b: seq<Use>, infos: seq<Info>, base: int, k: int, c: Ctx)
    requires ChainOk(infos, c) && InOrder(a, infos, base, k, c) && InOrder(b, infos, base + |a|, k + |a|, c)
    ensures InOrder(a + b, infos, base, k, c)
  {
  }

  lemma {:induction false} RunNestInOrder(infos: seq<Info>, k: nat, c: Ctx)
    requires ChainOk(infos, c)
    ensures var (uses, k') := RunNest(infos, true, k, c);
            InOrder(uses, infos, 0, k, c) && |uses| == Volume(infos, c) && k' == k + Volume(infos, c)
    decreases |infos|, 1, 0
  {
    if infos != [] {
      assert 0 * Volume(infos[1..], c) == 0;
      RunLoopInOrder(infos, 0, k, c);
    }
  }

  lemma {:induction false} RunLoopInOrder(infos: seq<Info>, i: nat, k: nat, c: Ctx)
    requires ChainOk(infos, c) && infos != [] && i <= Trip(infos[0], c)
    ensures var (uses, k') := RunLoop(infos, true, i, k, c);
            && InOrder(uses, infos, i * Volume(infos[1..], c), k, c)
            && |uses| == (Trip(infos[0], c) - i) * Volume(infos[1..], c) && k' == k + |uses|
    decreases |infos|, 0, 1 + Trip(infos[0], c) - i
  {
    var v, n := Volume(infos[1..], c), Trip(infos[0], c);
    NextProduct(i, n, v);
    if i < n {
      RunNestInOrder(infos[1..], k, c);
      var k1 := RunNest(infos[1..], true, k, c).1;
      RunLoopInOrder(infos, i + 1, k1, c);
      RunLoopUnfold(infos, i, k, c);
      OneMoreIteration(infos, i, k, c);
    } else {
      NothingLeft(n - i, v);
    }
  }

  lemma {:induction false} NothingLeft(d: int, v: int)
    requires d == 0
    ensures d * v == 0
  {
  }

  /** One iteration, and then those after it. */
  lemma {:induction false} RunLoopUnfold(infos: seq<Info>, i: nat, k: nat, c: Ctx)
    requires ChainOk(infos, c) && infos != [] && i < Trip(infos[0], c)
    ensures var (uses, k1) := RunNest(infos[1..], true, k, c);
            var (more, k2) := RunLoop(infos, true, i + 1, k1, c);
            RunLoop(infos, true, i, k, c) == (Under(i, uses) + more, k2)
  {
  }

  lemma {:induction false} NextProduct(i: int, n: int, v: int)
    ensures (i + 1) * v == i * v + v && (n - i) * v == v + (n - (i + 1)) * v
  {
  }

  /** The uses of iteration i and then those of the later ones are in order. */
  lemma {:induction false} OneMoreIteration(infos: seq<Info>, i: nat, k: nat, c: Ctx)
    requires ChainOk(infos, c) && infos != [] && i < Trip(infos[0], c)
    requires var (uses, k1) := RunNest(infos[1..], true, k, c);
             && InOrder(uses, infos[1..], 0, k, c) && |uses| == Volume(infos[1..], c) && k1 == k + |uses|
             && InOrder(RunLoop(infos, true, i + 1, k1, c).0, infos, (i + 1) * Volume(infos[1..], c), k1, c)
    ensures InOrder(RunLoop(infos, true, i, k, c).0, infos, i * Volume(infos[1..], c), k, c)
  {
    var v := Volume(infos[1..], c);
    var (uses, k1) := RunNest(infos[1..], true, k, c);
    UnderInOrder(infos, i, uses, k, c);
    NextProduct(i, i, v);
    InOrderConcat(Under(i, uses), RunLoop(infos, true, i + 1, k1, c).0, infos, i * v, k, c);
  }

  /** After a reset, every use in a plain innermost body reads the slot that is the mixed-radix rank
    * of its iteration, all iterations are met in rank order, and so nests of equal trip counts give
    * an iteration the same slot. */
  lemma {:induction false} SlotIsRank(infos: seq<Info>, c: Ctx)
    requires ChainOk(infos, c)
    ensures var uses := RunNest(infos, true, 0, c).0;
            && |uses| == Volume(infos, c)
            && forall j ::
                 0 <= j < |uses| ==> Within(uses[j].at, infos, c) && uses[j].slot == Rank(uses[j].at, infos, c) == j
  {
    RunNestInOrder(infos, 0, c);
  }

  lemma {:induction false} SiblingsShareSlots(a: seq<Info>, b: seq<Info>, c: Ctx)
    requires ChainOk(a, c) && ChainOk(b, c) && |a| == |b|
    requires forall k :: 0 <= k < |a| ==> Trip(a[k], c) == Trip(b[k], c)
    ensures Volume(a, c) == Volume(b, c) && forall at :: Rank(at, a, c) == Rank(at, b, c)
    ensures RunNest(a, true, 0, c) == RunNest(b, true, 0, c)
  {
    SameVolume(a, b, c);
    forall at ensures Rank(at, a, c) == Rank(at, b, c) { SameRank(at, a, b, c); }
    SameRun(a, b, 0, c);
  }

  lemma {:induction false} SameVolume(a: seq<Info>, b: seq<Info>, c: Ctx)
    requires ChainOk(a, c) && ChainOk(b, c) && |a| == |b| && forall k :: 0 <= k < |a| ==> Trip(a[k], c) == Trip(b[k], c)
    ensures Volume(a, c) == Volume(b, c)
  {
    if a != [] { SameVolume(a[1..], b[1..], c); }
  }

  lemma {:induction false} SameRank(at: seq<int>, a: seq<Info>, b: seq<Info>, c: Ctx)
    requires ChainOk(a, c) && ChainOk(b, c) && |a| == |b| && forall k :: 0 <= k < |a| ==> Trip(a[k], c) == Trip(b[k], c)
    ensures Rank(at, a, c) == Rank(at, b, c)
  {
    if a != [] && at != [] {
      SameVolume(a[1..], b[1..], c);
      SameRank(at[1..], a[1..], b[1..], c);
    }
  }

  lemma {:induction false} SameRun(a: seq<Info>, b: seq<Info>, k: nat, c: Ctx)
    requires ChainOk(a, c) && ChainOk(b, c) && |a| == |b| && forall j :: 0 <= j < |a| ==> Trip(a[j], c) == Trip(b[j], c)
    ensures RunNest(a, true, k, c) == RunNest(b, true, k, c)
    decreases |a|, 0
  {
    if a != [] { SameRunLoop(a, b, 0, k, c); }
  }

  lemma {:induction false} SameRunLoop(a: seq<Info>, b: seq<Info>, i: nat, k: nat, c: Ctx)
    requires ChainOk(a, c) && ChainOk(b, c) && |a| == |b| && a != []
             && forall j :: 0 <= j < |a| ==> Trip(a[j], c) == Trip(b[j], c)
    ensures RunLoop(a, true, i, k, c) == RunLoop(b, true, i, k, c)
    decreases |a|, 0, 1 + (if i < Trip(a[0], c) then Trip(a[0], c) - i else 0)
  {
    if i < Trip(a[0], c) {
      SameRun(a[1..], b[1..], k, c);
      SameRunLoop(a, b, i + 1, RunNest(a[1..], true, k, c).1, c);
    }
  }

  // ----- an innermost body with a loop in it -----

  lemma {:induction false} StuckCounter(infos: seq<Info>, k: nat, c: Ctx)
    requires ChainOk(infos, c)
    ensures var (uses, k') := RunNest(infos, false, k, c);
            k' == k && |uses| == Volume(infos, c) && forall j :: 0 <= j < |uses| ==> uses[j].slot == k
    decreases |infos|, 1, 0
  {
    if infos != [] { StuckLoop(infos, 0, k, c); }
  }

  lemma {:induction false} StuckLoop(infos: seq<Info>, i: nat, k: nat, c: Ctx)
    requires ChainOk(infos, c) && infos != [] && i <= Trip(infos[0], c)
    ensures var (uses, k') := RunLoop(infos, false, i, k, c);
            && k' == k && |uses| == (Trip(infos[0], c) - i) * Volume(infos[1..], c)
            && forall j :: 0 <= j < |uses| ==> uses[j].slot == k
    decreases |infos|, 0, 1 + Trip(infos[0], c) - i
  {
    var n, v := Trip(infos[0], c), Volume(infos[1..], c);
    if i < n {
      StuckCounter(infos[1..], k, c);
      StuckLoop(infos, i + 1, k, c);
      NextProduct(i, n, v);
    } else {
      NothingLeft(n - i, v);
    }
  }

  /** Iterations have slots of their own exactly when the innermost loop holds no other loop, or there
    * is at most one iteration: otherwise the counter is never stepped. */
  lemma {:induction false} OwnSlotsExactly(infos: seq<Info>, innermost: Loop, c: Ctx)
    requires infos != [] && ChainOk(infos, c) && innermost.info == infos[|infos| - 1]
    ensures var uses := RunNest(infos, StepsCounter(innermost), 0, c).0;
            (forall i, j :: 0 <= i < j < |uses| ==> uses[i].slot != uses[j].slot)
            <==> innermost.children == [] || Volume(infos, c) <= 1
  {
    if StepsCounter(innermost) {
      SlotIsRank(infos, c);
    } else {
      StuckCounter(infos, 0, c);
      var uses := RunNest(infos, false, 0, c).0;
      if |uses| > 1 { assert uses[0].slot == uses[1].slot; }
    }
  }

  // ----- the length of the array -----

  const UNKNOWN_LENGTH: nat := 1024

  /** 1024 when a size is unknown, else the largest product over the loops inside. */
  predicate IsDeclared(children: seq<Loop>, sz: nat)
    requires AllSettled(children)
  {
    if exists k :: 0 <= k < |children| && HasNullOpts(Sizes(children[k])) then sz == UNKNOWN_LENGTH
    else
      (forall k :: 0 <= k < |children| ==> Product(Sizes(children[k])) <= sz)
      && (sz == 0 || exists k :: 0 <= k < |children| && sz == Product(Sizes(children[k])))
  }

  /** Where an @exclusive variable may be declared: `o` is the loop, or its nearest attributed one around. */
  predicate MayDeclare(o: Loop) {
    Has(o, Outer) && !Has(o, Inner) && FirstAttributed(o).Some? && Has(FirstAttributed(o).value, Inner)
  }

  lemma {:induction false} OnlyFirst(ts: seq<Loop>, f: Loop -> bool, d: nat, k: nat, e: nat, j: nat)
    requires FirstAt(ts, f, d, k) && FirstAt(ts, f, e, j)
    ensures d == e && k == j
  {
  }

  /** It may be declared where the loop has an `@outer` type and no `@inner` one and, of the attributed loops inside,
    * the left-most of least depth has an `@inner` type. */
  lemma {:induction false} MayDeclareExactly(o: Loop)
    ensures MayDeclare(o) <==>
            Outer in o.info.types && Inner !in o.info.types
            && exists d: nat, k: nat ::
                 FirstAt(o.children, Attributed, d, k) && Inner in Level(o.children, d)[k].info.types
  {
    SearchFindsFirst(o.children, Attributed);
    if FirstAttributed(o).Some? {
      var d: nat, k: nat :| FirstAt(o.children, Attributed, d, k)
                            && Level(o.children, d)[k] == FirstAttributed(o).value;
      forall e: nat, j: nat | FirstAt(o.children, Attributed, e, j) ensures e == d && j == k {
        OnlyFirst(o.children, Attributed, d, k, e, j);
      }
    }
  }

  /** The array length declared for an @exclusive variable of an outer loop. */
  method DeclaredLength(children: seq<Loop>) returns (sz: nat)
    requires AllSettled(children)
    ensures IsDeclared(children, sz)
  {
    sz := 0;
    for k := 0 to |children|
      invariant forall j :: 0 <= j < k ==> !HasNullOpts(Sizes(children[j])) && Product(Sizes(children[j])) <= sz
      invariant sz == 0 || exists j :: 0 <= j < k && sz == Product(Sizes(children[j]))
    {
      assert Settled(children[k]);
      var v := GetInnerSizes(children[k]);
      if HasNullOpts(v) {
        return UNKNOWN_LENGTH;
      }
      if Product(v) > sz {
        sz := Product(v);
      }
    }
  }

  // ----- chains -----

  predicate AllInner(infos: seq<Info>) {
    forall k :: 0 <= k < |infos| ==> infos[k].types == [Inner]
  }

  lemma {:induction false} VolumeIsBlock(infos: seq<Info>, c: Ctx)
    requires ChainOk(infos, c) && AllInner(infos)
    ensures Volume(infos, c) == ProductOf(GridExtents(infos, c).1)
  {
    if infos != [] {
      VolumeIsBlock(infos[1..], c);
      var n := Trip(infos[0], c);
      ProductConcat(GridExtents(infos[1..], c).1, [n]);
      ProductOne(n);
      Commute(n, Volume(infos[1..], c));
    }
  }

  /** Every slot read by a nest of compile-time sized @inner loops lies inside an array at least as
    * long as the product of the nest's sizes, which the declared length is. */
  lemma {:induction false} SlotsInsideArray(infos: seq<Info>, length: nat, c: Ctx)
    requires infos != [] && ChainOk(infos, c) && AllInner(infos) && ChainConstant(infos, c)
    requires Settled(ToTree(infos)) && AxesComputed(ToTree(infos)) && |infos| <= 3
    requires Product(Sizes(ToTree(infos))) <= length
    ensures !HasNullOpts(Sizes(ToTree(infos))) && Product(Sizes(ToTree(infos))) == Volume(infos, c)
    ensures forall j :: 0 <= j < |RunNest(infos, true, 0, c).0| ==> RunNest(infos, true, 0, c).0[j].slot < length
  {
    InnerCount(infos);
    ChainRanked(infos, c);
    ChainKnown(infos, c);
    SizesOnPath(ToTree(infos), CountAll(infos, Inner));
    ChainPathProduct(infos, c, Product(Sizes(ToTree(infos))));
    VolumeIsBlock(infos, c);
    SlotIsRank(infos, c);
  }

  lemma {:induction false} InnerCount(infos: seq<Info>)
    requires AllInner(infos)
    ensures CountAll(infos, Inner) == |infos|
  {
    if infos != [] {
      CountInner(infos[0].types);
      InnerCount(infos[1..]);
    }
  }
}
