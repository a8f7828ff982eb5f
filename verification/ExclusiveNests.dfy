/** `@exclusive` variables in nests of any shape: how far the counter runs after a reset, against the length that is
  * declared.
  */
module ExclusiveNests {
  import opened LoopLang
  import opened LoopHeader
  import opened LoopTree
  import opened CudaNest
  import opened GridCoverage
  import opened InnerSizes
  import opened Exclusive

  // ----- trees of loops -----

  /** Plain `@inner` loops, whose known size is their number of iterations, and ordinary loops, in any shape. */
  predicate PlainTree(t: Loop, c: Ctx) {
    && (t.info.types == [Inner] || t.info.types == [Regular]) && LoopOk(t.info, c)
    && (t.info.types == [Inner] ==> Trip(t.info, c) == t.info.rangeSize > 0)
    && forall k :: 0 <= k < |t.children| ==> PlainTree(t.children[k], c)
  }

  predicate PlainTrees(ts: seq<Loop>, c: Ctx) {
    forall k :: 0 <= k < |ts| ==> PlainTree(ts[k], c)
  }

  /** An `@inner` loop without another one inside; its body uses the variable. */
  predicate Bottom(t: Loop) {
    t.info.types == [Inner] && Frontier(t.children) == []
  }

  /** Iterations `i` and on with the counter at `k`. */
  function RunTree(t: Loop, i: nat, k: nat, c: Ctx): (seq<Use>, nat)
    requires PlainTree(t, c)
    decreases t, 1, Trip(t.info, c) - i
  {
    if i >= Trip(t.info, c) then ([], k)
    else
      var (uses, k1) := RunBody(t, k, c);
      var (more, k2) := RunTree(t, i + 1, k1, c);
      (Under(i, uses) + more, k2)
  }

  /** One iteration: a bottom loop uses the slot, and steps the counter if it contains no other loop; any other loop
    * runs the loops inside one after the other. */
  function RunBody(t: Loop, k: nat, c: Ctx): (seq<Use>, nat)
    requires PlainTree(t, c)
    decreases t, 0, 0
  {
    if Bottom(t) then ([Use([], k)], if StepsCounter(t) then k + 1 else k) else RunTrees(t.children, k, c)
  }

  function RunTrees(ts: seq<Loop>, k: nat, c: Ctx): (seq<Use>, nat)
    requires PlainTrees(ts, c)
    decreases ts, 0, 0
  {
    if ts == [] then ([], k)
    else
      assert PlainTree(ts[0], c);
      var (uses, k1) := RunTree(ts[0], 0, k, c);
      var (more, k2) := RunTrees(ts[1..], k1, c);
      (uses + more, k2)
  }

  // ----- how far the slots reach -----

  /** How often the counter is stepped. */
  function Steps(t: Loop, c: Ctx): nat
    requires PlainTree(t, c)
    decreases t, 1
  {
    Times(Trip(t.info, c), BodySteps(t, c))
  }

  function BodySteps(t: Loop, c: Ctx): nat
    requires PlainTree(t, c)
    decreases t, 0
  {
    if Bottom(t) then if StepsCounter(t) then 1 else 0 else StepsOf(t.children, c)
  }

  function StepsOf(ts: seq<Loop>, c: Ctx): nat
    requires PlainTrees(ts, c)
    decreases ts, 0
  {
    if ts == [] then 0 else assert PlainTree(ts[0], c); Steps(ts[0], c) + StepsOf(ts[1..], c)
  }

  /** The slots from the first to the last one used; 0 if none is. */
  function Reach(t: Loop, c: Ctx): nat
    requires PlainTree(t, c)
    decreases t, 1
  {
    Repeated(Trip(t.info, c), BodySteps(t, c), BodyReach(t, c))
  }

  function BodyReach(t: Loop, c: Ctx): nat
    requires PlainTree(t, c)
    decreases t, 0
  {
    if Bottom(t) then 1 else ReachOf(t.children, c)
  }

  function ReachOf(ts: seq<Loop>, c: Ctx): nat
    requires PlainTrees(ts, c)
    decreases ts, 0
  {
    if ts == [] then 0 else assert PlainTree(ts[0], c); Followed(Reach(ts[0], c), Steps(ts[0], c), ReachOf(ts[1..], c))
  }

  /** Something that steps the counter `steps` times, and then something that reaches `more` slots from there. */
  function Followed(reach: nat, steps: nat, more: nat): nat {
    if more == 0 then reach else steps + more
  }

  function Repeated(n: nat, steps: nat, reach: nat): nat {
    if n == 0 then 0 else Followed(reach, steps, Repeated(n - 1, steps, reach))
  }

  function Times(n: nat, steps: nat): nat {
    if n == 0 then 0 else steps + Times(n - 1, steps)
  }

  /** All but the last repetition count in steps alone. */
  lemma {:induction false} RepeatedProduct(n: nat, steps: nat, reach: nat)
    ensures Times(n, steps) == n * steps
    ensures Repeated(n, steps, reach) == if n == 0 || reach == 0 then 0 else (n - 1) * steps + reach
  {
    if n > 0 {
      RepeatedProduct(n - 1, steps, reach);
      if n > 1 { assert (n - 1) * steps == steps + (n - 2) * steps; }
    }
  }

  /** Slots from k on are used, the last of them and none behind it. */
  ghost predicate Spans(uses: seq<Use>, k: nat, reach: nat) {
    && (forall u :: u in uses ==> k <= u.slot < k + reach)
    && (reach > 0 ==> exists u :: u in uses && u.slot == k + reach - 1)
  }

  lemma {:induction false} SpansConcat(a: seq<Use>, b: seq<Use>, k: nat, ra: nat, steps: nat, rb: nat)
    requires Spans(a, k, ra) && Spans(b, k + steps, rb) && ra <= steps + 1
    ensures Spans(a + b, k, Followed(ra, steps, rb))
  {
    if rb > 0 {
      var u :| u in b && u.slot == k + steps + rb - 1;
      assert u in a + b;
    } else if ra > 0 {
      var u :| u in a && u.slot == k + ra - 1;
      assert u in a + b;
    }
  }

  lemma {:induction false} SpansUnder(i: int, uses: seq<Use>, k: nat, reach: nat)
    requires Spans(uses, k, reach)
    ensures Spans(Under(i, uses), k, reach)
  {
    var r := Under(i, uses);
    forall u | u in r ensures k <= u.slot < k + reach {
      var j :| 0 <= j < |r| && r[j] == u;
      assert uses[j] in uses;
    }
    if reach > 0 {
      var u :| u in uses && u.slot == k + reach - 1;
      var j :| 0 <= j < |uses| && uses[j] == u;
      assert r[j] in r && r[j].slot == u.slot;
    }
  }

  /** The slots used by iterations i and on reach exactly that far, and the counter ends that many steps further. */
  ghost predicate Reaches(r: (seq<Use>, nat), k: nat, reach: nat, steps: nat) {
    Spans(r.0, k, reach) && r.1 == k + steps && reach <= steps + 1
  }

  lemma {:induction false} OneMoreReaches(i: int, first: (seq<Use>, nat), rest: (seq<Use>, nat), k: nat, n: nat,
                                          steps: nat, reach: nat)
    requires n > 0 && Reaches(first, k, reach, steps)
    requires Reaches(rest, first.1, Repeated(n - 1, steps, reach), Times(n - 1, steps))
    ensures Reaches((Under(i, first.0) + rest.0, rest.1), k, Repeated(n, steps, reach), Times(n, steps))
  {
    SpansUnder(i, first.0, k, reach);
    SpansConcat(Under(i, first.0), rest.0, k, reach, steps, Repeated(n - 1, steps, reach));
  }

  lemma {:induction false} BothReach(first: (seq<Use>, nat), rest: (seq<Use>, nat), k: nat, ra: nat, sa: nat, rb: nat,
                                     sb: nat)
    requires Reaches(first, k, ra, sa) && Reaches(rest, first.1, rb, sb)
    ensures Reaches((first.0 + rest.0, rest.1), k, Followed(ra, sa, rb), sa + sb)
  {
    SpansConcat(first.0, rest.0, k, ra, sa, rb);
  }

  lemma {:induction false} TreeReach(t: Loop, i: nat, m: nat, k: nat, c: Ctx)
    requires PlainTree(t, c) && i + m == Trip(t.info, c)
    ensures Reaches(RunTree(t, i, k, c), k, Repeated(m, BodySteps(t, c), BodyReach(t, c)), Times(m, BodySteps(t, c)))
    decreases t, 1, m
  {
    if m > 0 {
      var first := RunBody(t, k, c);
      BodySpans(t, k, c);
      TreeReach(t, i + 1, m - 1, first.1, c);
      ReachStep(t, i, m, k, first, c);
    } else {
      NoneReaches(k, BodySteps(t, c), BodyReach(t, c));
    }
  }

  lemma {:induction false} ReachStep(t: Loop, i: nat, m: nat, k: nat, first: (seq<Use>, nat), c: Ctx)
    requires PlainTree(t, c) && i + m == Trip(t.info, c) && m > 0 && first == RunBody(t, k, c)
    requires Reaches(first, k, BodyReach(t, c), BodySteps(t, c))
    requires Reaches(RunTree(t, i + 1, first.1, c), first.1, Repeated(m - 1, BodySteps(t, c), BodyReach(t, c)),
                     Times(m - 1, BodySteps(t, c)))
    ensures Reaches(RunTree(t, i, k, c), k, Repeated(m, BodySteps(t, c), BodyReach(t, c)), Times(m, BodySteps(t, c)))
  {
    TreeUnfold(t, i, k, c);
    OneMoreReaches(i, first, RunTree(t, i + 1, first.1, c), k, m, BodySteps(t, c), BodyReach(t, c));
  }

  lemma {:induction false} TreeUnfold(t: Loop, i: nat, k: nat, c: Ctx)
    requires PlainTree(t, c) && i < Trip(t.info, c)
    ensures var first := RunBody(t, k, c);
            var rest := RunTree(t, i + 1, first.1, c);
            RunTree(t, i, k, c) == (Under(i, first.0) + rest.0, rest.1)
  {
  }

  lemma {:induction false} NoneReaches(k: nat, steps: nat, reach: nat)
    ensures Reaches(([], k), k, Repeated(0, steps, reach), Times(0, steps))
  {
  }

  lemma {:induction false} BodySpans(t: Loop, k: nat, c: Ctx)
    requires PlainTree(t, c)
    ensures Reaches(RunBody(t, k, c), k, BodyReach(t, c), BodySteps(t, c))
    decreases t, 0, 0
  {
    if Bottom(t) {
      var uses := RunBody(t, k, c).0;
      assert uses[0] in uses;
    } else {
      TreesReach(t.children, k, c);
    }
  }

  lemma {:induction false} TreesReach(ts: seq<Loop>, k: nat, c: Ctx)
    requires PlainTrees(ts, c)
    ensures Reaches(RunTrees(ts, k, c), k, ReachOf(ts, c), StepsOf(ts, c))
    decreases ts, 0, 0
  {
    if ts != [] {
      assert PlainTree(ts[0], c);
      TreeReach(ts[0], 0, Trip(ts[0].info, c), k, c);
      var first := RunTree(ts[0], 0, k, c);
      TreesReach(ts[1..], first.1, c);
      BothReach(first, RunTrees(ts[1..], first.1, c), k, Reach(ts[0], c), Steps(ts[0], c), ReachOf(ts[1..], c),
                StepsOf(ts[1..], c));
    }
  }

  // ----- the nests of an outer loop -----

  /** Every slot that the nest reads after a reset lies below the length. */
  ghost predicate SlotsInside(t: Loop, length: nat, c: Ctx)
    requires PlainTree(t, c)
  {
    forall u :: u in UsesOf(t, c) ==> u.slot < length
  }

  /** The uses of a nest that starts with the counter reset. */
  function UsesOf(t: Loop, c: Ctx): seq<Use>
    requires PlainTree(t, c)
  {
    RunTree(t, 0, 0, c).0
  }

  /** A nest fits an array exactly when its slots reach no further than the array. */
  lemma {:induction false} FitsExactly(t: Loop, length: nat, c: Ctx)
    requires PlainTree(t, c)
    ensures SlotsInside(t, length, c) <==> Reach(t, c) <= length
  {
    TreeReach(t, 0, Trip(t.info, c), 0, c);
    var uses := UsesOf(t, c);
    assert Spans(uses, 0, Reach(t, c));
    if Reach(t, c) > 0 { var u :| u in uses && u.slot == Reach(t, c) - 1; }
  }

  lemma {:induction false} NestsArePlain(ts: seq<Loop>, c: Ctx)
    requires PlainTrees(ts, c)
    ensures PlainTrees(Frontier(ts), c)
    decreases ForestSize(ts)
  {
    if ts != [] {
      assert PlainTree(ts[0], c);
      assert ForestSize(ts) == 1 + ForestSize(ts[0].children) + ForestSize(ts[1..]);
      NestsArePlain(ts[0].children, c);
      NestsArePlain(ts[1..], c);
    }
  }

  /** The counter is reset before each `@inner` loop that is nearest to the outer loop; none of these nests leaves an
    * array of this length. */
  ghost predicate AllInside(ts: seq<Loop>, length: nat, c: Ctx)
    requires PlainTrees(ts, c)
  {
    NestsArePlain(ts, c);
    forall j :: 0 <= j < |Frontier(ts)| ==> InsideAt(ts, j, length, c)
  }

  ghost predicate InsideAt(ts: seq<Loop>, j: nat, length: nat, c: Ctx)
    requires PlainTrees(Frontier(ts), c) && j < |Frontier(ts)|
  {
    SlotsInside(Frontier(ts)[j], length, c)
  }

  lemma {:induction false} PlainKnown(t: Loop, c: Ctx)
    requires PlainTree(t, c) && Settled(t)
    ensures AllKnown(t)
    decreases t
  {
    forall k | 0 <= k < |t.children| ensures AllKnown(t.children[k]) { PlainKnown(t.children[k], c); }
  }

  lemma {:induction false} PlainSizes(t: Loop, h: nat, c: Ctx)
    requires PlainTree(t, c) && Settled(t) && Ranked(t, h)
    ensures AllKnown(t) && !HasNullOpts(Sizes(t)) && Product(Sizes(t)) >= 1
  {
    PlainKnown(t, c);
    SizesOnPath(t, h);
  }

  /** The sizes of some child give at least this many. */
  predicate SomeHolds(ts: seq<Loop>, slots: nat)
    requires AllSettled(ts)
  {
    exists k :: 0 <= k < |ts| && slots <= Product(Sizes(ts[k]))
  }

  lemma {:induction false} DeclaredIsLargest(ts: seq<Loop>, length: nat) returns (k: nat)
    requires AllSettled(ts) && IsDeclared(ts, length)
    requires forall j :: 0 <= j < |ts| ==> !HasNullOpts(Sizes(ts[j])) && 1 <= Product(Sizes(ts[j]))
    ensures forall k :: 0 <= k < |ts| ==> 1 <= Product(Sizes(ts[k])) <= length
    ensures ts != [] ==> k < |ts| && length == Product(Sizes(ts[k]))
  {
    k := 0;
    if ts != [] {
      assert 1 <= Product(Sizes(ts[0])) <= length;
      k :| 0 <= k < |ts| && length == Product(Sizes(ts[k]));
    }
  }

  lemma {:induction false} PlainDeclared(ts: seq<Loop>, h: nat, length: nat, c: Ctx) returns (k: nat)
    requires PlainTrees(ts, c) && AllSettled(ts) && IsDeclared(ts, length)
    requires forall j :: 0 <= j < |ts| ==> Settled(ts[j]) && Ranked(ts[j], h)
    ensures forall k :: 0 <= k < |ts| ==> AllKnown(ts[k]) && 1 <= Product(Sizes(ts[k])) <= length
    ensures ts != [] ==> k < |ts| && length == Product(Sizes(ts[k]))
  {
    forall j | 0 <= j < |ts| ensures AllKnown(ts[j]) && !HasNullOpts(Sizes(ts[j])) && 1 <= Product(Sizes(ts[j])) {
      PlainSizes(ts[j], h, c);
    }
    k := DeclaredIsLargest(ts, length);
  }

  /** A nest below an outer loop stays inside the declared array if and only if its slots reach no further than the
    * product kept for some child of the outer loop. The child may be an ordinary loop around several nests. */
  lemma {:induction false} NestFits(ts: seq<Loop>, x: Loop, h: nat, length: nat, c: Ctx)
    requires PlainTrees(ts, c) && AllSettled(ts) && IsDeclared(ts, length) && x in Frontier(ts) && PlainTree(x, c)
    requires forall j :: 0 <= j < |ts| ==> Settled(ts[j]) && Ranked(ts[j], h)
    ensures SlotsInside(x, length, c) <==> SomeHolds(ts, Reach(x, c))
  {
    var k := PlainDeclared(ts, h, length, c);
    FitsExactly(x, length, c);
    assert ts != [];
  }

  // ----- nests of `@inner` loops alone -----

  /** All loops of the nest are `@inner`. */
  predicate InnerNest(t: Loop, c: Ctx) {
    && PlainTree(t, c) && t.info.types == [Inner]
    && forall k :: 0 <= k < |t.children| ==> InnerNest(t.children[k], c)
  }

  predicate InnerNests(ts: seq<Loop>, c: Ctx) {
    PlainTrees(ts, c) && forall k :: 0 <= k < |ts| ==> InnerNest(ts[k], c)
  }

  lemma {:induction false} NestFrontier(t: Loop, c: Ctx)
    requires InnerNest(t, c)
    ensures (Bottom(t) <==> t.children == []) && Frontier(t.children) == t.children
  {
    NestsAreFrontier(t.children, c);
  }

  lemma {:induction false} NestsAreFrontier(ts: seq<Loop>, c: Ctx)
    requires InnerNests(ts, c)
    ensures Frontier(ts) == ts
  {
    if ts != [] {
      assert InnerNest(ts[0], c) && ts[0].info.types[0] == Inner;
      NestsAreFrontier(ts[1..], c);
    }
  }

  /** How often bodies without a loop inside are run. */
  function LeafRuns(t: Loop, c: Ctx): nat
    requires InnerNest(t, c)
    decreases t, 1
  {
    Trip(t.info, c) * (if t.children == [] then 1 else LeafRunsOf(t.children, c))
  }

  function LeafRunsOf(ts: seq<Loop>, c: Ctx): nat
    requires InnerNests(ts, c)
    decreases ts, 0
  {
    if ts == [] then 0 else assert InnerNest(ts[0], c); LeafRuns(ts[0], c) + LeafRunsOf(ts[1..], c)
  }

  /** The slots read are k, k + 1, ... without a gap. */
  ghost predicate Consecutive(uses: seq<Use>, k: nat) {
    forall j :: 0 <= j < |uses| ==> uses[j].slot == k + j
  }

  /** The run reads n slots from k on and leaves the counter behind them. */
  ghost predicate Fills(r: (seq<Use>, nat), k: nat, n: nat) {
    Consecutive(r.0, k) && |r.0| == n && r.1 == k + n
  }

  lemma {:induction false} FillsThen(first: (seq<Use>, nat), rest: (seq<Use>, nat), k: nat, n: nat, m: nat)
    requires Fills(first, k, n) && Fills(rest, first.1, m)
    ensures Fills((first.0 + rest.0, rest.1), k, n + m)
  {
  }

  lemma {:induction false} FillsUnder(i: int, r: (seq<Use>, nat), k: nat, n: nat)
    requires Fills(r, k, n)
    ensures Fills((Under(i, r.0), r.1), k, n)
  {
  }

  function LeafRunsIn(t: Loop, c: Ctx): nat
    requires InnerNest(t, c)
  {
    if t.children == [] then 1 else LeafRunsOf(t.children, c)
  }

  /** The last m iterations of a nest read consecutive slots, as many as bodies are run. */
  lemma {:induction false} TreeSlots(t: Loop, i: nat, m: nat, k: nat, c: Ctx)
    requires InnerNest(t, c) && i + m == Trip(t.info, c)
    ensures Fills(RunTree(t, i, k, c), k, m * LeafRunsIn(t, c))
    decreases t, 1, m
  {
    var v := LeafRunsIn(t, c);
    if m > 0 {
      var first := RunBody(t, k, c);
      BodySlots(t, k, c);
      TreeSlots(t, i + 1, m - 1, first.1, c);
      TreeUnfold(t, i, k, c);
      FillsUnder(i, first, k, v);
      FillsThen((Under(i, first.0), first.1), RunTree(t, i + 1, first.1, c), k, v, (m - 1) * v);
      assert v + (m - 1) * v == m * v;
    } else {
      NothingLeft(m, v);
    }
  }

  lemma {:induction false} BodySlots(t: Loop, k: nat, c: Ctx)
    requires InnerNest(t, c)
    ensures Fills(RunBody(t, k, c), k, LeafRunsIn(t, c))
    decreases t, 0, 0
  {
    NestFrontier(t, c);
    if t.children != [] { TreesSlots(t.children, k, c); }
  }

  lemma {:induction false} TreesSlots(ts: seq<Loop>, k: nat, c: Ctx)
    requires InnerNests(ts, c)
    ensures Fills(RunTrees(ts, k, c), k, LeafRunsOf(ts, c))
    decreases ts, 0, 0
  {
    if ts != [] {
      assert InnerNest(ts[0], c);
      var first := RunTree(ts[0], 0, k, c);
      TreeSlots(ts[0], 0, Trip(ts[0].info, c), k, c);
      TreesSlots(ts[1..], first.1, c);
      FillsThen(first, RunTrees(ts[1..], first.1, c), k, LeafRuns(ts[0], c), LeafRunsOf(ts[1..], c));
    }
  }

  /** The nest reaches as many slots as it runs bodies. */
  lemma {:induction false} NestReach(t: Loop, c: Ctx)
    requires InnerNest(t, c)
    ensures Reach(t, c) == LeafRuns(t, c)
  {
    TreeSlots(t, 0, Trip(t.info, c), 0, c);
    TreeReach(t, 0, Trip(t.info, c), 0, c);
    var uses := UsesOf(t, c);
    assert Spans(uses, 0, Reach(t, c)) && Consecutive(uses, 0) && |uses| == LeafRuns(t, c);
    if |uses| > 0 { assert uses[|uses| - 1] in uses; }
  }

  /** No loop of the nest holds more than one loop. */
  predicate Branchless(t: Loop) {
    |t.children| <= 1 && forall k :: 0 <= k < |t.children| ==> Branchless(t.children[k])
  }

  /** A nest runs at least as many bodies as the largest product along a path, and as many only as a chain. */
  lemma {:induction false} RunsAgainstPaths(t: Loop, c: Ctx)
    requires InnerNest(t, c) && Settled(t)
    ensures 1 <= MaxProduct(t) <= LeafRuns(t, c) && (MaxProduct(t) == LeafRuns(t, c) <==> Branchless(t))
    decreases t, 1
  {
    var n := Trip(t.info, c);
    assert Factor(t.info) == n;
    if t.children == [] {
      assert n * 1 == n;
    } else {
      RunsAgainstLargest(t.children, c);
      var most, runs := LargestOf(t.children), LeafRunsOf(t.children, c);
      MulMono(n, most, runs);
      MulMono(n, 1, most);
      CancelFactor(n, most, runs);
    }
  }

  lemma {:induction false} RunsAgainstLargest(ts: seq<Loop>, c: Ctx)
    requires InnerNests(ts, c) && AllSettled(ts)
    ensures LargestOf(ts) <= LeafRunsOf(ts, c) && (ts != [] ==> 1 <= LargestOf(ts))
    ensures ts != [] ==> (LargestOf(ts) == LeafRunsOf(ts, c) <==> |ts| == 1 && Branchless(ts[0]))
    decreases ts, 0
  {
    if ts != [] {
      assert InnerNest(ts[0], c) && Settled(ts[0]);
      RunsAgainstPaths(ts[0], c);
      RunsAgainstLargest(ts[1..], c);
    }
  }

  /** An outer loop around nests of any shape: they all stay inside the declared array if and only if each of them
    * reaches no further than the product kept for some child of the outer loop. */
  lemma {:induction false} NestsFit(ts: seq<Loop>, h: nat, length: nat, c: Ctx)
    requires PlainTrees(ts, c) && AllSettled(ts) && IsDeclared(ts, length)
    requires forall j :: 0 <= j < |ts| ==> Settled(ts[j]) && Ranked(ts[j], h)
    ensures PlainTrees(Frontier(ts), c)
    ensures AllInside(ts, length, c) <==> forall j :: 0 <= j < |Frontier(ts)| ==> HeldBySome(ts, j, c)
  {
    NestsArePlain(ts, c);
    forall j | 0 <= j < |Frontier(ts)| ensures InsideAt(ts, j, length, c) <==> HeldBySome(ts, j, c) {
      NestFits(ts, Frontier(ts)[j], h, length, c);
    }
  }

  /** Nest j reaches no further than the product kept for some child. */
  predicate HeldBySome(ts: seq<Loop>, j: nat, c: Ctx)
    requires AllSettled(ts) && PlainTrees(Frontier(ts), c) && j < |Frontier(ts)|
  {
    SomeHolds(ts, Reach(Frontier(ts)[j], c))
  }

  // ----- nests that do not branch -----

  lemma {:induction false} PlainPositive(t: Loop, c: Ctx)
    requires PlainTree(t, c) && Settled(t)
    ensures MaxProduct(t) >= 1
    decreases t, 1
  {
    if t.children != [] {
      PlainsPositive(t.children, c);
      MulMono(Factor(t.info), 1, LargestOf(t.children));
    }
  }

  lemma {:induction false} PlainsPositive(ts: seq<Loop>, c: Ctx)
    requires PlainTrees(ts, c) && AllSettled(ts)
    ensures ts != [] ==> LargestOf(ts) >= 1
    decreases ts, 0
  {
    if ts != [] {
      assert PlainTree(ts[0], c) && Settled(ts[0]);
      PlainPositive(ts[0], c);
    }
  }

  /** The largest product of the loops is that of one of the nests, or 1. */
  predicate SameLargest(ts: seq<Loop>, nests: seq<Loop>) {
    AllSettled(ts) && AllSettled(nests) && LargestOf(nests) <= LargestOf(ts)
    && (LargestOf(ts) <= 1 || LargestOf(ts) == LargestOf(nests))
  }

  lemma {:induction false} SameLargestConcat(a: seq<Loop>, na: seq<Loop>, b: seq<Loop>, nb: seq<Loop>)
    requires SameLargest(a, na) && SameLargest(b, nb)
    ensures SameLargest(a + b, na + nb)
  {
    LargestConcat(a, b);
    LargestConcat(na, nb);
  }

  lemma {:induction false} OneLargest(t: Loop)
    requires Settled(t)
    ensures AllSettled([t]) && LargestOf([t]) == MaxProduct(t)
  {
    assert [t][1..] == [];
  }

  lemma {:induction false} RegularKeeps(t: Loop)
    requires Settled(t) && t.info.types == [Regular]
    ensures MaxProduct(t) == if t.children == [] then 1 else LargestOf(t.children)
  {
    assert Factor(t.info) == 1;
  }

  lemma {:induction false} OwnLargest(t: Loop, c: Ctx)
    requires PlainTree(t, c) && Settled(t) && SameLargest(t.children, Frontier(t.children))
    ensures SameLargest([t], if Attributed(t) then [t] else Frontier(t.children))
  {
    OneLargest(t);
    if !Attributed(t) { RegularKeeps(t); }
  }

  lemma {:induction false} LargestNest(ts: seq<Loop>, c: Ctx)
    requires PlainTrees(ts, c) && AllSettled(ts)
    ensures SameLargest(ts, Frontier(ts))
    decreases ForestSize(ts)
  {
    if ts != [] {
      var t, rest := ts[0], ts[1..];
      assert PlainTree(t, c) && Settled(t);
      assert ForestSize(ts) == 1 + ForestSize(t.children) + ForestSize(rest);
      LargestNest(t.children, c);
      LargestNest(rest, c);
      OwnLargest(t, c);
      SameLargestConcat([t], if Attributed(t) then [t] else Frontier(t.children), rest, Frontier(rest));
      assert [t] + rest == ts;
    }
  }

  lemma {:induction false} LargestConcat(a: seq<Loop>, b: seq<Loop>)
    requires AllSettled(a) && AllSettled(b)
    ensures AllSettled(a + b)
    ensures LargestOf(a + b) == if LargestOf(a) > LargestOf(b) then LargestOf(a) else LargestOf(b)
  {
    assert AllSettled(a + b);
    if a == [] {
      assert a + b == b;
    } else {
      assert Settled(a[0]) && (a + b)[0] == a[0] && (a + b)[1..] == a[1..] + b;
      LargestConcat(a[1..], b);
    }
  }

  /** Every nest below the outer loop is made of `@inner` loops alone and does not branch. */
  predicate NestChains(ts: seq<Loop>, c: Ctx) {
    forall j :: 0 <= j < |Frontier(ts)| ==> InnerNest(Frontier(ts)[j], c) && Branchless(Frontier(ts)[j])
  }

  /** The largest of all products below the outer loop is kept for one of its children. */
  predicate SomeKeepsLargest(ts: seq<Loop>)
    requires AllSettled(ts)
  {
    exists k :: 0 <= k < |ts| && Settled(ts[k]) && KeepsLargest(ts[k]) && MaxProduct(ts[k]) == LargestOf(ts)
  }

  predicate ProductWithin(ts: seq<Loop>, j: nat, bound: nat) {
    j < |ts| && Settled(ts[j]) && MaxProduct(ts[j]) <= bound
  }

  lemma {:induction false} LargestWithin(ts: seq<Loop>, bound: nat)
    requires AllSettled(ts)
    ensures LargestOf(ts) <= bound <==> forall j :: 0 <= j < |ts| ==> ProductWithin(ts, j, bound)
  {
    LargestFacts(ts);
    if ts != [] {
      var j :| 0 <= j < |ts| && Settled(ts[j]) && MaxProduct(ts[j]) == LargestOf(ts);
      assert ProductWithin(ts, j, bound) ==> LargestOf(ts) <= bound;
    }
  }

  lemma {:induction false} ChainReach(ts: seq<Loop>, j: nat, length: nat, c: Ctx)
    requires PlainTrees(Frontier(ts), c) && NestChains(ts, c) && j < |Frontier(ts)| && Settled(Frontier(ts)[j])
    ensures InsideAt(ts, j, length, c) <==> ProductWithin(Frontier(ts), j, length)
  {
    var x := Frontier(ts)[j];
    FitsExactly(x, length, c);
    NestReach(x, c);
    RunsAgainstPaths(x, c);
  }

  lemma {:induction false} ChainsReach(ts: seq<Loop>, length: nat, c: Ctx)
    requires PlainTrees(ts, c) && AllSettled(ts) && NestChains(ts, c) && length >= 1
    ensures AllInside(ts, length, c) <==> LargestOf(ts) <= length
  {
    NestsArePlain(ts, c);
    LargestNest(ts, c);
    LargestWithin(Frontier(ts), length);
    forall j | 0 <= j < |Frontier(ts)|
      ensures InsideAt(ts, j, length, c) <==> ProductWithin(Frontier(ts), j, length)
    {
      ChainReach(ts, j, length, c);
    }
  }

  /** Nests that do not branch all fit the declared array if and only if the largest product of all is kept for some
    * child of the outer loop; an ordinary loop around the nests keeps it exactly as the launch bound does. */
  lemma {:induction false} ChainsFitExactly(ts: seq<Loop>, h: nat, length: nat, c: Ctx)
    requires PlainTrees(ts, c) && AllSettled(ts) && IsDeclared(ts, length) && NestChains(ts, c) && ts != []
    requires forall j :: 0 <= j < |ts| ==> Settled(ts[j]) && Ranked(ts[j], h)
    ensures AllInside(ts, length, c) <==> SomeKeepsLargest(ts)
  {
    var k := PlainDeclared(ts, h, length, c);
    ChainsReach(ts, length, c);
    LargestFacts(ts);
    forall j | 0 <= j < |ts|
      ensures Product(Sizes(ts[j])) <= MaxProduct(ts[j]) <= LargestOf(ts)
      ensures Product(Sizes(ts[j])) == MaxProduct(ts[j]) <==> KeepsLargest(ts[j])
    {
      LargestBelow(ts[j], h);
      MaxExactly(ts[j], h);
    }
    if LargestOf(ts) <= length {
      assert Product(Sizes(ts[k])) == MaxProduct(ts[k]) == LargestOf(ts);
    }
  }

  // ----- nests directly in the outer loop -----

  lemma {:induction false} ChainKeeps(t: Loop, h: nat)
    requires Settled(t) && Ranked(t, h) && AllKnown(t) && Branchless(t)
    ensures KeepsLargest(t)
    decreases t
  {
    if t.children != [] {
      var k := KeptAt(t, h);
      assert k == 0 && t.children == [t.children[0]];
      ChainKeeps(t.children[0], h - Count(t.info.types, Inner));
      assert LargestOf(t.children) == MaxProduct(t.children[0]);
    }
  }

  /** Nests directly in the outer loop that do not branch always fit. */
  lemma {:induction false} ChainsFit(ts: seq<Loop>, h: nat, length: nat, c: Ctx)
    requires InnerNests(ts, c) && AllSettled(ts) && IsDeclared(ts, length)
    requires forall j :: 0 <= j < |ts| ==> Settled(ts[j]) && Ranked(ts[j], h) && Branchless(ts[j])
    ensures AllInside(ts, length, c)
  {
    NestsAreFrontier(ts, c);
    if ts != [] {
      ChainsFitExactly(ts, h, length, c);
      LargestFacts(ts);
      var k :| 0 <= k < |ts| && Settled(ts[k]) && MaxProduct(ts[k]) == LargestOf(ts);
      PlainKnown(ts[k], c);
      ChainKeeps(ts[k], h);
    }
  }

  /** A nest alone in its outer loop stays inside the declared array if and only if it does not branch: the counter is
    * reset before the whole nest only, while the length is the product along one path. */
  lemma {:induction false} LoneNestFits(t: Loop, h: nat, length: nat, c: Ctx)
    requires InnerNest(t, c) && Settled(t) && Ranked(t, h) && IsDeclared([t], length)
    ensures SlotsInside(t, length, c) <==> Branchless(t)
  {
    var k := PlainDeclared([t], h, length, c);
    assert length == Product(Sizes(t));
    FitsExactly(t, length, c);
    NestReach(t, c);
    RunsAgainstPaths(t, c);
    LargestBelow(t, h);
    if Branchless(t) {
      ChainKeeps(t, h);
      MaxExactly(t, h);
    }
  }

  // ----- nests inside one loop -----

  /** The same uses with the counter k higher. */
  function Moved(uses: seq<Use>, k: nat): (r: seq<Use>)
    ensures |r| == |uses| && forall j :: 0 <= j < |r| ==> r[j] == Use(uses[j].at, uses[j].slot + k)
  {
    seq(|uses|, j requires 0 <= j < |uses| => Use(uses[j].at, uses[j].slot + k))
  }

  /** A run from k is the run from `from`, moved. */
  ghost predicate MovedRun(r: (seq<Use>, nat), base: (seq<Use>, nat), k: nat) {
    r == (Moved(base.0, k), base.1 + k)
  }

  lemma {:induction false} MovedTree(t: Loop, i: nat, m: nat, from: nat, k: nat, c: Ctx)
    requires PlainTree(t, c) && i + m == Trip(t.info, c)
    ensures MovedRun(RunTree(t, i, from + k, c), RunTree(t, i, from, c), k)
    decreases t, 1, m
  {
    if m > 0 {
      var first := RunBody(t, from, c);
      MovedBody(t, from, k, c);
      MovedTree(t, i + 1, m - 1, first.1, k, c);
      TreeUnfold(t, i, from, c);
      TreeUnfold(t, i, from + k, c);
      MovedConcat(i, first.0, RunTree(t, i + 1, first.1, c).0, k);
    }
  }

  lemma {:induction false} MovedConcat(i: int, a: seq<Use>, b: seq<Use>, k: nat)
    ensures Moved(Under(i, a) + b, k) == Under(i, Moved(a, k)) + Moved(b, k)
    ensures Moved(a + b, k) == Moved(a, k) + Moved(b, k)
  {
  }

  lemma {:induction false} MovedBody(t: Loop, from: nat, k: nat, c: Ctx)
    requires PlainTree(t, c)
    ensures MovedRun(RunBody(t, from + k, c), RunBody(t, from, c), k)
    decreases t, 0, 0
  {
    if Bottom(t) {
      assert Moved([Use([], from)], k) == [Use([], from + k)];
    } else {
      MovedTrees(t.children, from, k, c);
    }
  }

  lemma {:induction false} MovedTrees(ts: seq<Loop>, from: nat, k: nat, c: Ctx)
    requires PlainTrees(ts, c)
    ensures MovedRun(RunTrees(ts, from + k, c), RunTrees(ts, from, c), k)
    decreases ts, 0, 0
  {
    if ts != [] {
      assert PlainTree(ts[0], c);
      MovedTree(ts[0], 0, Trip(ts[0].info, c), from, k, c);
      var first := RunTree(ts[0], 0, from, c);
      MovedTrees(ts[1..], first.1, k, c);
      MovedConcat(0, first.0, RunTrees(ts[1..], first.1, c).0, k);
    }
  }

  /** What the loop at `j` uses when the loops are run with the counter at k. */
  function UsesAt(ts: seq<Loop>, j: nat, k: nat, c: Ctx): seq<Use>
    requires PlainTrees(ts, c) && j < |ts|
  {
    assert PlainTree(ts[j], c);
    Moved(UsesOf(ts[j], c), k + StepsOf(ts[..j], c))
  }

  /** It does stand there in the run. */
  lemma {:induction false} UsesInRun(ts: seq<Loop>, j: nat, k: nat, c: Ctx)
    requires PlainTrees(ts, c) && j < |ts|
    ensures StandsIn(UsesAt(ts, j, k, c), RunTrees(ts, k, c).0)
  {
    var x, rest := ts[j], ts[j + 1..];
    assert PlainTree(x, c) && ts[..j] + ([x] + rest) == ts;
    var first := RunTrees(ts[..j], k, c);
    RunConcat(ts[..j], [x] + rest, k, c);
    assert ([x] + rest)[1..] == rest;
    RunUnfold([x] + rest, first.1, c);
    var here := RunTree(x, 0, first.1, c);
    MovedHere(ts, j, k, c);
    InMiddle(first.0, here.0, RunTrees(rest, here.1, c).0);
  }

  lemma {:induction false} MovedHere(ts: seq<Loop>, j: nat, k: nat, c: Ctx)
    requires PlainTrees(ts, c) && j < |ts| && PlainTree(ts[j], c)
    ensures UsesAt(ts, j, k, c) == RunTree(ts[j], 0, RunTrees(ts[..j], k, c).1, c).0
  {
    var k1 := k + StepsOf(ts[..j], c);
    assert RunTrees(ts[..j], k, c).1 == k1 by { EndsAt(ts[..j], k, c); }
    assert UsesAt(ts, j, k, c) == Moved(UsesOf(ts[j], c), k1);
    MovedUses(ts[j], k1, c);
  }

  lemma {:induction false} MovedUses(t: Loop, k: nat, c: Ctx)
    requires PlainTree(t, c)
    ensures RunTree(t, 0, k, c).0 == Moved(UsesOf(t, c), k)
  {
    MovedTree(t, 0, Trip(t.info, c), 0, k, c);
    assert 0 + k == k;
  }

  lemma {:induction false} EndsAt(ts: seq<Loop>, k: nat, c: Ctx)
    requires PlainTrees(ts, c)
    ensures RunTrees(ts, k, c).1 == k + StepsOf(ts, c)
  {
    TreesReach(ts, k, c);
  }

  ghost predicate StandsIn(part: seq<Use>, all: seq<Use>) {
    exists before, after :: all == before + (part + after)
  }

  lemma {:induction false} InMiddle(a: seq<Use>, part: seq<Use>, b: seq<Use>)
    ensures StandsIn(part, a + (part + b))
  {
  }

  function Chained(first: (seq<Use>, nat), rest: (seq<Use>, nat)): (seq<Use>, nat) {
    (first.0 + rest.0, rest.1)
  }

  lemma {:induction false} NothingFirst(r: (seq<Use>, nat), k: nat)
    ensures Chained(([], k), r) == r
  {
    assert [] + r.0 == r.0;
  }

  lemma {:induction false} ChainedAssoc(a: (seq<Use>, nat), b: (seq<Use>, nat), d: (seq<Use>, nat))
    ensures Chained(a, Chained(b, d)) == Chained(Chained(a, b), d)
  {
    assert a.0 + (b.0 + d.0) == (a.0 + b.0) + d.0;
  }

  lemma {:induction false} RunUnfold(ts: seq<Loop>, k: nat, c: Ctx)
    requires PlainTrees(ts, c) && ts != [] && PlainTree(ts[0], c)
    ensures var first := RunTree(ts[0], 0, k, c);
            RunTrees(ts, k, c) == Chained(first, RunTrees(ts[1..], first.1, c))
  {
  }

  lemma {:induction false} RunConcat(a: seq<Loop>, b: seq<Loop>, k: nat, c: Ctx)
    requires PlainTrees(a, c) && PlainTrees(b, c) && PlainTrees(a + b, c)
    ensures var first := RunTrees(a, k, c);
            RunTrees(a + b, k, c) == Chained(first, RunTrees(b, first.1, c))
  {
    if a == [] {
      assert a + b == b;
      NothingFirst(RunTrees(b, k, c), k);
    } else {
      assert PlainTree(a[0], c);
      ConcatParts(a, b);
      var first := RunTree(a[0], 0, k, c);
      RunUnfold(a, k, c);
      RunUnfold(a + b, k, c);
      RunConcat(a[1..], b, first.1, c);
      var mid := RunTrees(a[1..], first.1, c);
      ChainedAssoc(first, mid, RunTrees(b, mid.1, c));
    }
  }

  lemma {:induction false} ConcatParts(a: seq<Loop>, b: seq<Loop>)
    requires a != []
    ensures (a + b)[0] == a[0] && (a + b)[1..] == a[1..] + b
  {
  }

  lemma {:induction false} StepsConcat(a: seq<Loop>, b: seq<Loop>, c: Ctx)
    requires PlainTrees(a, c) && PlainTrees(b, c) && PlainTrees(a + b, c)
    ensures StepsOf(a + b, c) == StepsOf(a, c) + StepsOf(b, c)
  {
    if a == [] {
      assert a + b == b;
    } else {
      assert PlainTree(a[0], c) && (a + b)[0] == a[0] && (a + b)[1..] == a[1..] + b;
      StepsConcat(a[1..], b, c);
    }
  }

  /** Two nests of equal shape inside one loop give an iteration the same slot exactly when the counter is not stepped
    * from the one to the other: it is not reset between them. */
  lemma {:induction false} SubnestsShareSlots(ts: seq<Loop>, a: nat, b: nat, k: nat, c: Ctx)
    requires PlainTrees(ts, c) && a < b < |ts| && SameUses(ts, a, b, c)
    ensures StandsIn(UsesAt(ts, a, k, c), RunTrees(ts, k, c).0) && StandsIn(UsesAt(ts, b, k, c), RunTrees(ts, k, c).0)
    ensures UsesAt(ts, a, k, c) == UsesAt(ts, b, k, c) <==> StepsOf(ts[a..b], c) == 0
  {
    UsesInRun(ts, a, k, c);
    UsesInRun(ts, b, k, c);
    SlotsShared(ts, a, b, k, c);
  }

  lemma {:induction false} SlotsShared(ts: seq<Loop>, a: nat, b: nat, k: nat, c: Ctx)
    requires PlainTrees(ts, c) && a < b < |ts| && SameUses(ts, a, b, c)
    ensures UsesAt(ts, a, k, c) == UsesAt(ts, b, k, c) <==> StepsOf(ts[a..b], c) == 0
  {
    var uses, p, q := UsesOf(ts[a], c), k + StepsOf(ts[..a], c), k + StepsOf(ts[..b], c);
    assert UsesAt(ts, a, k, c) == Moved(uses, p) && UsesAt(ts, b, k, c) == Moved(uses, q);
    assert q == p + StepsOf(ts[a..b], c) by { StepsSlice(ts, a, b, c); }
    MovedSame(uses, p, q);
  }

  /** The two nests have uses, and the same ones when each starts with the counter reset. */
  predicate SameUses(ts: seq<Loop>, a: nat, b: nat, c: Ctx)
    requires PlainTrees(ts, c) && a < b < |ts|
  {
    assert PlainTree(ts[a], c) && PlainTree(ts[b], c);
    UsesOf(ts[a], c) == UsesOf(ts[b], c) != []
  }

  /** So nests of `@inner` loops alone never do. */
  lemma {:induction false} InnerNestsDiffer(ts: seq<Loop>, a: nat, b: nat, k: nat, c: Ctx)
    requires InnerNests(ts, c) && a < b < |ts| && InnerNest(ts[a], c) && SameUses(ts, a, b, c)
    ensures UsesAt(ts, a, k, c) != UsesAt(ts, b, k, c)
  {
    SubnestsShareSlots(ts, a, b, k, c);
    SomethingSteps(ts, a, b, c);
  }

  lemma {:induction false} StepsSlice(ts: seq<Loop>, a: nat, b: nat, c: Ctx)
    requires PlainTrees(ts, c) && a <= b <= |ts|
    ensures StepsOf(ts[..b], c) == StepsOf(ts[..a], c) + StepsOf(ts[a..b], c)
  {
    assert ts[..b] == ts[..a] + ts[a..b];
    StepsConcat(ts[..a], ts[a..b], c);
  }

  lemma {:induction false} MovedSame(uses: seq<Use>, p: nat, q: nat)
    requires uses != []
    ensures Moved(uses, p) == Moved(uses, q) <==> p == q
  {
    assert Moved(uses, p)[0].slot - p == Moved(uses, q)[0].slot - q;
  }

  lemma {:induction false} SomethingSteps(ts: seq<Loop>, a: nat, b: nat, c: Ctx)
    requires InnerNests(ts, c) && a < b < |ts| && InnerNest(ts[a], c) && UsesOf(ts[a], c) != []
    ensures StepsOf(ts[a..b], c) > 0
  {
    assert ts[a..b][0] == ts[a];
    TreeSlots(ts[a], 0, Trip(ts[a].info, c), 0, c);
    TreeReach(ts[a], 0, Trip(ts[a].info, c), 0, c);
  }

  /** On a chain of loops the tree is run as the chain is. */
  lemma {:induction false} ChainIsTree(infos: seq<Info>, i: nat, k: nat, c: Ctx)
    requires infos != [] && ChainOk(infos, c) && AllInner(infos) && PlainTree(ToTree(infos), c)
    ensures RunTree(ToTree(infos), i, k, c) == RunLoop(infos, true, i, k, c)
    decreases |infos|, if i < Trip(infos[0], c) then Trip(infos[0], c) - i else 0
  {
    var t := ToTree(infos);
    if i < Trip(infos[0], c) {
      if |infos| > 1 {
        assert t.children == [ToTree(infos[1..])] && PlainTree(t.children[0], c) && infos[1] == infos[1..][0];
        NotBottom(t);
        ChainIsTree(infos[1..], 0, k, c);
        OneTreeRun(t.children[0], k, c);
      } else {
        assert infos[1..] == [];
      }
      ChainIsTree(infos, i + 1, RunNest(infos[1..], true, k, c).1, c);
    }
  }

  lemma {:induction false} NotBottom(t: Loop)
    requires |t.children| == 1 && t.children[0].info.types == [Inner]
    ensures !Bottom(t)
  {
    assert t.children[0].info.types[0] == Inner;
    assert t.children[0] in Frontier(t.children);
  }

  lemma {:induction false} OneTreeRun(t: Loop, k: nat, c: Ctx)
    requires PlainTree(t, c) && PlainTrees([t], c)
    ensures RunTrees([t], k, c) == RunTree(t, 0, k, c)
  {
    var r := RunTree(t, 0, k, c);
    assert [t][1..] == [];
    assert RunTrees([], r.1, c) == ([], r.1);
    assert r.0 + [] == r.0;
  }
}
