/** Where barriers stand in a run that also goes through the loops inside nests. */
module BarrierWalk {
  import opened LoopLang
  import opened LoopTree
  import opened KernelUtils
  import opened LoopLegality
  import opened Barriers

  /** One thread enters child `k` of `p`, leaves it, or waits at a barrier. */
  datatype Move = Enter(p: Loop, k: nat) | Leave(p: Loop, k: nat) | Sync

  // ----- the run -----

  /** The children of `p` from `k` on, with everything inside. */
  function WalkInside(p: Loop, k: nat, path: seq<nat>, trips: Trips): seq<Move>
    requires WellTyped(p)
    decreases p, 0, if k < |p.children| then |p.children| - k else 0
  {
    if k >= |p.children| then [] else WalkChild(p, k, path, trips) + WalkInside(p, k + 1, path, trips)
  }

  function WalkChild(p: Loop, k: nat, path: seq<nat>, trips: Trips): seq<Move>
    requires WellTyped(p) && k < |p.children|
    decreases p.children[k], 2
  {
    assert WellTyped(p.children[k]);
    Around(p, k, WalkTimes(p.children[k], Executions(p.children[k], trips(path + [k])), path + [k], trips))
  }

  function Around(p: Loop, k: nat, body: seq<Move>): seq<Move>
    requires TypesOk(p.info.types) && k < |p.children|
  {
    [Enter(p, k)] + body + [Leave(p, k)] + if ShouldSync(p, k) then [Sync] else []
  }

  /** `n` more executions of the body of `t`. */
  function WalkTimes(t: Loop, n: nat, path: seq<nat>, trips: Trips): seq<Move>
    requires WellTyped(t)
    decreases t, 1, n
  {
    if n == 0 then [] else WalkInside(t, 0, path + [n], trips) + WalkTimes(t, n - 1, path, trips)
  }

  /** One thread of a block running a whole top-level outer loop. */
  function BlockWalk(t: Loop, trips: Trips): seq<Move>
    requires WellTyped(t)
  {
    WalkTimes(t, Executions(t, trips([])), [], trips)
  }

  // ----- a barrier follows exactly the nests it belongs to -----

  predicate Due(m: Move) {
    m.Leave? && TypesOk(m.p.info.types) && m.k < |m.p.children| && !IsNest(m.p) && BarrierDue(m.p, m.k)
  }

  /** Move i is a barrier exactly if the one before it leaves a loop that is due one. */
  predicate SyncedBehind(w: seq<Move>) {
    (w != [] ==> !w[0].Sync?) && (w != [] ==> !Due(w[|w| - 1]))
    && forall i :: 0 < i < |w| ==> (w[i].Sync? <==> Due(w[i - 1]))
  }

  lemma {:induction false} SyncedConcat(a: seq<Move>, b: seq<Move>)
    requires SyncedBehind(a) && SyncedBehind(b)
    ensures SyncedBehind(a + b)
  {
    var w := a + b;
    forall i | 0 < i < |w| ensures w[i].Sync? <==> Due(w[i - 1]) {
      if i > |a| { assert w[i] == b[i - |a|] && w[i - 1] == b[i - |a| - 1]; }
    }
  }

  lemma {:induction false} SyncedAround(p: Loop, k: nat, body: seq<Move>)
    requires TypesOk(p.info.types) && k < |p.children| && SyncedBehind(body)
    ensures SyncedBehind(Around(p, k, body))
  {
    SyncExactly(p, k);
    var last := [Leave(p, k)] + if ShouldSync(p, k) then [Sync] else [];
    SyncedConcat([Enter(p, k)], body);
    SyncedConcat([Enter(p, k)] + body, last);
    assert Around(p, k, body) == [Enter(p, k)] + body + last;
  }

  lemma {:induction false} SyncedInside(p: Loop, k: nat, path: seq<nat>, trips: Trips)
    requires WellTyped(p)
    ensures SyncedBehind(WalkInside(p, k, path, trips))
    decreases p, 0, if k < |p.children| then |p.children| - k else 0
  {
    if k < |p.children| {
      var x := p.children[k];
      assert WellTyped(x);
      var n := Executions(x, trips(path + [k]));
      SyncedTimes(x, n, path + [k], trips);
      SyncedAround(p, k, WalkTimes(x, n, path + [k], trips));
      SyncedInside(p, k + 1, path, trips);
      SyncedConcat(WalkChild(p, k, path, trips), WalkInside(p, k + 1, path, trips));
    }
  }

  lemma {:induction false} SyncedTimes(t: Loop, n: nat, path: seq<nat>, trips: Trips)
    requires WellTyped(t)
    ensures SyncedBehind(WalkTimes(t, n, path, trips))
    decreases t, 1, n
  {
    if n > 0 {
      SyncedInside(t, 0, path + [n], trips);
      SyncedTimes(t, n - 1, path, trips);
      SyncedConcat(WalkInside(t, 0, path + [n], trips), WalkTimes(t, n - 1, path, trips));
    }
  }

  /** In every run a barrier stands exactly behind a child that uses shared memory and is a plain `@inner` loop without
    * `@nobarrier` or a tile of two `@inner` loops, in a parent without an `@inner` type, unless it ends an `@outer`. */
  lemma {:induction false} BarriersStand(t: Loop, trips: Trips)
    requires WellTyped(t)
    ensures SyncedBehind(BlockWalk(t, trips))
  {
    SyncedTimes(t, Executions(t, trips([])), [], trips);
  }

  // ----- barriers inside nests -----

  function Change(m: Move): int {
    match m
    case Enter(p, k) => if k < |p.children| && IsNest(p.children[k]) then 1 else 0
    case Leave(p, k) => if k < |p.children| && IsNest(p.children[k]) then -1 else 0
    case Sync => 0
  }

  /** How many more nests are entered than left. */
  function Opened(w: seq<Move>): int {
    if w == [] then 0 else Change(w[0]) + Opened(w[1..])
  }

  /** With `open` nests around, no barrier is reached while a nest is open. */
  predicate OutsideNests(w: seq<Move>, open: int) {
    w == [] || ((w[0].Sync? ==> open == 0) && OutsideNests(w[1..], open + Change(w[0])))
  }

  /** What the block as a whole does: its nests and the barriers between them. */
  function Outline(w: seq<Move>, open: int): seq<Event> {
    if w == [] then []
    else (if open != 0 then [] else OwnEvent(w[0])) + Outline(w[1..], open + Change(w[0]))
  }

  function OwnEvent(m: Move): seq<Event> {
    match m
    case Enter(p, k) => if k < |p.children| && IsNest(p.children[k]) then [Nest(p.children[k].info.sharedUsed)] else []
    case Leave(_, _) => []
    case Sync => [Barrier]
  }

  lemma {:induction false} WalkConcat(a: seq<Move>, b: seq<Move>, open: int)
    ensures Opened(a + b) == Opened(a) + Opened(b)
    ensures OutsideNests(a + b, open) <==> OutsideNests(a, open) && OutsideNests(b, open + Opened(a))
    ensures Outline(a + b, open) == Outline(a, open) + Outline(b, open + Opened(a))
  {
    if a == [] {
      assert a + b == b;
    } else {
      assert (a + b)[1..] == a[1..] + b;
      WalkConcat(a[1..], b, open + Change(a[0]));
      EventsAssoc(if open != 0 then [] else OwnEvent(a[0]), Outline(a[1..], open + Change(a[0])),
                  Outline(b, open + Opened(a)));
    }
  }

  lemma {:induction false} EventsAssoc(a: seq<Event>, b: seq<Event>, c: seq<Event>)
    ensures a + (b + c) == (a + b) + c
  {
  }

  lemma {:induction false} OneMove(m: Move, open: int)
    ensures Opened([m]) == Change(m) && (OutsideNests([m], open) <==> (m.Sync? ==> open == 0))
    ensures Outline([m], open) == if open != 0 then [] else OwnEvent(m)
  {
    assert [m][1..] == [];
    assert OwnEvent(m) + [] == OwnEvent(m);
  }

  /** What a child adds to a run, given its body. */
  lemma {:induction false} AroundMeaning(p: Loop, k: nat, body: seq<Move>, open: int)
    requires TypesOk(p.info.types) && k < |p.children| && Opened(body) == 0
    ensures var w, inner := Around(p, k, body), open + if IsNest(p.children[k]) then 1 else 0;
            && Opened(w) == 0
            && (OutsideNests(w, open) <==> OutsideNests(body, inner) && (ShouldSync(p, k) ==> open == 0))
            && Outline(w, open)
               == (if open == 0 && IsNest(p.children[k]) then [Nest(p.children[k].info.sharedUsed)] else [])
                  + Outline(body, inner) + (if open == 0 && ShouldSync(p, k) then [Barrier] else [])
  {
    var sync: seq<Move> := if ShouldSync(p, k) then [Sync] else [];
    var inner := open + Change(Enter(p, k));
    OneMove(Enter(p, k), open);
    OneMove(Leave(p, k), inner);
    if ShouldSync(p, k) { OneMove(Sync, open); }
    FourParts([Enter(p, k)], body, [Leave(p, k)], sync, open);
  }

  lemma {:induction false} FourParts(a: seq<Move>, b: seq<Move>, c: seq<Move>, d: seq<Move>, open: int)
    requires Opened(b) == 0 && Opened(a) + Opened(c) == 0
    ensures Opened(a + b + c + d) == Opened(d)
    ensures OutsideNests(a + b + c + d, open) <==>
            OutsideNests(a, open) && OutsideNests(b, open + Opened(a)) && OutsideNests(c, open + Opened(a))
            && OutsideNests(d, open)
    ensures Outline(a + b + c + d, open)
            == Outline(a, open) + Outline(b, open + Opened(a)) + Outline(c, open + Opened(a)) + Outline(d, open)
  {
    WalkConcat(a, b, open);
    WalkConcat(a + b, c, open);
    WalkConcat(a + b + c, d, open);
  }

  /** Every walk leaves what it enters. */
  lemma {:induction false} ClosedInside(p: Loop, k: nat, path: seq<nat>, trips: Trips)
    requires WellTyped(p)
    ensures Opened(WalkInside(p, k, path, trips)) == 0
    decreases p, 0, if k < |p.children| then |p.children| - k else 0
  {
    if k < |p.children| {
      ClosedChild(p, k, path, trips);
      ClosedInside(p, k + 1, path, trips);
      ClosedConcat(WalkChild(p, k, path, trips), WalkInside(p, k + 1, path, trips));
    }
  }

  lemma {:induction false} ClosedConcat(a: seq<Move>, b: seq<Move>)
    requires Opened(a) == 0 && Opened(b) == 0
    ensures Opened(a + b) == 0
    ensures forall open :: OutsideNests(a + b, open) <==> OutsideNests(a, open) && OutsideNests(b, open)
    ensures forall open :: Outline(a + b, open) == Outline(a, open) + Outline(b, open)
  {
    WalkConcat(a, b, 0);
    forall open
      ensures (OutsideNests(a + b, open) <==> OutsideNests(a, open) && OutsideNests(b, open))
              && Outline(a + b, open) == Outline(a, open) + Outline(b, open)
    {
      WalkConcat(a, b, open);
    }
  }

  lemma {:induction false} ClosedChild(p: Loop, k: nat, path: seq<nat>, trips: Trips)
    requires WellTyped(p) && k < |p.children|
    ensures Opened(WalkChild(p, k, path, trips)) == 0
    decreases p.children[k], 2
  {
    var x := p.children[k];
    assert WellTyped(x);
    var n := Executions(x, trips(path + [k]));
    ClosedTimes(x, n, path + [k], trips);
    AroundMeaning(p, k, WalkTimes(x, n, path + [k], trips), 0);
  }

  lemma {:induction false} ClosedTimes(t: Loop, n: nat, path: seq<nat>, trips: Trips)
    requires WellTyped(t)
    ensures Opened(WalkTimes(t, n, path, trips)) == 0
    decreases t, 1, n
  {
    if n > 0 {
      ClosedInside(t, 0, path + [n], trips);
      ClosedTimes(t, n - 1, path, trips);
      ClosedConcat(WalkInside(t, 0, path + [n], trips), WalkTimes(t, n - 1, path, trips));
    }
  }

  /** A child is a body between entering and leaving, seen with `open` nests around. */
  lemma {:induction false} ChildMeaning(p: Loop, k: nat, path: seq<nat>, trips: Trips, open: int)
    requires WellTyped(p) && k < |p.children|
    ensures WellTyped(p.children[k])
    ensures var x := p.children[k];
            var body := WalkTimes(x, Executions(x, trips(path + [k])), path + [k], trips);
            var w, inner := WalkChild(p, k, path, trips), open + if IsNest(x) then 1 else 0;
            && Opened(w) == 0
            && (OutsideNests(w, open) <==> OutsideNests(body, inner) && (ShouldSync(p, k) ==> open == 0))
            && Outline(w, open) == (if open == 0 && IsNest(x) then [Nest(x.info.sharedUsed)] else [])
                                   + Outline(body, inner) + (if open == 0 && ShouldSync(p, k) then [Barrier] else [])
  {
    var x := p.children[k];
    assert WellTyped(x);
    var n := Executions(x, trips(path + [k]));
    ClosedTimes(x, n, path + [k], trips);
    AroundMeaning(p, k, WalkTimes(x, n, path + [k], trips), open);
  }

  lemma {:induction false} InsideUnfold(p: Loop, k: nat, path: seq<nat>, trips: Trips, open: int)
    requires WellTyped(p) && k < |p.children|
    ensures var w, first, rest := WalkInside(p, k, path, trips), WalkChild(p, k, path, trips),
                                  WalkInside(p, k + 1, path, trips);
            && (OutsideNests(w, open) <==> OutsideNests(first, open) && OutsideNests(rest, open))
            && Outline(w, open) == Outline(first, open) + Outline(rest, open)
  {
    ClosedChild(p, k, path, trips);
    ClosedInside(p, k + 1, path, trips);
    ClosedConcat(WalkChild(p, k, path, trips), WalkInside(p, k + 1, path, trips));
  }

  lemma {:induction false} TimesUnfold(t: Loop, n: nat, path: seq<nat>, trips: Trips, open: int)
    requires WellTyped(t) && n > 0
    ensures var w, first, rest := WalkTimes(t, n, path, trips), WalkInside(t, 0, path + [n], trips),
                                  WalkTimes(t, n - 1, path, trips);
            && (OutsideNests(w, open) <==> OutsideNests(first, open) && OutsideNests(rest, open))
            && Outline(w, open) == Outline(first, open) + Outline(rest, open)
  {
    ClosedInside(t, 0, path + [n], trips);
    ClosedTimes(t, n - 1, path, trips);
    ClosedConcat(WalkInside(t, 0, path + [n], trips), WalkTimes(t, n - 1, path, trips));
  }

  lemma {:induction false} DueIsNest(p: Loop, k: nat)
    requires TypesOk(p.info.types) && k < |p.children|
    ensures BarrierDue(p, k) || ShouldSync(p, k) ==> IsNest(p.children[k])
  {
    var types := p.children[k].info.types;
    if |types| > 0 { assert types[0] in types; }
  }

  // ----- the block's run is the outline of the walk -----

  /** Inside a nest nothing shows. */
  lemma {:induction false} HiddenInside(p: Loop, k: nat, path: seq<nat>, trips: Trips, open: int)
    requires WellTyped(p) && open > 0
    ensures Outline(WalkInside(p, k, path, trips), open) == []
    decreases p, 0, if k < |p.children| then |p.children| - k else 0
  {
    if k < |p.children| {
      var x := p.children[k];
      ChildMeaning(p, k, path, trips, open);
      HiddenTimes(x, Executions(x, trips(path + [k])), path + [k], trips, open + if IsNest(x) then 1 else 0);
      HiddenInside(p, k + 1, path, trips, open);
      InsideUnfold(p, k, path, trips, open);
    }
  }

  lemma {:induction false} HiddenTimes(t: Loop, n: nat, path: seq<nat>, trips: Trips, open: int)
    requires WellTyped(t) && open > 0
    ensures Outline(WalkTimes(t, n, path, trips), open) == []
    decreases t, 1, n
  {
    if n > 0 {
      HiddenInside(t, 0, path + [n], trips, open);
      HiddenTimes(t, n - 1, path, trips, open);
      TimesUnfold(t, n, path, trips, open);
    }
  }

  lemma {:induction false} OutlineInside(p: Loop, k: nat, path: seq<nat>, trips: Trips)
    requires WellTyped(p)
    ensures Outline(WalkInside(p, k, path, trips), 0) == RunInside(p, k, path, trips)
    decreases p, 0, if k < |p.children| then |p.children| - k else 0
  {
    if k < |p.children| {
      OutlineChild(p, k, path, trips);
      OutlineInside(p, k + 1, path, trips);
      InsideUnfold(p, k, path, trips, 0);
    }
  }

  lemma {:induction false} OutlineChild(p: Loop, k: nat, path: seq<nat>, trips: Trips)
    requires WellTyped(p) && k < |p.children|
    ensures Outline(WalkChild(p, k, path, trips), 0) == RunChild(p, k, path, trips)
    decreases p.children[k], 2
  {
    var x := p.children[k];
    ChildMeaning(p, k, path, trips, 0);
    var n := Executions(x, trips(path + [k]));
    if IsNest(x) {
      HiddenTimes(x, n, path + [k], trips, 1);
    } else {
      OutlineTimes(x, n, path + [k], trips);
      DueIsNest(p, k);
      assert [] + Outline(WalkTimes(x, n, path + [k], trips), 0) + [] == RunTimes(x, n, path + [k], trips);
    }
  }

  lemma {:induction false} OutlineTimes(t: Loop, n: nat, path: seq<nat>, trips: Trips)
    requires WellTyped(t)
    ensures Outline(WalkTimes(t, n, path, trips), 0) == RunTimes(t, n, path, trips)
    decreases t, 1, n
  {
    if n > 0 {
      OutlineInside(t, 0, path + [n], trips);
      OutlineTimes(t, n - 1, path, trips);
      TimesUnfold(t, n, path, trips, 0);
    }
  }

  /** What BarrierSafety speaks of is the walk with the insides of its nests left out. */
  lemma {:induction false} BlockIsOutline(t: Loop, trips: Trips)
    requires WellTyped(t) && !IsNest(t)
    ensures RunBlock(t, trips) == Outline(BlockWalk(t, trips), 0)
  {
    OutlineTimes(t, Executions(t, trips([])), [], trips);
  }

  // ----- when no barrier stands inside a nest -----

  /** Nothing inside is due a barrier. */
  predicate NoneDue(p: Loop)
    requires WellTyped(p)
    decreases p
  {
    forall k :: 0 <= k < |p.children| ==>
      !(!IsNest(p) && BarrierDue(p, k)) && (assert WellTyped(p.children[k]); NoneDue(p.children[k]))
  }

  /** Nothing inside a nest is. */
  predicate NestsQuiet(t: Loop)
    requires WellTyped(t)
    decreases t, 1
  {
    if IsNest(t) then NoneDue(t) else QuietFrom(t, 0)
  }

  predicate QuietFrom(p: Loop, k: nat)
    requires WellTyped(p)
    decreases p, 0, if k < |p.children| then |p.children| - k else 0
  {
    k >= |p.children| || (assert WellTyped(p.children[k]); NestsQuiet(p.children[k]) && QuietFrom(p, k + 1))
  }

  predicate NoneDueFrom(p: Loop, k: nat)
    requires WellTyped(p)
  {
    forall j :: k <= j < |p.children| ==>
      !(!IsNest(p) && BarrierDue(p, j)) && (assert WellTyped(p.children[j]); NoneDue(p.children[j]))
  }

  /** Loops run twice, or once: with a nest around, the walk meets no barrier exactly if none is due inside. */
  lemma {:induction false} QuietInside(p: Loop, k: nat, path: seq<nat>, trips: Trips, open: int)
    requires WellTyped(p) && open > 0
    ensures NoneDueFrom(p, k) ==> OutsideNests(WalkInside(p, k, path, trips), open)
    ensures trips == TWICE && !NoneDueFrom(p, k) ==> !OutsideNests(WalkInside(p, k, path, trips), open)
    decreases p, 0, if k < |p.children| then |p.children| - k else 0
  {
    if k < |p.children| {
      var x := p.children[k];
      SyncExactly(p, k);
      ChildMeaning(p, k, path, trips, open);
      QuietTimes(x, Executions(x, trips(path + [k])), path + [k], trips, open + if IsNest(x) then 1 else 0);
      QuietInside(p, k + 1, path, trips, open);
      InsideUnfold(p, k, path, trips, open);
      assert NoneDueFrom(p, k) <==> !(!IsNest(p) && BarrierDue(p, k)) && NoneDue(x) && NoneDueFrom(p, k + 1);
    }
  }

  lemma {:induction false} QuietTimes(t: Loop, n: nat, path: seq<nat>, trips: Trips, open: int)
    requires WellTyped(t) && open > 0
    ensures NoneDue(t) ==> OutsideNests(WalkTimes(t, n, path, trips), open)
    ensures trips == TWICE && n > 0 && !NoneDue(t) ==> !OutsideNests(WalkTimes(t, n, path, trips), open)
    decreases t, 1, n
  {
    if n > 0 {
      QuietInside(t, 0, path + [n], trips, open);
      QuietTimes(t, n - 1, path, trips, open);
      TimesUnfold(t, n, path, trips, open);
      assert NoneDue(t) <==> NoneDueFrom(t, 0);
    }
  }

  lemma {:induction false} OutsideInside(p: Loop, k: nat, path: seq<nat>, trips: Trips)
    requires WellTyped(p) && !IsNest(p)
    ensures QuietFrom(p, k) ==> OutsideNests(WalkInside(p, k, path, trips), 0)
    ensures trips == TWICE && !QuietFrom(p, k) ==> !OutsideNests(WalkInside(p, k, path, trips), 0)
    decreases p, 0, if k < |p.children| then |p.children| - k else 0
  {
    if k < |p.children| {
      var x := p.children[k];
      ChildMeaning(p, k, path, trips, 0);
      var n := Executions(x, trips(path + [k]));
      if IsNest(x) { QuietTimes(x, n, path + [k], trips, 1); } else { OutsideTimes(x, n, path + [k], trips); }
      OutsideInside(p, k + 1, path, trips);
      InsideUnfold(p, k, path, trips, 0);
      assert NestsQuiet(x) <==> if IsNest(x) then NoneDue(x) else QuietFrom(x, 0);
      assert QuietFrom(p, k) <==> NestsQuiet(x) && QuietFrom(p, k + 1);
    }
  }

  lemma {:induction false} OutsideTimes(t: Loop, n: nat, path: seq<nat>, trips: Trips)
    requires WellTyped(t) && !IsNest(t)
    ensures QuietFrom(t, 0) ==> OutsideNests(WalkTimes(t, n, path, trips), 0)
    ensures trips == TWICE && n > 0 && !QuietFrom(t, 0) ==> !OutsideNests(WalkTimes(t, n, path, trips), 0)
    decreases t, 1, n
  {
    if n > 0 {
      OutsideInside(t, 0, path + [n], trips);
      OutsideTimes(t, n - 1, path, trips);
      TimesUnfold(t, n, path, trips, 0);
    }
  }

  /** No run of the loop reaches a barrier inside a nest if and only if nothing inside a nest is due one: no loop there
    * that would be, with an ordinary loop directly around it. */
  lemma {:induction false} BarriersOutsideNests(t: Loop)
    requires WellTyped(t)
    ensures (forall trips: Trips :: OutsideNests(BlockWalk(t, trips), if IsNest(t) then 1 else 0)) <==> NestsQuiet(t)
  {
    forall trips: Trips
      ensures NestsQuiet(t) ==> OutsideNests(BlockWalk(t, trips), if IsNest(t) then 1 else 0)
      ensures trips == TWICE && !NestsQuiet(t) ==> !OutsideNests(BlockWalk(t, trips), if IsNest(t) then 1 else 0)
    {
      var n := Executions(t, trips([]));
      if IsNest(t) { QuietTimes(t, n, [], trips, 1); } else { OutsideTimes(t, n, [], trips); }
    }
    if !NestsQuiet(t) {
      var twice: Trips := TWICE;
      assert !OutsideNests(BlockWalk(t, twice), if IsNest(t) then 1 else 0);
    }
  }

  // ----- a shape that suffices -----

  /** Without an ordinary loop around an attributed one the direct-parent check leaves only `@inner` loops in a nest. */
  lemma {:induction false} DirectNestsQuiet(t: Loop, parent: seq<LoopType>)
    requires WellTyped(t) && DirectlyLegal(t, parent) && NoRegularBetween(t)
    ensures NestsQuiet(t)
    decreases t, 1
  {
    if IsNest(t) { LegalNestQuiet(t, parent); } else { DirectQuietFrom(t, 0); }
  }

  lemma {:induction false} DirectQuietFrom(p: Loop, k: nat)
    requires WellTyped(p) && NoRegularBetween(p)
    requires forall j :: 0 <= j < |p.children| ==> DirectlyLegal(p.children[j], p.info.types)
    ensures QuietFrom(p, k)
    decreases p, 0, if k < |p.children| then |p.children| - k else 0
  {
    if k < |p.children| {
      assert WellTyped(p.children[k]);
      DirectNestsQuiet(p.children[k], p.info.types);
      DirectQuietFrom(p, k + 1);
    }
  }

  /** Loops directly in a nest are nests themselves, or ordinary ones without attributed loops. */
  lemma {:induction false} LegalNestQuiet(t: Loop, parent: seq<LoopType>)
    requires WellTyped(t) && DirectlyLegal(t, parent) && NoRegularBetween(t)
    requires IsNest(t) || !Attributed(t)
    ensures NoneDue(t)
    decreases t
  {
    forall k | 0 <= k < |t.children|
      ensures !(!IsNest(t) && BarrierDue(t, k)) && WellTyped(t.children[k]) && NoneDue(t.children[k])
    {
      var x := t.children[k];
      assert WellTyped(x) && NoRegularBetween(x) && DirectlyLegal(x, t.info.types);
      if Attributed(t) { InNest(t, x); } else { FrontierAt(t.children, k); }
      LegalNestQuiet(x, t.info.types);
      DueIsNest(t, k);
    }
  }

  lemma {:induction false} InNest(t: Loop, x: Loop)
    requires WellTyped(t) && WellTyped(x) && IsNest(t) && Legal(x.info.types, t.info.types)
    ensures IsNest(x) || !Attributed(x)
  {
    var types, kinds := t.info.types, x.info.types;
    if |types| == 2 { assert types == [types[0], types[1]]; } else { assert types == [types[0]]; }
    if |kinds| == 2 { assert kinds == [kinds[0], kinds[1]]; } else { assert kinds == [kinds[0]]; }
    InnerLast(types);
    if Attributed(x) { OuterFirst(kinds); }
  }

  lemma {:induction false} InnerLast(types: seq<LoopType>)
    requires TypesOk(types) && Inner in types && Nested(types)
    ensures LastType(types) == Inner
  {
    if |types| == 1 {
      assert types[1..] == [];
    } else {
      assert types[1..] == [types[1]] && types[1..][1..] == [];
      assert !(types[0] == Inner && types[1] == Outer);
      assert Erase(types[1..]) == if types[1] == Regular then [] else [types[1]];
    }
  }

  lemma {:induction false} OuterFirst(types: seq<LoopType>)
    requires TypesOk(types) && !IsRegular(types)
    ensures FirstType(types) == types[0] != Regular
  {
  }
}
