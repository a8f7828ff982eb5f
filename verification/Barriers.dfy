/** Automatic barriers after nests of @inner loops that use shared memory. */
module Barriers {
  import opened LoopLang
  import opened LoopTree
  import opened KernelUtils

  /** Whether a barrier is emitted after child `k` of `parent`. `@nobarrier` is looked at before the test for an
    * `@inner` loop, and only after it for a tile. */
  predicate ShouldSync(parent: Loop, k: nat)
    requires TypesOk(parent.info.types) && k < |parent.children|
  {
    var t, last := parent.children[k].info, parent.info.types[|parent.info.types| - 1];
    && t.sharedUsed && !(t.nobarrier && |t.types| == 1)
    && (t.types == [Inner] || t.types == [Inner, Inner])
    && !Has(parent, Inner)
    && !(last == Outer && k == |parent.children| - 1)
  }

  // ----- runs -----

  /** Events of one block: a nest of @inner loops, or a barrier. */
  datatype Event = Nest(used: bool) | Barrier

  /** What the trip counts and tile checks come to at each place of the run. */
  type Trips = seq<nat> -> nat

  predicate IsNest(t: Loop) { Has(t, Inner) }

  /** An ordinary loop, or a tile whose second loop is one. */
  predicate Repeats(t: Loop)
    requires TypesOk(t.info.types)
  {
    t.info.types[|t.info.types| - 1] == Regular
  }

  /** How often one block runs the body: an ordinary loop as often as it likes, an `@outer` loop once, and a checked
    * tile of two `@outer` loops at most once. */
  function Executions(t: Loop, n: nat): nat
    requires TypesOk(t.info.types)
  {
    if Repeats(t) then n else if |t.info.types| == 2 && t.info.check && n == 0 then 0 else 1
  }

  /** The children of `p` from `k` on, one after the other. */
  function RunInside(p: Loop, k: nat, path: seq<nat>, trips: Trips): seq<Event>
    requires WellTyped(p)
    decreases p, 0, if k < |p.children| then |p.children| - k else 0
  {
    if k >= |p.children| then [] else RunChild(p, k, path, trips) + RunInside(p, k + 1, path, trips)
  }

  function RunChild(p: Loop, k: nat, path: seq<nat>, trips: Trips): seq<Event>
    requires WellTyped(p) && k < |p.children|
    decreases p.children[k], 2
  {
    assert WellTyped(p.children[k]);
    if IsNest(p.children[k]) then NestEvents(p, k)
    else RunTimes(p.children[k], Executions(p.children[k], trips(path + [k])), path + [k], trips)
  }

  function NestEvents(p: Loop, k: nat): seq<Event>
    requires WellTyped(p) && k < |p.children|
  {
    [Nest(p.children[k].info.sharedUsed)] + if ShouldSync(p, k) then [Barrier] else []
  }

  /** `n` more executions of the body of `t`. */
  function RunTimes(t: Loop, n: nat, path: seq<nat>, trips: Trips): seq<Event>
    requires WellTyped(t)
    decreases t, 1, n
  {
    if n == 0 then [] else RunInside(t, 0, path + [n], trips) + RunTimes(t, n - 1, path, trips)
  }

  /** One block running a whole top-level outer loop, with all the outer and ordinary loops inside. */
  function RunBlock(t: Loop, trips: Trips): seq<Event>
    requires WellTyped(t)
  {
    if IsNest(t) then [Nest(t.info.sharedUsed)] else RunTimes(t, Executions(t, trips([])), [], trips)
  }

  /** A barrier lies between any nest that uses shared memory and every later nest. */
  ghost predicate Safe(run: seq<Event>) {
    forall i, j :: 0 <= i < j < |run| && run[i] == Nest(true) && run[j].Nest?
      ==> exists b :: i < b < j && run[b] == Barrier
  }

  // ----- the condition -----

  /** Child k is a nest or has one somewhere inside. */
  predicate NestAt(p: Loop, k: nat)
    requires k < |p.children|
  {
    IsNest(p.children[k]) || HasNest(p.children[k])
  }

  predicate HasNest(t: Loop) {
    exists k :: 0 <= k < |t.children| && (IsNest(t.children[k]) || HasNest(t.children[k]))
  }

  predicate NestFrom(p: Loop, k: nat) {
    exists j :: k <= j < |p.children| && NestAt(p, j)
  }

  /** Where a barrier belongs, by the tree alone: behind a plain `@inner` loop without `@nobarrier` or a tile of two
    * `@inner` loops that uses shared memory, unless it is the last thing in a loop that ends in `@outer`. */
  predicate BarrierDue(p: Loop, k: nat)
    requires TypesOk(p.info.types) && k < |p.children|
  {
    var t := p.children[k].info;
    && t.sharedUsed && (t.types == [Inner, Inner] || (t.types == [Inner] && !t.nobarrier))
    && (k + 1 < |p.children| || p.info.types[|p.info.types| - 1] != Outer)
  }

  /** Outside nests barriers are emitted exactly there, and none directly inside a loop with an `@inner` type. */
  lemma {:induction false} SyncExactly(p: Loop, k: nat)
    requires TypesOk(p.info.types) && k < |p.children|
    ensures ShouldSync(p, k) <==> !IsNest(p) && BarrierDue(p, k)
  {
  }

  /** A nest that uses shared memory and gets no barrier. */
  predicate Unsynced(p: Loop, k: nat)
    requires TypesOk(p.info.types) && k < |p.children|
  {
    IsNest(p.children[k]) && p.children[k].info.sharedUsed && !BarrierDue(p, k)
  }

  /** Every nest inside that uses shared memory has its barrier. */
  predicate AllSynced(p: Loop)
    requires WellTyped(p)
    decreases p, 0
  {
    forall k :: 0 <= k < |p.children| ==> SyncedAt(p, k)
  }

  predicate SyncedAt(p: Loop, k: nat)
    requires WellTyped(p) && k < |p.children|
    decreases p.children[k], 1
  {
    assert WellTyped(p.children[k]);
    if IsNest(p.children[k]) then !Unsynced(p, k) else AllSynced(p.children[k])
  }

  /** Only nests that nothing inside `p` follows are without their barrier. */
  predicate LastOnly(p: Loop)
    requires WellTyped(p)
    decreases p, 0
  {
    forall k :: 0 <= k < |p.children| ==> LastOnlyAt(p, k)
  }

  predicate LastOnlyAt(p: Loop, k: nat)
    requires WellTyped(p) && k < |p.children|
    decreases p.children[k], 2
  {
    assert WellTyped(p.children[k]);
    if NestFrom(p, k + 1) then SyncedAt(p, k) else IsNest(p.children[k]) || Suffices(p.children[k])
  }

  /** No nest inside `t` is left without a barrier where anything inside can follow it. */
  predicate Suffices(t: Loop)
    requires WellTyped(t)
    decreases t, 1
  {
    if Repeats(t) then AllSynced(t) else LastOnly(t)
  }

  predicate BarriersSuffice(t: Loop)
    requires WellTyped(t)
  {
    IsNest(t) || Suffices(t)
  }

  // ----- sufficient -----

  /** Safe, and still safe whatever nest comes next. */
  ghost predicate Guarded(run: seq<Event>) {
    Safe(run) && forall i :: 0 <= i < |run| && run[i] == Nest(true) ==> exists b :: i < b < |run| && run[b] == Barrier
  }

  lemma {:induction false} GuardedThenSafe(a: seq<Event>, b: seq<Event>)
    requires Guarded(a) && Safe(b)
    ensures Safe(a + b)
    ensures Guarded(b) ==> Guarded(a + b)
  {
    var s := a + b;
    forall i, j | 0 <= i < j < |s| && s[i] == Nest(true) && s[j].Nest?
      ensures exists m :: i < m < j && s[m] == Barrier {
      if j < |a| {
        var m :| i < m < j && a[m] == Barrier;
        assert s[m] == Barrier;
      } else if i < |a| {
        var m :| i < m < |a| && a[m] == Barrier;
        assert s[m] == Barrier;
      } else {
        assert b[i - |a|] == Nest(true) && b[j - |a|].Nest?;
        var m :| i - |a| < m < j - |a| && b[m] == Barrier;
        assert s[|a| + m] == Barrier;
      }
    }
    if Guarded(b) {
      forall i | 0 <= i < |s| && s[i] == Nest(true) ensures exists m :: i < m < |s| && s[m] == Barrier {
        if i < |a| {
          var m :| i < m < |a| && a[m] == Barrier;
          assert s[m] == Barrier;
        } else {
          assert b[i - |a|] == Nest(true);
          var m :| i - |a| < m < |b| && b[m] == Barrier;
          assert s[|a| + m] == Barrier;
        }
      }
    }
  }

  lemma {:induction false} NestGuarded(p: Loop, k: nat)
    requires !IsNest(p)
    requires WellTyped(p) && k < |p.children| && IsNest(p.children[k])
    ensures Safe(NestEvents(p, k))
    ensures !Unsynced(p, k) ==> Guarded(NestEvents(p, k))
  {
    if ShouldSync(p, k) { assert NestEvents(p, k)[1] == Barrier; }
  }

  lemma {:induction false} GuardedBody(p: Loop, k: nat, path: seq<nat>, trips: Trips)
    requires !IsNest(p)
    requires WellTyped(p) && AllSynced(p)
    ensures Guarded(RunInside(p, k, path, trips))
    decreases p, 0, if k < |p.children| then |p.children| - k else 0
  {
    if k < |p.children| {
      GuardedChild(p, k, path, trips);
      GuardedBody(p, k + 1, path, trips);
      GuardedThenSafe(RunChild(p, k, path, trips), RunInside(p, k + 1, path, trips));
    }
  }

  lemma {:induction false} GuardedChild(p: Loop, k: nat, path: seq<nat>, trips: Trips)
    requires !IsNest(p)
    requires WellTyped(p) && k < |p.children| && SyncedAt(p, k)
    ensures Guarded(RunChild(p, k, path, trips))
    decreases p.children[k], 2
  {
    var x := p.children[k];
    assert WellTyped(x);
    if IsNest(x) { NestGuarded(p, k); } else { GuardedTimes(x, Executions(x, trips(path + [k])), path + [k], trips); }
  }

  lemma {:induction false} GuardedTimes(t: Loop, n: nat, path: seq<nat>, trips: Trips)
    requires !IsNest(t)
    requires WellTyped(t) && AllSynced(t)
    ensures Guarded(RunTimes(t, n, path, trips))
    decreases t, 1, n
  {
    if n > 0 {
      GuardedBody(t, 0, path + [n], trips);
      GuardedTimes(t, n - 1, path, trips);
      GuardedThenSafe(RunInside(t, 0, path + [n], trips), RunTimes(t, n - 1, path, trips));
    }
  }

  lemma {:induction false} NothingRuns(p: Loop, k: nat, path: seq<nat>, trips: Trips)
    requires WellTyped(p) && !NestFrom(p, k)
    ensures RunInside(p, k, path, trips) == []
    decreases p, 0, if k < |p.children| then |p.children| - k else 0
  {
    if k < |p.children| {
      assert !NestAt(p, k);
      var x := p.children[k];
      assert WellTyped(x);
      NothingRepeats(x, Executions(x, trips(path + [k])), path + [k], trips);
      NothingRuns(p, k + 1, path, trips);
    }
  }

  lemma {:induction false} NothingRepeats(t: Loop, n: nat, path: seq<nat>, trips: Trips)
    requires WellTyped(t) && !HasNest(t)
    ensures RunTimes(t, n, path, trips) == []
    decreases t, 1, n
  {
    if n > 0 {
      NothingRuns(t, 0, path + [n], trips);
      NothingRepeats(t, n - 1, path, trips);
    }
  }

  /** A body that runs once: a nest may stay without barrier if nothing follows. */
  lemma {:induction false} SafeBody(p: Loop, k: nat, path: seq<nat>, trips: Trips)
    requires !IsNest(p)
    requires WellTyped(p) && LastOnly(p)
    ensures Safe(RunInside(p, k, path, trips))
    decreases p, 0, if k < |p.children| then |p.children| - k else 0
  {
    if k < |p.children| {
      assert LastOnlyAt(p, k);
      var here, rest := RunChild(p, k, path, trips), RunInside(p, k + 1, path, trips);
      if NestFrom(p, k + 1) {
        GuardedChild(p, k, path, trips);
        SafeBody(p, k + 1, path, trips);
        GuardedThenSafe(here, rest);
      } else {
        NothingRuns(p, k + 1, path, trips);
        SafeChild(p, k, path, trips);
        assert here + rest == here;
      }
    }
  }

  lemma {:induction false} SafeChild(p: Loop, k: nat, path: seq<nat>, trips: Trips)
    requires !IsNest(p)
    requires WellTyped(p) && k < |p.children| && WellTyped(p.children[k])
    requires IsNest(p.children[k]) || Suffices(p.children[k])
    ensures Safe(RunChild(p, k, path, trips))
    decreases p.children[k], 3
  {
    var x := p.children[k];
    if IsNest(x) { NestGuarded(p, k); } else { SafeTimes(x, trips(path + [k]), path + [k], trips); }
  }

  lemma {:induction false} SafeTimes(t: Loop, n: nat, path: seq<nat>, trips: Trips)
    requires !IsNest(t)
    requires WellTyped(t) && Suffices(t)
    ensures Safe(RunTimes(t, Executions(t, n), path, trips))
    decreases t, 1
  {
    if Repeats(t) {
      GuardedTimes(t, n, path, trips);
    } else if Executions(t, n) == 1 {
      SafeBody(t, 0, path + [1], trips);
      assert RunTimes(t, 0, path, trips) == [];
      var once := RunInside(t, 0, path + [1], trips);
      assert RunTimes(t, 1, path, trips) == once + [] == once;
    }
  }

  // ----- necessary -----

  /** A nest that uses shared memory directly followed by another nest. */
  ghost predicate Race(run: seq<Event>) {
    exists i :: 0 <= i < |run| - 1 && run[i] == Nest(true) && run[i + 1].Nest?
  }

  predicate StartsWithNest(run: seq<Event>) {
    run == [] || run[0].Nest?
  }

  lemma {:induction false} RaceConcat(a: seq<Event>, b: seq<Event>)
    ensures Race(a) || Race(b) ==> Race(a + b)
    ensures a != [] && a[|a| - 1] == Nest(true) && b != [] && StartsWithNest(b) ==> Race(a + b)
    ensures StartsWithNest(a) && StartsWithNest(b) ==> StartsWithNest(a + b)
  {
    var s := a + b;
    if Race(a) {
      var i :| 0 <= i < |a| - 1 && a[i] == Nest(true) && a[i + 1].Nest?;
      assert s[i] == Nest(true) && s[i + 1].Nest?;
    } else if Race(b) {
      var i :| 0 <= i < |b| - 1 && b[i] == Nest(true) && b[i + 1].Nest?;
      assert s[|a| + i] == Nest(true) && s[|a| + i + 1].Nest?;
    } else if a != [] && a[|a| - 1] == Nest(true) && b != [] && StartsWithNest(b) {
      assert s[|a| - 1] == Nest(true) && s[|a| - 1 + 1].Nest?;
    }
  }

  const TWICE: Trips := path => 2

  function RunTwice(t: Loop, path: seq<nat>): seq<Event>
    requires WellTyped(t)
  {
    RunTimes(t, Executions(t, 2), path, TWICE)
  }

  lemma {:induction false} TwiceUnfold(t: Loop, path: seq<nat>)
    requires WellTyped(t)
    ensures Repeats(t) ==> RunTwice(t, path) == RunInside(t, 0, path + [2], TWICE) + RunInside(t, 0, path + [1], TWICE)
    ensures !Repeats(t) ==> RunTwice(t, path) == RunInside(t, 0, path + [1], TWICE)
  {
    var once := RunInside(t, 0, path + [1], TWICE);
    assert RunTimes(t, 0, path, TWICE) == [];
    assert RunTimes(t, 1, path, TWICE) == once + [] == once;
    if Repeats(t) { assert RunTimes(t, 2, path, TWICE) == RunInside(t, 0, path + [2], TWICE) + once; }
  }

  lemma {:induction false} ChildTwice(p: Loop, k: nat, path: seq<nat>)
    requires WellTyped(p) && k < |p.children| && WellTyped(p.children[k])
    ensures RunChild(p, k, path, TWICE)
            == if IsNest(p.children[k]) then NestEvents(p, k) else RunTwice(p.children[k], path + [k])
  {
    assert TWICE(path + [k]) == 2;
  }

  /** With every ordinary loop run twice, what holds a nest runs one, and a run starts with a nest. */
  lemma {:induction false} BodyStarts(p: Loop, k: nat, path: seq<nat>)
    requires WellTyped(p)
    ensures StartsWithNest(RunInside(p, k, path, TWICE)) && (NestFrom(p, k) ==> RunInside(p, k, path, TWICE) != [])
    decreases p, 0, if k < |p.children| then |p.children| - k else 0
  {
    if k < |p.children| {
      ChildStarts(p, k, path);
      BodyStarts(p, k + 1, path);
      RaceConcat(RunChild(p, k, path, TWICE), RunInside(p, k + 1, path, TWICE));
      assert NestFrom(p, k) ==> NestAt(p, k) || NestFrom(p, k + 1);
    }
  }

  lemma {:induction false} ChildStarts(p: Loop, k: nat, path: seq<nat>)
    requires WellTyped(p) && k < |p.children|
    ensures StartsWithNest(RunChild(p, k, path, TWICE)) && (NestAt(p, k) ==> RunChild(p, k, path, TWICE) != [])
    decreases p.children[k], 2
  {
    assert WellTyped(p.children[k]);
    ChildTwice(p, k, path);
    if !IsNest(p.children[k]) { TwiceStarts(p.children[k], path + [k]); }
  }

  lemma {:induction false} TwiceStarts(t: Loop, path: seq<nat>)
    requires WellTyped(t)
    ensures StartsWithNest(RunTwice(t, path)) && (HasNest(t) ==> RunTwice(t, path) != [])
    decreases t, 1
  {
    BodyStarts(t, 0, path + [1]);
    BodyStarts(t, 0, path + [2]);
    TwiceUnfold(t, path);
    RaceConcat(RunInside(t, 0, path + [2], TWICE), RunInside(t, 0, path + [1], TWICE));
    if HasNest(t) { NestInside(t); }
  }

  lemma {:induction false} NestInside(t: Loop)
    requires HasNest(t)
    ensures NestFrom(t, 0)
  {
    var k :| 0 <= k < |t.children| && (IsNest(t.children[k]) || HasNest(t.children[k]));
    assert NestAt(t, k);
  }

  /** Something in the run races, or will with the next nest. */
  ghost predicate RaceOrOpen(run: seq<Event>) {
    run != [] && (Race(run) || run[|run| - 1] == Nest(true))
  }

  lemma {:induction false} RaceThen(a: seq<Event>, b: seq<Event>)
    requires StartsWithNest(b) && (RaceOrOpen(a) || RaceOrOpen(b))
    ensures RaceOrOpen(a + b)
  {
    RaceConcat(a, b);
    if b == [] { assert a + b == a; }
  }

  /** A body with an unsynced nest from child k on. */
  lemma {:induction false} BodyOpens(p: Loop, k: nat, path: seq<nat>)
    requires !IsNest(p)
    requires WellTyped(p) && exists j :: k <= j < |p.children| && !SyncedAt(p, j)
    ensures RaceOrOpen(RunInside(p, k, path, TWICE))
    decreases p, 0, if k < |p.children| then |p.children| - k else 0
  {
    BodyStarts(p, k + 1, path);
    if SyncedAt(p, k) { BodyOpens(p, k + 1, path); } else { ChildOpens(p, k, path); }
    RaceThen(RunChild(p, k, path, TWICE), RunInside(p, k + 1, path, TWICE));
  }

  lemma {:induction false} ChildOpens(p: Loop, k: nat, path: seq<nat>)
    requires !IsNest(p)
    requires WellTyped(p) && k < |p.children| && !SyncedAt(p, k)
    ensures RaceOrOpen(RunChild(p, k, path, TWICE))
    decreases p.children[k], 2
  {
    assert WellTyped(p.children[k]);
    ChildTwice(p, k, path);
    if IsNest(p.children[k]) {
      assert NestEvents(p, k) == [Nest(true)] + [];
    } else {
      TwiceOpens(p.children[k], path + [k]);
    }
  }

  lemma {:induction false} TwiceOpens(t: Loop, path: seq<nat>)
    requires !IsNest(t)
    requires WellTyped(t) && !AllSynced(t)
    ensures RaceOrOpen(RunTwice(t, path)) && (Repeats(t) ==> Race(RunTwice(t, path)))
    decreases t, 1
  {
    BodyOpens(t, 0, path + [1]);
    BodyOpens(t, 0, path + [2]);
    BodyStarts(t, 0, path + [1]);
    TwiceUnfold(t, path);
    if Repeats(t) {
      RaceConcat(RunInside(t, 0, path + [2], TWICE), RunInside(t, 0, path + [1], TWICE));
    }
  }

  /** A body in which something follows an unsynced nest. */
  lemma {:induction false} BodyRaces(p: Loop, j: nat, k: nat, path: seq<nat>)
    requires !IsNest(p)
    requires WellTyped(p) && j <= k < |p.children| && !LastOnlyAt(p, k)
    ensures Race(RunInside(p, j, path, TWICE))
    decreases p, 0, k - j
  {
    if j < k { BodyRaces(p, j + 1, k, path); } else { ChildRaces(p, k, path); }
    RaceConcat(RunChild(p, j, path, TWICE), RunInside(p, j + 1, path, TWICE));
  }

  lemma {:induction false} ChildRaces(p: Loop, k: nat, path: seq<nat>)
    requires !IsNest(p)
    requires WellTyped(p) && k < |p.children| && !LastOnlyAt(p, k)
    ensures Race(RunChild(p, k, path, TWICE) + RunInside(p, k + 1, path, TWICE))
    decreases p.children[k], 2
  {
    var here, rest := RunChild(p, k, path, TWICE), RunInside(p, k + 1, path, TWICE);
    assert WellTyped(p.children[k]);
    if NestFrom(p, k + 1) {
      ChildOpens(p, k, path);
      BodyStarts(p, k + 1, path);
    } else {
      ChildTwice(p, k, path);
      TwiceRaces(p.children[k], path + [k]);
    }
    RaceConcat(here, rest);
  }

  lemma {:induction false} TwiceRaces(t: Loop, path: seq<nat>)
    requires !IsNest(t)
    requires WellTyped(t) && !Suffices(t)
    ensures Race(RunTwice(t, path))
    decreases t, 1
  {
    if Repeats(t) {
      TwiceOpens(t, path);
    } else {
      assert !LastOnly(t);
      var k :| 0 <= k < |t.children| && !LastOnlyAt(t, k);
      BodyRaces(t, 0, k, path + [1]);
      TwiceUnfold(t, path);
    }
  }

  lemma {:induction false} RaceIsUnsafe(run: seq<Event>)
    requires Race(run)
    ensures !Safe(run)
  {
    var i :| 0 <= i < |run| - 1 && run[i] == Nest(true) && run[i + 1].Nest?;
    var j := i + 1;
    assert run[i] == Nest(true) && run[j].Nest?;
  }

  /** For any tree of outer, ordinary and inner loops, and any trip counts: the emitted barriers separate each nest that
    * uses shared memory from all later nests that the block runs, exactly when no such nest is left without a barrier
    * where anything can follow it. */
  lemma {:induction false} BarrierSafety(t: Loop)
    requires WellTyped(t)
    ensures (forall trips: Trips :: Safe(RunBlock(t, trips))) <==> BarriersSuffice(t)
  {
    if BarriersSuffice(t) {
      forall trips: Trips ensures Safe(RunBlock(t, trips)) {
        if !IsNest(t) { SafeTimes(t, trips([]), [], trips); }
      }
    } else {
      TwiceRaces(t, []);
      RaceIsUnsafe(RunBlock(t, TWICE));
    }
  }

  // ----- plain nests -----

  /** All nests are plain `@inner` or `@tile(T, @inner, @inner)` loops without `@nobarrier`. */
  predicate PlainNests(t: Loop) {
    forall k :: 0 <= k < |t.children| ==>
      if IsNest(t.children[k])
      then (t.children[k].info.types == [Inner] || t.children[k].info.types == [Inner, Inner])
        && !t.children[k].info.nobarrier
      else PlainNests(t.children[k])
  }

  /** A nest that is left without a barrier is the last thing in a loop of `@outer` iterations. */
  predicate EndsOuter(p: Loop, k: nat)
    requires TypesOk(p.info.types) && k < |p.children|
  {
    IsNest(p.children[k]) && p.children[k].info.sharedUsed && !Repeats(p) && k == |p.children| - 1
  }

  /** No such nest anywhere inside `t`. */
  predicate NoneEndsOuter(t: Loop)
    requires WellTyped(t)
    decreases t
  {
    forall k :: 0 <= k < |t.children| ==>
      !EndsOuter(t, k) && (IsNest(t.children[k]) || (assert WellTyped(t.children[k]); NoneEndsOuter(t.children[k])))
  }

  /** Around plain nests a barrier is missing exactly behind the nests that end the body of an `@outer` loop. */
  lemma {:induction false} PlainSynced(t: Loop)
    requires WellTyped(t) && PlainNests(t) && !IsNest(t)
    ensures AllSynced(t) <==> NoneEndsOuter(t)
    decreases t
  {
    forall k | 0 <= k < |t.children|
      ensures WellTyped(t.children[k])
      ensures IsNest(t.children[k]) ==> (Unsynced(t, k) <==> EndsOuter(t, k))
      ensures !IsNest(t.children[k]) ==> (AllSynced(t.children[k]) <==> NoneEndsOuter(t.children[k]))
    {
      assert WellTyped(t.children[k]);
      if IsNest(t.children[k]) { PlainUnsynced(t, k); } else { PlainSynced(t.children[k]); }
    }
    SyncedEverywhere(t);
  }

  lemma {:induction false} SyncedEverywhere(t: Loop)
    requires WellTyped(t)
    ensures AllSynced(t) <==> forall k :: 0 <= k < |t.children| ==>
              WellTyped(t.children[k]) && if IsNest(t.children[k]) then !Unsynced(t, k) else AllSynced(t.children[k])
  {
    assert forall k :: 0 <= k < |t.children| ==> WellTyped(t.children[k]);
    assert forall k :: 0 <= k < |t.children| ==>
             (SyncedAt(t, k) <==> if IsNest(t.children[k]) then !Unsynced(t, k) else AllSynced(t.children[k]));
  }

  lemma {:induction false} PlainUnsynced(t: Loop, k: nat)
    requires WellTyped(t) && PlainNests(t) && !IsNest(t) && k < |t.children| && IsNest(t.children[k])
    ensures Unsynced(t, k) <==> EndsOuter(t, k)
  {
    var types := t.info.types;
    assert types[|types| - 1] in types;
  }

  /** One `@outer` loop with ordinary loops and plain nests inside is safe in every run of one block, also when a second
    * tile loop repeats it. */
  lemma {:induction false} PlainNestsAreSafe(t: Loop, trips: Trips)
    requires WellTyped(t) && PlainNests(t) && !IsNest(t) && NoOuterInside(t)
    ensures Safe(RunBlock(t, trips))
  {
    BarrierSafety(t);
    if Repeats(t) {
      PlainSynced(t);
      NoneEnds(t);
    } else {
      forall k | 0 <= k < |t.children| ensures LastOnlyAt(t, k) { PlainLastOnly(t, k); }
      assert LastOnly(t);
    }
  }

  /** The loops inside, up to the nests, are ordinary ones. */
  predicate NoOuterInside(t: Loop) {
    forall k :: 0 <= k < |t.children| ==>
      IsNest(t.children[k]) || (IsRegular(t.children[k].info.types) && NoOuterInside(t.children[k]))
  }

  lemma {:induction false} NoneEnds(t: Loop)
    requires WellTyped(t) && Repeats(t) && NoOuterInside(t)
    ensures NoneEndsOuter(t)
    decreases t
  {
    forall k | 0 <= k < |t.children| && !IsNest(t.children[k])
      ensures WellTyped(t.children[k]) && NoneEndsOuter(t.children[k])
    {
      assert WellTyped(t.children[k]);
      NoneEnds(t.children[k]);
    }
  }

  lemma {:induction false} PlainLastOnly(t: Loop, k: nat)
    requires WellTyped(t) && PlainNests(t) && !IsNest(t) && !Repeats(t) && NoOuterInside(t) && k < |t.children|
    ensures LastOnlyAt(t, k)
  {
    var x := t.children[k];
    assert WellTyped(x);
    if IsNest(x) {
      PlainUnsynced(t, k);
    } else {
      PlainSynced(x);
      NoneEnds(x);
    }
  }
}
