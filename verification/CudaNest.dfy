/** The CUDA code of a nest of loops, one inside the other, thread by thread. */
module CudaNest {
  import opened LoopLang
  import opened LoopHeader
  import opened TileOffsets
  import opened TileCodeGen
  import opened LoopTree
  import opened KernelUtils

  // ----- launch-time expressions -----

  /** Fixed for a launch: no loop variable, no grid index. */
  predicate Closed(e: Expr) {
    match e
    case Lit(_) => true
    case Arg(_) => true
    case Var(_) => false
    case Idx(_, _) => false
    case Plus(l, r) => Closed(l) && Closed(r)
    case Minus(l, r) => Closed(l) && Closed(r)
    case Times(l, r) => Closed(l) && Closed(r)
    case Quot(l, r) => Closed(l) && Closed(r)
  }

  /** The context of the host: arguments only. */
  function Host(c: Ctx): Ctx { Ctx(c.args, [], []) }

  lemma {:induction false} ClosedEval(e: Expr, env: Env, c: Ctx)
    requires Closed(e)
    ensures Eval(e, env, c) == Eval(e, map[], Host(c))
    ensures forall x :: !Mentions(e, x)
  {
    match e
    case Lit(_) =>
    case Arg(_) =>
    case Plus(l, r) => ClosedEval(l, env, c); ClosedEval(r, env, c);
    case Minus(l, r) => ClosedEval(l, env, c); ClosedEval(r, env, c);
    case Times(l, r) => ClosedEval(l, env, c); ClosedEval(r, env, c);
    case Quot(l, r) => ClosedEval(l, env, c); ClosedEval(r, env, c);
  }

  // ----- one loop -----

  function HostWalk(info: Info, c: Ctx): Walk {
    HeaderWalk(info.head, map[], Host(c))
  }

  function TileSize(info: Info, c: Ctx): int {
    Eval(info.size, map[], Host(c))
  }

  /** Trip count of a loop of the nest. */
  function Trip(info: Info, c: Ctx): nat
    requires HostWalk(info, c).step > 0
  {
    Trips(Len(HostWalk(info, c)), HostWalk(info, c).step)
  }

  /** A rectangular loop with a positive step and tile size and a non-negative range. */
  predicate LoopOk(info: Info, c: Ctx) {
    && TypesOk(info.types)
    && Closed(info.head.start) && Closed(info.head.end) && Closed(StepOf(info.head)) && Closed(info.size)
    && Approaches(info.head, map[], Host(c)) && HostWalk(info, c).step > 0
    && TileSize(info, c) > 0 && Len(HostWalk(info, c)) >= 0
  }

  /** What makes the code of one loop cover its range: the exact conditions for two `for` loops, for an index and a
    * `for` loop, and for two indices. */
  predicate LoopCovered(info: Info, c: Ctx)
    requires LoopOk(info, c)
  {
    var w, t, n := HostWalk(info, c), TileSize(info, c), Trip(info, c);
    |info.types| == 2 ==>
      if info.types[0] == Regular then RegularTileFits(w, t, info.check)
      else if info.types[1] == Regular then SerialTileFits(w, t, info.check)
      else info.check || n % t == 0
  }

  /** What makes the code run whole iterations of the loop at all: a block of two `for` loops may start between two. */
  predicate LoopWhole(info: Info, c: Ctx)
    requires LoopOk(info, c)
  {
    |info.types| == 2 && info.types[0] == Regular ==>
      RegularTileFits(HostWalk(info, c), TileSize(info, c), info.check)
  }

  function ParamsOf(info: Info, axes: seq<nat>): TileParams
    requires |info.types| == |axes| == 2
  {
    TileParams(info.size, AttributedLoop(info.types[0], axes[0]), AttributedLoop(info.types[1], axes[1]), info.check)
  }

  /** The CUDA code of one loop around `body`. */
  function CudaLoop(info: Info, axes: seq<nat>, body: Stmt): Stmt
    requires TypesOk(info.types) && |axes| == |info.types|
  {
    if |info.types| == 2 then CudaTile(info.head, ParamsOf(info, axes), body)
    else if info.types[0] == Regular then SourceFor(info.head, body)
    else IndexedLoop(info.head, AttributedLoop(info.types[0], axes[0]), body)
  }

  function Coord(kind: LoopType, axis: nat, c: Ctx): int {
    if kind == Outer then At(c.outer, axis) else At(c.inner, axis)
  }

  /** The positions 0, 1, ... below n. */
  function Upto(lo: int, hi: int): seq<int> { Strided(lo, hi, 1) }

  /** The distances from the start at which one thread runs the body, whatever the loop covers. */
  function ThreadOffsets(info: Info, axes: seq<nat>, c: Ctx): seq<int>
    requires TypesOk(info.types) && |axes| == |info.types| && LoopOk(info, c)
  {
    var w, t, i := HostWalk(info, c), TileSize(info, c), Coord(info.types[0], axes[0], c);
    if |info.types| == 1 then if info.types[0] == Regular then Strided(0, Len(w), w.step) else [w.step * i]
    else if info.types[0] == Regular then Blocks(0, Len(w), t, t, w.step, info.check)
    else
      var a := w.step * (t * i);
      if info.types[1] == Regular then Strided(a, if info.check then Min(a + t, Len(w)) else a + t, w.step)
      else
        var off := w.step * (t * i + Coord(info.types[1], axes[1], c));
        if info.check && off >= Len(w) then [] else [off]
  }

  /** The iterations of a loop, by number, that one thread runs. */
  function ThreadPositions(info: Info, axes: seq<nat>, c: Ctx): seq<int>
    requires TypesOk(info.types) && |axes| == |info.types| && LoopOk(info, c)
  {
    var n, t := Trip(info, c), TileSize(info, c);
    if IsRegular(info.types) then Upto(0, n)
    else
      var i := Coord(info.types[0], axes[0], c);
      if |info.types| == 1 then [i]
      else if info.types[1] == Regular then PassPositions(n, t, PassCount(info, c), i, info.check)
      else
        var q := t * i + Coord(info.types[1], axes[1], c);
        if info.check && q >= n then [] else [q]
  }

  /** Iterations of one pass of a second `for` loop. */
  function PassCount(info: Info, c: Ctx): nat
    requires HostWalk(info, c).step > 0
  {
    Trips(TileSize(info, c), HostWalk(info, c).step)
  }

  /** The iterations of block `i` when each block starts `t` iterations behind the last and runs `m` of them. */
  function PassPositions(n: int, t: int, m: int, i: int, check: bool): seq<int> {
    Upto(t * i, if check then Min(t * i + m, n) else t * i + m)
  }

  /** The values of the loop variable at the given iteration numbers. */
  function AtPositions(w: Walk, qs: seq<int>): (r: seq<int>)
    ensures |r| == |qs| && forall k :: 0 <= k < |r| ==> r[k] == Point(w, w.step * qs[k])
  {
    seq(|qs|, k requires 0 <= k < |qs| => Point(w, w.step * qs[k]))
  }

  lemma {:induction false} StridedPositions(w: Walk, lo: int, hi: int, len: int)
    requires w.step > 0 && forall q :: lo <= q ==> (q < hi <==> w.step * q < len)
    ensures Points(w, Strided(w.step * lo, len, w.step)) == AtPositions(w, Upto(lo, hi))
    decreases hi - lo
  {
    assert lo < hi <==> w.step * lo < len;
    if lo < hi {
      StridedPositions(w, lo + 1, hi, len);
      assert w.step * (lo + 1) == w.step * lo + w.step;
      assert Points(w, [w.step * lo] + Strided(w.step * lo + w.step, len, w.step))
          == [Point(w, w.step * lo)] + Points(w, Strided(w.step * lo + w.step, len, w.step));
      assert AtPositions(w, [lo] + Upto(lo + 1, hi)) == [Point(w, w.step * lo)] + AtPositions(w, Upto(lo + 1, hi));
    }
  }

  /** Iteration `q` lies in the range exactly when q is below the trip count. */
  lemma {:induction false} InRange(len: int, step: int, q: int)
    requires step > 0 && len >= 0
    ensures q < Trips(len, step) <==> step * q < len
  {
    if len > 0 {
      TripsBounds(len, step);
      var n := Trips(len, step);
      if q < n { MulMono(step, q, n - 1); } else { MulMono(step, n, q); }
    } else if q < 0 {
      MulMono(step, q, -1);
    } else {
      MulMono(step, 0, q);
    }
  }

  lemma {:induction false} WholeRange(w: Walk)
    requires w.step > 0 && Len(w) >= 0
    ensures Points(w, Strided(0, Len(w), w.step)) == AtPositions(w, Upto(0, Trips(Len(w), w.step)))
  {
    forall q ensures q < Trips(Len(w), w.step) <==> w.step * q < Len(w) { InRange(Len(w), w.step, q); }
    assert w.step * 0 == 0;
    StridedPositions(w, 0, Trips(Len(w), w.step), Len(w));
  }

  // ----- the code of one loop runs the thread's positions -----

  lemma {:induction false} LoopRuns(info: Info, env: Env, c: Ctx)
    requires LoopOk(info, c)
    ensures Runs(info.head, env, c) && HeaderWalk(info.head, env, c) == HostWalk(info, c)
    ensures Stable(info.size, info.head) && Eval(info.size, env, c) == TileSize(info, c)
  {
    ClosedEval(info.head.start, env, c);
    ClosedEval(info.head.end, env, c);
    ClosedEval(StepOf(info.head), env, c);
    ClosedEval(info.size, env, c);
  }

  lemma {:induction false} EachOne(x: VarName, v: int, s: Stmt, env: Env, c: Ctx)
    ensures ExecEach(x, [v], s, env, c) == Tag(x, v, Exec(s, env[x := v], c))
  {
    MergeUnit(Tag(x, v, Exec(s, env[x := v], c)));
    assert [v][1..] == [];
  }

  lemma {:induction false} OffsetPoint(h: Header, w: Walk, base: Expr, delta: Expr, a: int, env: Env, c: Ctx)
    requires w.up == IsInc(h) && Eval(base, env, c) == Point(w, a)
    ensures Eval(Offset(h, base, delta), env, c) == Point(w, a + Eval(delta, env, c))
  {
  }

  lemma {:induction false} ScaledEval(h: Header, loop: AttributedLoop, env: Env, c: Ctx)
    requires h.inc.Compound? || IsUnary(h)
    ensures Eval(Scaled(h, loop), env, c) == Eval(StepOf(h), env, c) * Coord(loop.kind, loop.axis, c)
  {
  }

  lemma {:induction false} PlainMeaning(info: Info, axes: seq<nat>, body: Stmt, env: Env, c: Ctx)
    requires LoopOk(info, c) && |axes| == |info.types| == 1
    ensures Exec(CudaLoop(info, axes, body), env, c)
            == ExecEach(Src(info.head.name), Points(HostWalk(info, c), ThreadOffsets(info, axes, c)), body, env, c)
  {
    LoopRuns(info, env, c);
    if info.types[0] == Regular {
      SourceMeaning(info.head, body, env, c);
    } else {
      IndexedLoopMeaning(info, AttributedLoop(info.types[0], axes[0]), body, env, c);
      var w, i := HostWalk(info, c), Coord(info.types[0], axes[0], c);
      assert Points(w, [w.step * i]) == [Point(w, w.step * i)];
    }
  }

  lemma {:induction false} IndexedLoopMeaning(info: Info, loop: AttributedLoop, body: Stmt, env: Env, c: Ctx)
    requires LoopOk(info, c)
    ensures var w, i := HostWalk(info, c), Coord(loop.kind, loop.axis, c);
            Exec(IndexedLoop(info.head, loop, body), env, c)
            == ExecEach(Src(info.head.name), [Point(w, w.step * i)], body, env, c)
  {
    LoopRuns(info, env, c);
    var h, w, i := info.head, HostWalk(info, c), Coord(loop.kind, loop.axis, c);
    ScaledEval(h, loop, env, c);
    OffsetPoint(h, w, h.start, Scaled(h, loop), 0, env, c);
    EachOne(Src(h.name), Point(w, w.step * i), body, env, c);
  }

  /** The loop variable after `j` turns of the written loop. */
  function AfterTurns(h: Header, x: int, j: nat, env: Env, c: Ctx): int {
    if j == 0 then x else After(h, AfterTurns(h, x, j - 1, env, c), env, c)
  }

  lemma {:induction false} TurnsAdd(h: Header, x: int, j: nat, env: Env, c: Ctx)
    requires Approaches(h, env, c)
    ensures AfterTurns(h, x, j, env, c) == x + j * After(h, 0, env, c)
  {
    if j > 0 { TurnsAdd(h, x, j - 1, env, c); }
  }

  /** Thread `j` of a plain loop takes the value of turn `j`, whatever moves the variable toward the bound, unless a
    * negative number is added. */
  lemma {:induction false} IndexIsTurn(h: Header, loop: AttributedLoop, env: Env, c: Ctx)
    requires Approaches(h, env, c) && Coord(loop.kind, loop.axis, c) >= 0
    ensures var j := Coord(loop.kind, loop.axis, c);
            Exec(IndexedLoop(h, loop, Body(0)), env, c)
              == Ran([Hit(0, [AfterTurns(h, Eval(h.start, env, c), j, env, c)])])
            <==> j == 0 || !AddsNegative(h, env, c)
  {
    var x, j, d := Eval(h.start, env, c), Coord(loop.kind, loop.axis, c), Eval(StepOf(h), env, c);
    TurnsAdd(h, x, j, env, c);
    ScaledEval(h, loop, env, c);
    var v := Eval(Offset(h, h.start, Scaled(h, loop)), env, c);
    assert v == if IsInc(h) then x + d * j else x - d * j;
    EachOne(Src(h.name), v, Body(0), env, c);
    HitsAreValues(Src(h.name), [v], 0, env, c);
    var r := Exec(IndexedLoop(h, loop, Body(0)), env, c);
    assert r.hits == [Hit(0, [v])] && r.hits[0].at[0] == v;
    NonZero(d, j);
  }

  lemma {:induction false} NonZero(d: int, j: int)
    ensures d * j == 0 <==> d == 0 || j == 0
    ensures d * j == j * d && j * (0 - d) == 0 - d * j && j * 1 == j && j * -1 == -j
  {
  }

  predicate AddsNegative(h: Header, env: Env, c: Ctx) {
    h.inc.Compound? && h.inc.bo == AddAssign && Eval(h.inc.val, env, c) < 0
  }

  lemma {:induction false} BlockDeltaEval(h: Header, size: Expr, loop: AttributedLoop, env: Env, c: Ctx)
    requires h.inc.Compound? || IsUnary(h)
    ensures Eval(BlockDelta(h, size, loop), env, c)
            == (Eval(size, env, c) * Eval(StepOf(h), env, c)) * Coord(loop.kind, loop.axis, c)
  {
    if IsUnary(h) { assert Eval(size, env, c) * 1 == Eval(size, env, c); }
  }

  lemma {:induction false} Regroup(t: int, step: int, i: int)
    ensures (t * step) * i == step * (t * i)
  {
  }

  /** Value of the tiled variable for block index `i`. */
  lemma {:induction false} BlockStart(info: Info, loop: AttributedLoop, rest: Stmt, env: Env, c: Ctx)
    requires LoopOk(info, c)
    ensures var w, t, i := HostWalk(info, c), TileSize(info, c), Coord(loop.kind, loop.axis, c);
            Exec(IndexedFirst(info.head, info.size, loop, rest), env, c)
            == Exec(rest, env[Tiled(info.head.name) := Point(w, w.step * (t * i))], c)
  {
    var h, w, t, i := info.head, HostWalk(info, c), TileSize(info, c), Coord(loop.kind, loop.axis, c);
    LoopRuns(info, env, c);
    BlockDeltaEval(h, info.size, loop, env, c);
    Regroup(t, w.step, i);
    OffsetPoint(h, w, h.start, BlockDelta(h, info.size, loop), 0, env, c);
  }

  /** Value of the loop variable for index `j` inside a block at offset `a`. */
  lemma {:induction false} ThreadValue(info: Info, loop: AttributedLoop, rest: Stmt, env: Env, a: int, c: Ctx)
    requires LoopOk(info, c)
    ensures var h, w, j := info.head, HostWalk(info, c), Coord(loop.kind, loop.axis, c);
            var env' := env[Tiled(h.name) := Point(w, a)];
            var v := Point(w, a + w.step * j);
            Exec(IndexedSecond(h, loop, rest), env', c) == Tag(Src(h.name), v, Exec(rest, env'[Src(h.name) := v], c))
  {
    var h, w := info.head, HostWalk(info, c);
    LoopRuns(info, env, c);
    var env' := env[Tiled(h.name) := Point(w, a)];
    EvalTwoBindings(StepOf(h), h, env, Point(w, a), 0, c);
    ScaledEval(h, loop, env', c);
    OffsetPoint(h, w, Var(Tiled(h.name)), Scaled(h, loop), a, env', c);
  }

  /** What thread (i, j) of a tile does with iteration t * i + j. */
  lemma {:induction false} IndexedTileRun(info: Info, p: TileParams, body: Stmt, env: Env, c: Ctx)
    requires LoopOk(info, c) && p.size == info.size && p.first.kind != Regular && p.second.kind != Regular
    requires !Free(body, Tiled(info.head.name))
    ensures var h, w, x := info.head, HostWalk(info, c), Src(info.head.name);
            var q := TileSize(info, c) * Coord(p.first.kind, p.first.axis, c) + Coord(p.second.kind, p.second.axis, c);
            var v := Point(w, w.step * q);
            Exec(CudaTile(h, p, body), env, c)
            == if p.check && q >= Trip(info, c) then Ran([]) else Tag(x, v, Exec(body, env[x := v], c))
  {
    var h, w, t := info.head, HostWalk(info, c), TileSize(info, c);
    var i, j := Coord(p.first.kind, p.first.axis, c), Coord(p.second.kind, p.second.axis, c);
    var a, q := w.step * (t * i), t * i + j;
    var checked := CheckLine(h, p.check, body);
    BlockStart(info, p.first, IndexedSecond(h, p.second, checked), env, c);
    ThreadValue(info, p.second, checked, env, a, c);
    Distribute(w.step, t * i, j);
    assert Prepend(Point(w, w.step * q), []) == [];
    CheckedAt(info, p.check, body, env, Point(w, a), q, c);
  }

  /** The check lets a thread's iteration through exactly if it is one of the loop. */
  lemma {:induction false} CheckedAt(info: Info, check: bool, body: Stmt, env: Env, a: int, q: int, c: Ctx)
    requires LoopOk(info, c) && !Free(body, Tiled(info.head.name))
    ensures var h, w, v := info.head, HostWalk(info, c), Point(HostWalk(info, c), HostWalk(info, c).step * q);
            Exec(CheckLine(h, check, body), env[Tiled(h.name) := a][Src(h.name) := v], c)
            == if check && q >= Trip(info, c) then Ran([]) else Exec(body, env[Src(h.name) := v], c)
  {
    LoopRuns(info, env, c);
    CheckedBody(info.head, check, body, env, a, HostWalk(info, c).step * q, c);
    InRange(Len(HostWalk(info, c)), HostWalk(info, c).step, q);
  }

  lemma {:induction false} IndexedTileMeaning(info: Info, axes: seq<nat>, body: Stmt, env: Env, c: Ctx)
    requires LoopOk(info, c) && |axes| == |info.types| == 2 && info.types[0] != Regular && info.types[1] != Regular
    requires !Free(body, Tiled(info.head.name))
    ensures Exec(CudaLoop(info, axes, body), env, c)
            == ExecEach(Src(info.head.name), Points(HostWalk(info, c), ThreadOffsets(info, axes, c)), body, env, c)
  {
    var w := HostWalk(info, c);
    IndexedTileRun(info, ParamsOf(info, axes), body, env, c);
    var q := TileSize(info, c) * Coord(info.types[0], axes[0], c) + Coord(info.types[1], axes[1], c);
    InRange(Len(w), w.step, q);
    EachOne(Src(info.head.name), Point(w, w.step * q), body, env, c);
    assert Points(w, []) == [] && Points(w, [w.step * q]) == [Point(w, w.step * q)];
  }

  lemma {:induction false} MixedTileMeaning(info: Info, axes: seq<nat>, body: Stmt, env: Env, c: Ctx)
    requires LoopOk(info, c) && |axes| == |info.types| == 2 && info.types[0] != Regular && info.types[1] == Regular
    requires !Free(body, Tiled(info.head.name))
    ensures Exec(CudaLoop(info, axes, body), env, c)
            == ExecEach(Src(info.head.name), Points(HostWalk(info, c), ThreadOffsets(info, axes, c)), body, env, c)
  {
    MixedTileRun(info, ParamsOf(info, axes), body, env, c);
  }

  /** What block i of a tile with an index and a `for` loop does. */
  lemma {:induction false} MixedTileRun(info: Info, p: TileParams, body: Stmt, env: Env, c: Ctx)
    requires LoopOk(info, c) && p.size == info.size && p.first.kind != Regular && p.second.kind == Regular
    requires !Free(body, Tiled(info.head.name))
    ensures var w, t := HostWalk(info, c), TileSize(info, c);
            var a := w.step * (t * Coord(p.first.kind, p.first.axis, c));
            Exec(CudaTile(info.head, p, body), env, c)
            == ExecEach(Src(info.head.name),
                        Points(w, Strided(a, if p.check then Min(a + t, Len(w)) else a + t, w.step)), body, env, c)
  {
    var h, w, t := info.head, HostWalk(info, c), TileSize(info, c);
    var a := w.step * (t * Coord(p.first.kind, p.first.axis, c));
    BlockStart(info, p.first, RegularSecond(h, p.size, CheckLine(h, p.check, body)), env, c);
    LoopRuns(info, env, c);
    SecondLoopMeaning(h, info.size, p.check, body, env, a, c);
  }

  lemma {:induction false} RegularTileMeaning(info: Info, axes: seq<nat>, body: Stmt, env: Env, c: Ctx)
    requires LoopOk(info, c) && |axes| == |info.types| == 2 && info.types[0] == Regular
    requires !Free(body, Tiled(info.head.name))
    ensures Exec(CudaLoop(info, axes, body), env, c)
            == ExecEach(Src(info.head.name), Points(HostWalk(info, c), ThreadOffsets(info, axes, c)), body, env, c)
  {
    LoopRuns(info, env, c);
    assert info.types[1] == Regular && IsRegular(info.types);
    ForTileMeaning(info.head, info.size, info.size, info.check, body, env, c);
  }

  /** The code of any loop runs its body at the offsets of the thread. */
  lemma {:induction false} CudaLoopMeaning(info: Info, axes: seq<nat>, body: Stmt, env: Env, c: Ctx)
    requires LoopOk(info, c) && |axes| == |info.types| && !Free(body, Tiled(info.head.name))
    ensures Exec(CudaLoop(info, axes, body), env, c)
            == ExecEach(Src(info.head.name), Points(HostWalk(info, c), ThreadOffsets(info, axes, c)), body, env, c)
  {
    if |info.types| == 1 {
      PlainMeaning(info, axes, body, env, c);
    } else if info.types[0] == Regular {
      RegularTileMeaning(info, axes, body, env, c);
    } else if info.types[1] == Regular {
      MixedTileMeaning(info, axes, body, env, c);
    } else {
      IndexedTileMeaning(info, axes, body, env, c);
    }
  }

  // ----- the offsets of a covered loop are iterations of it -----

  /** The pass of block `i` is made of iterations t * i and on. */
  lemma {:induction false} PassIsPositions(w: Walk, n: nat, t: int, i: int, check: bool)
    requires w.step > 0 && t > 0 && Len(w) >= 0 && n == Trips(Len(w), w.step)
    ensures var a := w.step * (t * i);
            Points(w, Strided(a, if check then Min(a + t, Len(w)) else a + t, w.step))
            == AtPositions(w, PassPositions(n, t, Trips(t, w.step), i, check))
  {
    var m, lo := Trips(t, w.step), t * i;
    var a := w.step * lo;
    var hi, len := if check then Min(lo + m, n) else lo + m, if check then Min(a + t, Len(w)) else a + t;
    forall q ensures q < hi <==> w.step * q < len { PassEnd(w.step, t, lo, m, n, Len(w), check, q); }
    StridedPositions(w, lo, hi, len);
  }

  /** Where a pass of `m` iterations from `lo` on ends, by number and by distance. */
  lemma {:induction false} PassEnd(step: int, t: int, lo: int, m: nat, n: nat, len: int, check: bool, q: int)
    requires step > 0 && t > 0 && len >= 0 && m == Trips(t, step) && n == Trips(len, step)
    ensures q < (if check then Min(lo + m, n) else lo + m)
            <==> step * q < if check then Min(step * lo + t, len) else step * lo + t
  {
    InRange(t, step, q - lo);
    Distribute(step, q - lo, lo);
    InRange(len, step, q);
  }

  lemma {:induction false} Distribute(a: int, x: int, y: int)
    ensures a * (x + y) == a * x + a * y
  {
  }

  lemma {:induction false} WholeOffsets(info: Info, axes: seq<nat>, c: Ctx)
    requires LoopOk(info, c) && LoopWhole(info, c) && |axes| == |info.types|
    ensures Points(HostWalk(info, c), ThreadOffsets(info, axes, c))
            == AtPositions(HostWalk(info, c), ThreadPositions(info, axes, c))
  {
    var w, t := HostWalk(info, c), TileSize(info, c);
    if IsRegular(info.types) {
      WholeRange(w);
      if |info.types| == 2 { RegularCover(info, c); }
    } else if |info.types| == 2 && info.types[1] == Regular {
      PassIsPositions(w, Trip(info, c), t, Coord(info.types[0], axes[0], c), info.check);
    } else if |info.types| == 2 {
      InRange(Len(w), w.step, t * Coord(info.types[0], axes[0], c) + Coord(info.types[1], axes[1], c));
    }
  }

  lemma {:induction false} RegularCover(info: Info, c: Ctx)
    requires LoopOk(info, c) && LoopWhole(info, c) && |info.types| == 2 && info.types[0] == Regular
    ensures var w, t := HostWalk(info, c), TileSize(info, c);
            Blocks(0, Len(w), t, t, w.step, info.check) == Strided(0, Len(w), w.step)
  {
    var w, t := HostWalk(info, c), TileSize(info, c);
    BlocksExact(Len(w), t, t, w.step, info.check);
    FullBlock(t, w.step);
  }

  /** Then the code of a loop runs its body over the positions of the thread. */
  lemma {:induction false} WholeLoopMeaning(info: Info, axes: seq<nat>, body: Stmt, env: Env, c: Ctx)
    requires LoopOk(info, c) && LoopWhole(info, c) && |axes| == |info.types| && !Free(body, Tiled(info.head.name))
    ensures Exec(CudaLoop(info, axes, body), env, c)
            == ExecEach(Src(info.head.name), AtPositions(HostWalk(info, c), ThreadPositions(info, axes, c)),
                        body, env, c)
  {
    CudaLoopMeaning(info, axes, body, env, c);
    WholeOffsets(info, axes, c);
  }
}
