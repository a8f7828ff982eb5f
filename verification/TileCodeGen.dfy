/** The code generators for `@tile`, `@outer` and `@inner` loops, and what the generated code means. */
module TileCodeGen {
  import opened LoopLang
  import opened LoopHeader
  import opened TileOffsets

  datatype AttributedLoop = AttributedLoop(kind: LoopType, axis: nat)

  datatype TileParams = TileParams(size: Expr, first: AttributedLoop, second: AttributedLoop, check: bool)

  // ----- pieces shared by the generators -----

  function Offset(h: Header, base: Expr, delta: Expr): Expr {
    if IsInc(h) then Plus(base, delta) else Minus(base, delta)
  }

  /** `if (i < end)`, or nothing when the check is switched off. */
  function CheckLine(h: Header, check: bool, body: Stmt): Stmt {
    if check then If(Var(Src(h.name)), h.cmp, h.end, body) else body
  }

  /** `for (tiled = start; tiled < end; tiled += stride)` */
  function RegularFirst(h: Header, stride: Expr, rest: Stmt): Stmt {
    For(Tiled(h.name), h.start, h.cmp, h.end, IsInc(h), stride, rest)
  }

  /** `for (i = tiled; i < tiled + size; i += step)` */
  function RegularSecond(h: Header, size: Expr, rest: Stmt): Stmt {
    For(Src(h.name), Var(Tiled(h.name)), if IsInc(h) then Lt else Gt, Offset(h, Var(Tiled(h.name)), size),
        IsInc(h), StepOf(h), rest)
  }

  lemma {:induction false} OffsetMentions(h: Header, base: Expr, delta: Expr, x: VarName)
    ensures Mentions(Offset(h, base, delta), x) <==> Mentions(base, x) || Mentions(delta, x)
  {
  }

  // ----- CUDA -----

  function IdxVariable(loop: AttributedLoop): Expr {
    Idx(loop.kind, loop.axis)
  }

  /** `tiled = start + (size * step) * idx` */
  function IndexedFirst(h: Header, size: Expr, loop: AttributedLoop, rest: Stmt): Stmt {
    Let(Tiled(h.name), Offset(h, h.start, BlockDelta(h, size, loop)), rest)
  }

  function BlockDelta(h: Header, size: Expr, loop: AttributedLoop): Expr {
    if IsUnary(h) then Times(size, IdxVariable(loop)) else Times(Times(size, StepOf(h)), IdxVariable(loop))
  }

  /** `i = tiled + step * idx` */
  function IndexedSecond(h: Header, loop: AttributedLoop, rest: Stmt): Stmt {
    Let(Src(h.name), Offset(h, Var(Tiled(h.name)), Scaled(h, loop)), rest)
  }

  function Scaled(h: Header, loop: AttributedLoop): Expr {
    if IsUnary(h) then IdxVariable(loop) else Times(StepOf(h), IdxVariable(loop))
  }

  /** `i = start + step * idx`, for a plain `@outer` or `@inner` loop. */
  function IndexedLoop(h: Header, loop: AttributedLoop, body: Stmt): Stmt {
    Let(Src(h.name), Offset(h, h.start, Scaled(h, loop)), body)
  }

  function CudaTile(h: Header, p: TileParams, body: Stmt): Stmt {
    var checked := CheckLine(h, p.check, body);
    var second := if p.second.kind == Regular then RegularSecond(h, p.size, checked)
      else IndexedSecond(h, p.second, checked);
    if p.first.kind == Regular then RegularFirst(h, p.size, second) else IndexedFirst(h, p.size, p.first, second)
  }

  // ----- serial -----

  function SerialStride(h: Header, size: Expr): Expr {
    if h.inc.Compound? then Times(size, h.inc.val) else size
  }

  function SerialTile(h: Header, p: TileParams, body: Stmt): Stmt {
    RegularFirst(h, SerialStride(h, p.size), RegularSecond(h, p.size, CheckLine(h, p.check, body)))
  }

  // ----- meaning of the `for` tile -----

  /** The loop moves toward its bound by a positive step, and its bound does not move with its own variable. */
  predicate Runs(h: Header, env: Env, c: Ctx) {
    && Approaches(h, env, c) && Eval(StepOf(h), env, c) > 0
    && Stable(h.start, h) && Stable(h.end, h) && Stable(StepOf(h), h)
  }

  predicate Stable(e: Expr, h: Header) {
    !Mentions(e, Src(h.name)) && !Mentions(e, Tiled(h.name))
  }

  lemma {:induction false} EvalTwoBindings(e: Expr, h: Header, env: Env, p: int, v: int, c: Ctx)
    requires Stable(e, h)
    ensures Eval(e, env[Tiled(h.name) := p], c) == Eval(e, env, c)
    ensures Eval(e, env[Tiled(h.name) := p][Src(h.name) := v], c) == Eval(e, env, c)
  {
    EvalIrrelevant(e, env, Tiled(h.name), p, c);
    EvalIrrelevant(e, env[Tiled(h.name) := p], Src(h.name), v, c);
  }

  /** One check-guarded execution of the body below both bindings. */
  lemma {:induction false} CheckedBody(h: Header, check: bool, body: Stmt, env: Env, p: int, off: int, c: Ctx)
    requires Runs(h, env, c) && !Free(body, Tiled(h.name))
    ensures var w := HeaderWalk(h, env, c);
            Exec(CheckLine(h, check, body), env[Tiled(h.name) := p][Src(h.name) := Point(w, off)], c)
            == if check && off >= Len(w) then Ran([]) else Exec(body, env[Src(h.name) := Point(w, off)], c)
  {
    var w := HeaderWalk(h, env, c);
    var v := Point(w, off);
    EvalTwoBindings(h.end, h, env, p, v, c);
    Rebind(Src(h.name), v, body, env, Tiled(h.name), p, c);
  }

  /** A pass over offsets b, b + step, ... below hi, with the check cutting it at the range. */
  lemma {:induction false} PassMeaning(h: Header, check: bool, body: Stmt, env: Env, p: int, b: int, hi: int, c: Ctx)
    requires Runs(h, env, c) && !Free(body, Tiled(h.name))
    ensures var w := HeaderWalk(h, env, c);
            ExecEach(Src(h.name), Points(w, Strided(b, hi, w.step)), CheckLine(h, check, body),
              env[Tiled(h.name) := p], c)
            == ExecEach(Src(h.name), Points(w, Strided(b, if check then Min(hi, Len(w)) else hi, w.step)), body, env, c)
  {
    var w, line, env1 := HeaderWalk(h, env, c), CheckLine(h, check, body), env[Tiled(h.name) := p];
    forall off ensures OneStep(line, body, h.name, w, check, env1, env, off, c) {
      CheckedBody(h, check, body, env, p, off, c);
    }
    StepByStep(line, body, h.name, w, check, env1, env, b, hi, c);
  }

  /** The checked line at distance `off` runs the body, or nothing behind the end. */
  predicate OneStep(line: Stmt, body: Stmt, name: string, w: Walk, check: bool, env1: Env, env: Env, off: int, c: Ctx) {
    Exec(line, env1[Src(name) := Point(w, off)], c)
    == if check && off >= Len(w) then Ran([]) else Exec(body, env[Src(name) := Point(w, off)], c)
  }

  lemma {:induction false} StepByStep(line: Stmt, body: Stmt, name: string, w: Walk, check: bool, env1: Env, env: Env,
                                      b: int, hi: int, c: Ctx)
    requires w.step > 0 && forall off :: OneStep(line, body, name, w, check, env1, env, off, c)
    ensures ExecEach(Src(name), Points(w, Strided(b, hi, w.step)), line, env1, c)
            == ExecEach(Src(name), Points(w, Strided(b, if check then Min(hi, Len(w)) else hi, w.step)), body, env, c)
    decreases hi - b
  {
    var cut := if check then Min(hi, Len(w)) else hi;
    if b < hi {
      EachStrided(Src(name), w, b, hi, w.step, line, env1, c);
      assert OneStep(line, body, name, w, check, env1, env, b, c);
      StepByStep(line, body, name, w, check, env1, env, b + w.step, hi, c);
      CutStep(body, name, w, env, b, cut, c);
    }
  }

  /** The first of the steps below the cut, or none at all. */
  lemma {:induction false} CutStep(body: Stmt, name: string, w: Walk, env: Env, b: int, cut: int, c: Ctx)
    requires w.step > 0
    ensures ExecEach(Src(name), Points(w, Strided(b, cut, w.step)), body, env, c)
            == Merge(Tag(Src(name), Point(w, b),
                         if b < cut then Exec(body, env[Src(name) := Point(w, b)], c) else Ran([])),
                     ExecEach(Src(name), Points(w, Strided(b + w.step, cut, w.step)), body, env, c))
  {
    if b < cut {
      EachStrided(Src(name), w, b, cut, w.step, body, env, c);
    } else {
      assert Strided(b, cut, w.step) == [] == Strided(b + w.step, cut, w.step);
      MergeUnit(ExecEach(Src(name), [], body, env, c));
    }
  }

  lemma {:induction false} ShiftedPoints(w: Walk, b: int, lo: int, hi: int)
    requires w.step > 0
    ensures Points(w.(start := Point(w, b)), Strided(lo, hi, w.step)) == Points(w, Strided(b + lo, b + hi, w.step))
    decreases hi - lo
  {
    if lo < hi {
      ShiftedPoints(w, b, lo + w.step, hi);
      var w2 := w.(start := Point(w, b));
      assert Points(w2, [lo] + Strided(lo + w.step, hi, w.step))
             == [Point(w2, lo)] + Points(w2, Strided(lo + w.step, hi, w.step));
      assert Points(w, [b + lo] + Strided(b + lo + w.step, b + hi, w.step))
          == [Point(w, b + lo)] + Points(w, Strided(b + lo + w.step, b + hi, w.step));
    }
  }

  /** The second loop of a tile, started at offset `b`, runs the body over one block. */
  lemma {:induction false} SecondLoopMeaning(h: Header, size: Expr, check: bool, body: Stmt, env: Env, b: int, c: Ctx)
    requires Runs(h, env, c) && Stable(size, h) && !Free(body, Tiled(h.name))
    ensures var w, t := HeaderWalk(h, env, c), Eval(size, env, c);
            Exec(RegularSecond(h, size, CheckLine(h, check, body)), env[Tiled(h.name) := Point(w, b)], c)
            == ExecEach(Src(h.name), Points(w, Strided(b, if check then Min(b + t, Len(w)) else b + t, w.step)), body,
               env, c)
  {
    var w, t := HeaderWalk(h, env, c), Eval(size, env, c);
    var second := RegularSecond(h, size, CheckLine(h, check, body));
    var env' := env[Tiled(h.name) := Point(w, b)];
    SecondWalk(h, size, CheckLine(h, check, body), env, b, c);
    var w2 := WalkOf(second, env', c);
    assert Exec(second, env', c) == ExecEach(Src(h.name), Points(w2, Strided(0, t, w.step)), CheckLine(h, check, body),
             env', c) by {
      ExecFor(second, env', c);
    }
    ShiftedPoints(w, b, 0, t);
    PassMeaning(h, check, body, env, Point(w, b), b, b + t, c);
  }

  lemma {:induction false} SecondWalk(h: Header, size: Expr, inner: Stmt, env: Env, b: int, c: Ctx)
    requires Runs(h, env, c) && Stable(size, h)
    ensures var w, t := HeaderWalk(h, env, c), Eval(size, env, c);
            var w2 := WalkOf(RegularSecond(h, size, inner), env[Tiled(h.name) := Point(w, b)], c);
            && Len(w2) == t && w2.step == w.step && Directed(w2.cmp, w2.up)
            && forall offs :: Points(w2, offs) == Points(w.(start := Point(w, b)), offs)
  {
    var w := HeaderWalk(h, env, c);
    EvalTwoBindings(size, h, env, Point(w, b), 0, c);
    EvalTwoBindings(StepOf(h), h, env, Point(w, b), 0, c);
  }

  lemma {:induction false} EachStrided(x: VarName, w: Walk, b: int, hi: int, step: int, s: Stmt, env: Env, c: Ctx)
    requires step > 0 && b < hi
    ensures ExecEach(x, Points(w, Strided(b, hi, step)), s, env, c)
            == Merge(Tag(x, Point(w, b), Exec(s, env[x := Point(w, b)], c)),
                     ExecEach(x, Points(w, Strided(b + step, hi, step)), s, env, c))
  {
    var rest := Strided(b + step, hi, step);
    assert Points(w, [b] + rest)[1..] == Points(w, rest);
  }

  lemma {:induction false} EachConcatPoints(x: VarName, w: Walk, p: seq<int>, q: seq<int>, s: Stmt, env: Env, c: Ctx)
    ensures ExecEach(x, Points(w, p + q), s, env, c)
            == Merge(ExecEach(x, Points(w, p), s, env, c), ExecEach(x, Points(w, q), s, env, c))
  {
    assert Points(w, p + q) == Points(w, p) + Points(w, q);
    ExecEachConcat(x, Points(w, p), Points(w, q), s, env, c);
  }

  lemma {:induction false} BlocksMeaning(h: Header, stride: int, size: Expr, check: bool, body: Stmt, env: Env, b: int,
                                         c: Ctx)
    requires Runs(h, env, c) && Stable(size, h) && !Free(body, Tiled(h.name)) && stride > 0
    ensures var w, t := HeaderWalk(h, env, c), Eval(size, env, c);
            ExecEach(Tiled(h.name), Points(w, Strided(b, Len(w), stride)),
              RegularSecond(h, size, CheckLine(h, check, body)), env, c)
            == ExecEach(Src(h.name), Points(w, Blocks(b, Len(w), stride, t, w.step, check)), body, env, c)
  {
    var w, t, second := HeaderWalk(h, env, c), Eval(size, env, c), RegularSecond(h, size, CheckLine(h, check, body));
    forall a ensures OnePass(second, body, h.name, w, t, check, env, a, c) {
      SecondLoopMeaning(h, size, check, body, env, a, c);
    }
    PassByPass(second, body, h.name, w, t, stride, check, env, b, c);
  }

  /** The second loop, entered at distance `a`, runs the body over its pass. */
  predicate OnePass(second: Stmt, body: Stmt, name: string, w: Walk, t: int, check: bool, env: Env, a: int, c: Ctx)
    requires w.step > 0
  {
    Exec(second, env[Tiled(name) := Point(w, a)], c)
    == ExecEach(Src(name), Points(w, Strided(a, if check then Min(a + t, Len(w)) else a + t, w.step)), body, env, c)
  }

  lemma {:induction false} PassByPass(second: Stmt, body: Stmt, name: string, w: Walk, t: int, stride: int,
                                      check: bool, env: Env, b: int, c: Ctx)
    requires w.step > 0 && stride > 0 && forall a :: OnePass(second, body, name, w, t, check, env, a, c)
    ensures ExecEach(Tiled(name), Points(w, Strided(b, Len(w), stride)), second, env, c)
            == ExecEach(Src(name), Points(w, Blocks(b, Len(w), stride, t, w.step, check)), body, env, c)
    decreases Len(w) - b
  {
    if b < Len(w) {
      EachStrided(Tiled(name), w, b, Len(w), stride, second, env, c);
      assert OnePass(second, body, name, w, t, check, env, b, c);
      PassByPass(second, body, name, w, t, stride, check, env, b + stride, c);
      FirstOfBlocks(Src(name), w, b, stride, t, check, body, env, c);
    }
  }

  lemma {:induction false} FirstOfBlocks(x: VarName, w: Walk, b: int, stride: int, t: int, check: bool, s: Stmt,
                                         env: Env, c: Ctx)
    requires w.step > 0 && stride > 0 && b < Len(w)
    ensures ExecEach(x, Points(w, Blocks(b, Len(w), stride, t, w.step, check)), s, env, c)
            == Merge(ExecEach(x, Points(w, Strided(b, if check then Min(b + t, Len(w)) else b + t, w.step)), s, env, c),
                     ExecEach(x, Points(w, Blocks(b + stride, Len(w), stride, t, w.step, check)), s, env, c))
  {
    var mine := Strided(b, if check then Min(b + t, Len(w)) else b + t, w.step);
    EachConcatPoints(x, w, mine, Blocks(b + stride, Len(w), stride, t, w.step, check), s, env, c);
  }

  /** A tile written as two `for` loops runs the body over its blocks. */
  lemma {:induction false} ForTileMeaning(h: Header, strideE: Expr, size: Expr, check: bool, body: Stmt, env: Env,
                                          c: Ctx)
    requires Runs(h, env, c) && Stable(size, h) && !Free(body, Tiled(h.name)) && Eval(strideE, env, c) > 0
    ensures var w := HeaderWalk(h, env, c);
            Exec(RegularFirst(h, strideE, RegularSecond(h, size, CheckLine(h, check, body))), env, c)
            == ExecEach(Src(h.name),
                        Points(w, Blocks(0, Len(w), Eval(strideE, env, c), Eval(size, env, c), w.step, check)),
                        body, env, c)
  {
    var w, stride := HeaderWalk(h, env, c), Eval(strideE, env, c);
    var first := RegularFirst(h, strideE, RegularSecond(h, size, CheckLine(h, check, body)));
    ExecFor(first, env, c);
    assert Points(WalkOf(first, env, c), Strided(0, Len(w), stride)) == Points(w, Strided(0, Len(w), stride));
    BlocksMeaning(h, stride, size, check, body, env, 0, c);
  }

  lemma {:induction false} SourceMeaning(h: Header, body: Stmt, env: Env, c: Ctx)
    requires Runs(h, env, c)
    ensures var w := HeaderWalk(h, env, c);
            Exec(SourceFor(h, body), env, c)
              == ExecEach(Src(h.name), Points(w, Strided(0, Len(w), w.step)), body, env, c)
  {
    ExecFor(SourceFor(h, body), env, c);
  }

  /** A single body under one loop reveals the values the loop takes. */
  lemma {:induction false} HitsAreValues(x: VarName, vals: seq<int>, id: nat, env: Env, c: Ctx)
    requires x.Src?
    ensures var r := ExecEach(x, vals, Body(id), env, c);
            r.Ran? && |r.hits| == |vals| && forall k :: 0 <= k < |vals| ==> r.hits[k] == Hit(id, [vals[k]])
  {
    if vals != [] {
      HitsAreValues(x, vals[1..], id, env, c);
      var head := Tag(x, vals[0], Exec(Body(id), env[x := vals[0]], c));
      assert [vals[0]] + [] == [vals[0]];
      assert head.hits == [Hit(id, [vals[0]])];
      assert vals == [vals[0]] + vals[1..];
    }
  }

  lemma {:induction false} DifferentOffsetsDifferentRuns(h: Header, a: seq<int>, b: seq<int>, env: Env, c: Ctx)
    requires ExecEach(Src(h.name), Points(HeaderWalk(h, env, c), a), Body(0), env, c)
          == ExecEach(Src(h.name), Points(HeaderWalk(h, env, c), b), Body(0), env, c)
    ensures a == b
  {
    var w := HeaderWalk(h, env, c);
    HitsAreValues(Src(h.name), Points(w, a), 0, env, c);
    HitsAreValues(Src(h.name), Points(w, b), 0, env, c);
    var r := ExecEach(Src(h.name), Points(w, a), Body(0), env, c);
    forall k | 0 <= k < |a| ensures a[k] == b[k] {
      assert r.hits[k] == Hit(0, [Point(w, a[k])]) == Hit(0, [Point(w, b[k])]);
    }
  }

  // ----- the two main results about `for` tiles -----

  /** A `for` tile runs any body exactly as the source loop does, order included, when its blocks cover the
    * range; a body that records the loop variable tells the two apart otherwise. */
  lemma {:induction false} ForTileExact(h: Header, strideE: Expr, size: Expr, check: bool, env: Env, c: Ctx)
    requires Runs(h, env, c) && Stable(size, h) && Eval(strideE, env, c) > 0 && Eval(size, env, c) > 0
    ensures (forall body :: !Free(body, Tiled(h.name)) ==> TileKeeps(h, strideE, size, check, body, env, c))
            <==> BlocksCover(Len(HeaderWalk(h, env, c)), Eval(strideE, env, c), Eval(size, env, c),
                 HeaderWalk(h, env, c).step, check)
  {
    var w, s, t := HeaderWalk(h, env, c), Eval(strideE, env, c), Eval(size, env, c);
    BlocksExact(Len(w), s, t, w.step, check);
    forall body | !Free(body, Tiled(h.name))
      ensures TileKeeps(h, strideE, size, check, body, env, c)
              <==> ExecEach(Src(h.name), Points(w, Blocks(0, Len(w), s, t, w.step, check)), body, env, c)
                   == ExecEach(Src(h.name), Points(w, Strided(0, Len(w), w.step)), body, env, c)
    {
      ForTileMeaning(h, strideE, size, check, body, env, c);
      SourceMeaning(h, body, env, c);
    }
    assert !Free(Body(0), Tiled(h.name));
    if TileKeeps(h, strideE, size, check, Body(0), env, c) {
      DifferentOffsetsDifferentRuns(h, Blocks(0, Len(w), s, t, w.step, check), Strided(0, Len(w), w.step), env, c);
    }
  }

  /** The two loops of the tile run the body as the source loop does. */
  predicate TileKeeps(h: Header, strideE: Expr, size: Expr, check: bool, body: Stmt, env: Env, c: Ctx) {
    Exec(RegularFirst(h, strideE, RegularSecond(h, size, CheckLine(h, check, body))), env, c)
      == Exec(SourceFor(h, body), env, c)
  }

  /** Iterations of a full block: T of them need T steps only for unit step or unit tile. */
  lemma {:induction false} FullBlock(t: int, step: int)
    requires t > 0 && step > 0
    ensures t * step == step * Trips(t, step) <==> step == 1 || t == 1
    ensures t == step * Trips(t, step) <==> t % step == 0
    ensures step * Trips(t, step) >= t
  {
    var m := Trips(t, step);
    TripsBounds(t, step);
    CeilingOfItself(t, step);
    if t * step == step * m { Cancel(step, t, m); }
    if t % step == 0 {
      var q := t / step;
      assert t == step * q;
      assert step * (q - 1) == step * q - step;
      TripsUnique(t, step, q);
    } else if t == step * m {
      ModOfProduct(step, m);
    }
  }

  lemma {:induction false} Cancel(a: int, x: int, y: int)
    requires a > 0 && a * x == a * y
    ensures x == y
  {
    assert a * (x - y) == 0;
  }

  // ----- serial tiles and regular CUDA tiles, exactly -----

  /** Unit steps, unit tiles and ranges that one pass of the second loop covers; without the check also the counts
    * must fit. */
  predicate SerialTileFits(w: Walk, t: int, check: bool)
    requires w.step > 0 && t > 0
  {
    var m, n := Trips(t, w.step), Trips(Len(w), w.step);
    if check then w.step == 1 || t == 1 || Len(w) <= w.step * m
    else Len(w) <= 0 || if Len(w) <= t * w.step then m == n else (w.step == 1 || t == 1) && n % t == 0
  }

  /** Serial tiling preserves the loop, order included, exactly then. */
  lemma {:induction false} SerialTileExact(h: Header, p: TileParams, env: Env, c: Ctx)
    requires Runs(h, env, c) && Stable(p.size, h) && Eval(p.size, env, c) > 0
    ensures (forall body ::
               !Free(body, Tiled(h.name)) ==> Exec(SerialTile(h, p, body), env, c) == Exec(SourceFor(h, body), env, c))
            <==> SerialTileFits(HeaderWalk(h, env, c), Eval(p.size, env, c), p.check)
  {
    var w, t, stride := HeaderWalk(h, env, c), Eval(p.size, env, c), SerialStride(h, p.size);
    assert Eval(stride, env, c) == t * w.step;
    MulMono(t, 1, w.step);
    ForTileExact(h, stride, p.size, p.check, env, c);
    SerialCover(w, t, p.check);
    forall body | !Free(body, Tiled(h.name))
      ensures TileKeeps(h, stride, p.size, p.check, body, env, c)
              <==> Exec(SerialTile(h, p, body), env, c) == Exec(SourceFor(h, body), env, c)
    {
    }
  }

  lemma {:induction false} SerialCover(w: Walk, t: int, check: bool)
    requires w.step > 0 && t > 0 && t * w.step > 0
    ensures BlocksCover(Len(w), t * w.step, t, w.step, check) <==> SerialTileFits(w, t, check)
  {
    var m := Trips(t, w.step);
    FullBlock(t, w.step);
    TripsBounds(t, w.step);
    PassWithinStride(t, w.step);
    if t * w.step == w.step * m { Cancel(w.step, t, m); }
  }

  lemma {:induction false} PassWithinStride(t: int, step: int)
    requires t > 0 && step > 0
    ensures step * Trips(t, step) <= t * step
  {
    TripsBounds(t, step);
    MulMono(t, 1, step);
    if Trips(t, step) > t { MulMono(step, t, Trips(t, step) - 1); }
    MulMono(step, Trips(t, step), t);
  }

  /** One tile that covers the range, or a step that divides the tile; without the check also the counts must fit. */
  predicate RegularTileFits(w: Walk, t: int, check: bool)
    requires w.step > 0 && t > 0
  {
    var m, n := Trips(t, w.step), Trips(Len(w), w.step);
    TripsBounds(t, w.step);
    if check then t % w.step == 0 || Len(w) <= t
    else Len(w) <= 0 || if Len(w) <= t then m == n else t % w.step == 0 && n % m == 0
  }

  /** The CUDA tile of two regular loops steps by the tile size itself: it preserves the loop exactly then. */
  lemma {:induction false} CudaRegularTileExact(h: Header, p: TileParams, env: Env, c: Ctx)
    requires Runs(h, env, c) && Stable(p.size, h) && Eval(p.size, env, c) > 0
    requires p.first.kind == Regular && p.second.kind == Regular
    ensures (forall body ::
               !Free(body, Tiled(h.name)) ==> Exec(CudaTile(h, p, body), env, c) == Exec(SourceFor(h, body), env, c))
            <==> RegularTileFits(HeaderWalk(h, env, c), Eval(p.size, env, c), p.check)
  {
    var w, t := HeaderWalk(h, env, c), Eval(p.size, env, c);
    ForTileExact(h, p.size, p.size, p.check, env, c);
    FullBlock(t, w.step);
    forall body | !Free(body, Tiled(h.name))
      ensures TileKeeps(h, p.size, p.size, p.check, body, env, c)
              <==> Exec(CudaTile(h, p, body), env, c) == Exec(SourceFor(h, body), env, c)
    {
    }
  }
}
