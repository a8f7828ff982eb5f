/** The serial back end on whole loop programs: sequences and nests of plain and tiled loops. */
module SerialProgram {
  import opened LoopLang
  import opened LoopHeader
  import opened TileOffsets
  import opened TileCodeGen
  import opened LoopTree
  import opened CudaNest

  datatype Code = Leaf(id: nat) | InSequence(first: Code, second: Code) | Nest(info: Info, body: Code)

  function Source(p: Code): Stmt {
    match p
    case Leaf(id) => Body(id)
    case InSequence(a, b) => Then(Source(a), Source(b))
    case Nest(info, body) => SourceFor(info.head, Source(body))
  }

  function SerialParams(info: Info): TileParams
    requires |info.types| == 2
  {
    TileParams(info.size, AttributedLoop(info.types[0], 0), AttributedLoop(info.types[1], 0), info.check)
  }

  /** What the serial back end leaves: plain loops lose their attribute, tiles become two loops. */
  function Serial(p: Code): Stmt {
    match p
    case Leaf(id) => Body(id)
    case InSequence(a, b) => Then(Serial(a), Serial(b))
    case Nest(info, body) =>
      if |info.types| == 2 then SerialTile(info.head, SerialParams(info), Serial(body))
        else SourceFor(info.head, Serial(body))
  }

  /** An expression of the source: it may use loop variables and arguments, nothing generated. */
  predicate UserExpr(e: Expr) {
    match e
    case Lit(_) => true
    case Arg(_) => true
    case Var(v) => v.Src?
    case Idx(_, _) => false
    case Plus(l, r) => UserExpr(l) && UserExpr(r)
    case Minus(l, r) => UserExpr(l) && UserExpr(r)
    case Times(l, r) => UserExpr(l) && UserExpr(r)
    case Quot(l, r) => UserExpr(l) && UserExpr(r)
  }

  /** Bounds may depend on enclosing loops; steps and tile sizes are launch constants, and a tile meets the exact
    * condition for serial tiles wherever the loop is entered. */
  ghost predicate LoopFits(info: Info, c: Ctx) {
    var h := info.head;
    && UserExpr(h.start) && UserExpr(h.end) && Closed(StepOf(h)) && Closed(info.size)
    && !Mentions(h.start, Src(h.name)) && !Mentions(h.end, Src(h.name))
    && Approaches(h, map[], Host(c)) && Eval(StepOf(h), map[], Host(c)) > 0
    && (|info.types| == 2 ==>
          Eval(info.size, map[], Host(c)) > 0 && forall env :: FitsIn(info, env, c))
  }

  /** The tile, entered in this environment, meets the condition. */
  ghost predicate FitsIn(info: Info, env: Env, c: Ctx)
    requires Eval(StepOf(info.head), map[], Host(c)) > 0 && Eval(info.size, map[], Host(c)) > 0
  {
    var w := HeaderWalk(info.head, env, c).(step := Eval(StepOf(info.head), map[], Host(c)));
    SerialTileFits(w, Eval(info.size, map[], Host(c)), info.check)
  }

  /** Checked tiles with unit step or unit size meet it whatever their bounds. */
  lemma {:induction false} UnitTilesFit(info: Info, env: Env, c: Ctx)
    requires Eval(StepOf(info.head), map[], Host(c)) > 0 && Eval(info.size, map[], Host(c)) > 0 && info.check
    requires Eval(StepOf(info.head), map[], Host(c)) == 1 || Eval(info.size, map[], Host(c)) == 1
    ensures FitsIn(info, env, c)
  {
  }

  ghost predicate ProgramFits(p: Code, c: Ctx) {
    match p
    case Leaf(_) => true
    case InSequence(a, b) => ProgramFits(a, c) && ProgramFits(b, c)
    case Nest(info, body) => LoopFits(info, c) && ProgramFits(body, c)
  }

  lemma {:induction false} UserExprNoTiled(e: Expr, name: string)
    requires UserExpr(e)
    ensures !Mentions(e, Tiled(name))
  {
    match e
    case Lit(_) =>
    case Arg(_) =>
    case Var(_) =>
    case Plus(l, r) => UserExprNoTiled(l, name); UserExprNoTiled(r, name);
    case Minus(l, r) => UserExprNoTiled(l, name); UserExprNoTiled(r, name);
    case Times(l, r) => UserExprNoTiled(l, name); UserExprNoTiled(r, name);
    case Quot(l, r) => UserExprNoTiled(l, name); UserExprNoTiled(r, name);
  }

  lemma {:induction false} FitsNoTiled(info: Info, name: string, c: Ctx)
    requires LoopFits(info, c)
    ensures var h := info.head;
            && !Mentions(h.start, Tiled(name)) && !Mentions(h.end, Tiled(name))
            && !Mentions(StepOf(h), Tiled(name)) && !Mentions(info.size, Tiled(name))
  {
    UserExprNoTiled(info.head.start, name);
    UserExprNoTiled(info.head.end, name);
    ClosedEval(StepOf(info.head), map[], c);
    ClosedEval(info.size, map[], c);
  }

  /** Generated code uses no tiled variable from outside. */
  lemma {:induction false} SerialNoTiled(p: Code, name: string, c: Ctx)
    requires ProgramFits(p, c)
    ensures !Free(Serial(p), Tiled(name))
  {
    match p
    case Leaf(_) =>
    case InSequence(a, b) => SerialNoTiled(a, name, c); SerialNoTiled(b, name, c);
    case Nest(info, body) =>
      SerialNoTiled(body, name, c);
      FitsNoTiled(info, name, c);
      if |info.types| == 2 { TileNoTiled(info.head, SerialParams(info), Serial(body), name); }
  }

  lemma {:induction false} TileNoTiled(h: Header, p: TileParams, body: Stmt, name: string)
    requires !Free(body, Tiled(name)) && !Mentions(h.start, Tiled(name)) && !Mentions(h.end, Tiled(name))
    requires !Mentions(StepOf(h), Tiled(name)) && !Mentions(p.size, Tiled(name))
    ensures !Free(SerialTile(h, p, body), Tiled(name))
  {
    var x := Tiled(name);
    var checked := CheckLine(h, p.check, body);
    assert !Free(checked, x);
    OffsetMentions(h, Var(Tiled(h.name)), p.size, x);
    assert Free(RegularSecond(h, p.size, checked), x) ==> x == Tiled(h.name);
    assert !Mentions(SerialStride(h, p.size), x);
  }

  /** Replacing the body of a loop by an equivalent one keeps the loop. */
  lemma {:induction false} EachCongruent(x: VarName, vals: seq<int>, s: Stmt, s': Stmt, env: Env, c: Ctx)
    requires forall e :: Exec(s, e, c) == Exec(s', e, c)
    ensures ExecEach(x, vals, s, env, c) == ExecEach(x, vals, s', env, c)
  {
    if vals != [] {
      EachCongruent(x, vals[1..], s, s', env, c);
      assert Exec(s, env[x := vals[0]], c) == Exec(s', env[x := vals[0]], c);
    }
  }

  lemma {:induction false} FitsRuns(info: Info, env: Env, c: Ctx)
    requires LoopFits(info, c)
    ensures Runs(info.head, env, c) && Stable(info.size, info.head)
    ensures Eval(StepOf(info.head), env, c) == Eval(StepOf(info.head), map[], Host(c))
    ensures Eval(info.size, env, c) == Eval(info.size, map[], Host(c))
  {
    FitsNoTiled(info, info.head.name, c);
    ClosedEval(StepOf(info.head), env, c);
    ClosedEval(info.size, env, c);
  }

  /** One tile around one body keeps its meaning if and only if the tile, with or without its check, fits. */
  lemma {:induction false} LeafTileExactly(info: Info, env: Env, c: Ctx)
    requires |info.types| == 2 && Runs(info.head, env, c) && Stable(info.size, info.head)
    requires Eval(info.size, env, c) > 0
    ensures Exec(Serial(Nest(info, Leaf(0))), env, c) == Exec(Source(Nest(info, Leaf(0))), env, c)
            <==> SerialTileFits(HeaderWalk(info.head, env, c), Eval(info.size, env, c), info.check)
  {
    var h, p, w := info.head, SerialParams(info), HeaderWalk(info.head, env, c);
    var t, stride := Eval(info.size, env, c), SerialStride(h, info.size);
    assert Eval(stride, env, c) == t * w.step;
    MulMono(t, 1, w.step);
    SerialCover(w, t, info.check);
    BlocksExact(Len(w), t * w.step, t, w.step, info.check);
    ForTileMeaning(h, stride, info.size, info.check, Body(0), env, c);
    SourceMeaning(h, Body(0), env, c);
    var tiled, whole := Blocks(0, Len(w), t * w.step, t, w.step, info.check), Strided(0, Len(w), w.step);
    assert Exec(Serial(Nest(info, Leaf(0))), env, c) == ExecEach(Src(h.name), Points(w, tiled), Body(0), env, c);
    if ExecEach(Src(h.name), Points(w, tiled), Body(0), env, c)
       == ExecEach(Src(h.name), Points(w, whole), Body(0), env, c) {
      DifferentOffsetsDifferentRuns(h, tiled, whole, env, c);
    }
  }

  /** The serial program hits the same bodies with the same loop variable values in the same order. */
  lemma {:induction false} SerialPreserves(p: Code, env: Env, c: Ctx)
    requires ProgramFits(p, c)
    ensures Exec(Serial(p), env, c) == Exec(Source(p), env, c)
    decreases p
  {
    match p
    case Leaf(_) =>
    case InSequence(a, b) => SerialPreserves(a, env, c); SerialPreserves(b, env, c);
    case Nest(info, body) =>
      var h := info.head;
      FitsRuns(info, env, c);
      forall e ensures Exec(Serial(body), e, c) == Exec(Source(body), e, c) { SerialPreserves(body, e, c); }
      var w := HeaderWalk(h, env, c);
      SourceMeaning(h, Source(body), env, c);
      SourceMeaning(h, Serial(body), env, c);
      EachCongruent(Src(h.name), Points(w, Strided(0, Len(w), w.step)), Serial(body), Source(body), env, c);
      if |info.types| == 2 {
        SerialNoTiled(body, h.name, c);
        SerialTileExact(h, SerialParams(info), env, c);
        assert FitsIn(info, env, c);
        assert Exec(SerialTile(h, SerialParams(info), Serial(body)), env, c)
               == Exec(SourceFor(h, Serial(body)), env, c);
      }
  }
}
