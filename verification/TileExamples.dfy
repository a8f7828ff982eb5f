/** Concrete tiles on which the code falls short. */
module TileExamples {
  import opened LoopLang
  import opened LoopHeader
  import opened TileOffsets
  import opened TileCodeGen
  import opened LoopTree
  import opened KernelUtils
  import opened SemaCtx
  import opened SemaRun
  import opened CudaNest
  import opened Launcher
  import opened AcceptedKernels
  import opened PassAccepts
  import opened KernelExamples

  /** `for (int i = 0; i < 8; i += 2)` */
  const EVENS := Header("i", Lit(0), Lt, Lit(8), Compound(AddAssign, Lit(2)))

  const REGULAR := AttributedLoop(Regular, 0)

  /** `@tile(3)` with its check. */
  const BY_THREE := TileParams(Lit(3), REGULAR, REGULAR, true)

  const NO_THREAD := Ctx(map[], [], [])

  /** The hits of body 0 at these values of one loop variable. */
  function HitsAt(vals: seq<int>): (r: seq<Hit>)
    ensures |r| == |vals| && forall k :: 0 <= k < |r| ==> r[k] == Hit(0, [vals[k]])
  {
    seq(|vals|, k requires 0 <= k < |vals| => Hit(0, [vals[k]]))
  }

  lemma {:induction false} EachHits(name: string, vals: seq<int>, env: Env, c: Ctx)
    ensures ExecEach(Src(name), vals, Body(0), env, c) == Ran(HitsAt(vals))
  {
    if vals != [] {
      EachHits(name, vals[1..], env, c);
      assert [vals[0]] + [] == [vals[0]];
      assert Prepend(vals[0], [Hit(0, [])]) == [Hit(0, [vals[0]])];
      assert [Hit(0, [vals[0]])] + HitsAt(vals[1..]) == HitsAt(vals);
    }
  }

  const WALK := Walk(0, Lt, 8, true, 2)

  lemma {:induction false} Evens()
    ensures HeaderWalk(EVENS, map[], NO_THREAD) == WALK && Len(WALK) == 8 && Runs(EVENS, map[], NO_THREAD)
    ensures forall offs :: Points(WALK, offs) == offs
  {
    forall offs ensures Points(WALK, offs) == offs {
      assert forall k :: 0 <= k < |offs| ==> Points(WALK, offs)[k] == offs[k];
    }
  }

  lemma {:induction false} Offsets()
    ensures Strided(0, 8, 2) == [0, 2, 4, 6]
    ensures Blocks(0, 8, 6, 3, 2, true) == [0, 2, 6] && Blocks(0, 8, 3, 3, 2, true) == [0, 2, 3, 5, 6]
  {
    assert Strided(6, 8, 2) == [6] && Strided(4, 8, 2) == [4, 6] && Strided(2, 8, 2) == [2, 4, 6];
    assert Strided(0, 3, 2) == [0] + Strided(2, 3, 2) == [0, 2];
    assert Strided(3, 6, 2) == [3] + Strided(5, 6, 2) == [3, 5];
    assert Blocks(6, 8, 6, 3, 2, true) == [6] + Blocks(12, 8, 6, 3, 2, true) == [6];
    assert Blocks(6, 8, 3, 3, 2, true) == [6] + Blocks(9, 8, 3, 3, 2, true) == [6];
    assert Blocks(3, 8, 3, 3, 2, true) == [3, 5] + [6];
  }

  // ----- counting down by adding -----

  /** `for (int i = 2; i > 0; i += -1)` */
  const DOWN := Header("i", Lit(2), Gt, Lit(0), Compound(AddAssign, Lit(-1)))

  /** The loop takes the values 2 and 1; as an `@inner` loop its thread 1 runs at 3. */
  lemma {:induction false} AddedNegativeStrays()
    ensures Approaches(DOWN, map[], NO_THREAD) && WrittenValues(DOWN, 2, map[], NO_THREAD) == [2, 1]
    ensures Exec(IndexedLoop(DOWN, AttributedLoop(Inner, 0), Body(0)), map[], Ctx(map[], [], [1]))
            == Ran(HitsAt([3]))
  {
    assert WrittenValues(DOWN, 0, map[], NO_THREAD) == [];
    assert WrittenValues(DOWN, 1, map[], NO_THREAD) == [1] + [];
    assert WrittenValues(DOWN, 2, map[], NO_THREAD) == [2] + [1];
    EachHits("i", [3], map[], Ctx(map[], [], [1]));
    EachOne(Src("i"), 3, Body(0), map[], Ctx(map[], [], [1]));
  }

  lemma {:induction false} SourceHits()
    ensures Exec(SourceFor(EVENS, Body(0)), map[], NO_THREAD) == Ran(HitsAt([0, 2, 4, 6]))
  {
    Evens();
    Offsets();
    SourceMeaning(EVENS, Body(0), map[], NO_THREAD);
    EachHits("i", [0, 2, 4, 6], map[], NO_THREAD);
  }

  /** Serial code for blocks of 3 leaves out the iteration at 4. */
  lemma {:induction false} SerialTileSkips()
    ensures Exec(SourceFor(EVENS, Body(0)), map[], NO_THREAD) == Ran(HitsAt([0, 2, 4, 6]))
    ensures Exec(SerialTile(EVENS, BY_THREE, Body(0)), map[], NO_THREAD) == Ran(HitsAt([0, 2, 6]))
    ensures !SerialTileFits(WALK, 3, true)
  {
    SourceHits();
    Evens();
    Offsets();
    ForTileMeaning(EVENS, SerialStride(EVENS, Lit(3)), Lit(3), true, Body(0), map[], NO_THREAD);
    EachHits("i", [0, 2, 6], map[], NO_THREAD);
  }

  /** GPU code for the same tile strides by 3 instead, and runs at 3 and 5. */
  lemma {:induction false} CudaTileStrays()
    ensures Exec(CudaTile(EVENS, BY_THREE, Body(0)), map[], NO_THREAD) == Ran(HitsAt([0, 2, 3, 5, 6]))
    ensures !RegularTileFits(WALK, 3, true)
  {
    Evens();
    Offsets();
    ForTileMeaning(EVENS, Lit(3), Lit(3), true, Body(0), map[], NO_THREAD);
    EachHits("i", [0, 2, 3, 5, 6], map[], NO_THREAD);
  }

  const BLOCKED := Info(0, [Outer, Inner], [Auto, Auto], EVENS, Lit(3), true, 8, false, false)

  /** The launcher asks for 2 threads where a block of the tile has 3. */
  lemma {:induction false} SecondExtentShort(env: Env)
    ensures LoopOk(BLOCKED, NO_THREAD) && TileSize(BLOCKED, NO_THREAD) == 3
    ensures Eval(ExtentExpr(SecondMeta(BLOCKED)), env, NO_THREAD) == 2
  {
    BlockedOk();
    var tiled, c := Var(Tiled("i")), NO_THREAD;
    var range := Minus(Plus(tiled, Lit(3)), tiled);
    assert ExtentExpr(SecondMeta(BLOCKED)) == Quot(Minus(Plus(range, Lit(2)), Lit(1)), Lit(2));
    PlusMinus(tiled, Lit(3), env, c);
    StepUp(range, env, c);
    assert TruncDiv(4, 2) == 2;
  }

  lemma {:induction false} PlusMinus(a: Expr, b: Expr, env: Env, c: Ctx)
    ensures Eval(Minus(Plus(a, b), a), env, c) == Eval(b, env, c)
  {
    assert Eval(Plus(a, b), env, c) == Eval(a, env, c) + Eval(b, env, c);
  }

  lemma {:induction false} StepUp(e: Expr, env: Env, c: Ctx)
    ensures Eval(Minus(Plus(e, Lit(2)), Lit(1)), env, c) == Eval(e, env, c) + 1
  {
    assert Eval(Plus(e, Lit(2)), env, c) == Eval(e, env, c) + 2;
  }

  lemma {:induction false} BlockedOk()
    ensures LoopOk(BLOCKED, NO_THREAD) && TileSize(BLOCKED, NO_THREAD) == 3
  {
    Evens();
    assert BLOCKED.types[0] == Outer;
  }

  // ----- second loops of tiles count as levels -----

  /** `@tile(4, ...)` with an ordinary second loop. */
  function Tile(stmt: nat, kind: LoopType, children: seq<Loop>): Loop {
    Loop(Info(stmt, [kind, Regular], [Auto, Auto], EVENS, Lit(4), true, 4, false, false), children)
  }

  const T4 := Tile(3, Inner, [])
  const T3 := Tile(2, Inner, [T4])
  const T2 := Tile(1, Outer, [T3])
  const T1 := Tile(0, Outer, [T2])

  lemma {:induction false} TileKind(t: Loop, kind: LoopType)
    requires t.info.types == [kind, Regular] && kind != Regular
    ensures Attributed(t) && Erase(t.info.types) == [kind] && Count(t.info.types, Regular) == 1
  {
    assert t.info.types[0] == kind;
    assert t.info.types[1..] == [Regular] && [Regular][1..] == [];
    assert Erase([Regular]) == [];
  }

  lemma {:induction false} TileStep(t: Loop, x: Loop, kind: LoopType)
    requires x.info.types == [kind, Regular] && kind != Regular && t.children == [x]
    ensures Frontier(t.children) == [x] && SecondLoops(t) == 1 + SecondLoops(x)
  {
    TileKind(x, kind);
    AttributedFrontier([x]);
    assert FirstAttributed(t) == Some(x);
  }

  lemma {:induction false} TilePath(p: seq<LoopType>)
    requires IsPath(T1, p)
    ensures p == [Outer, Outer, Inner, Inner]
  {
    TileSteps();
    var x, rest := PathChild(T1, p);
    InnerTilePath(rest);
  }

  lemma {:induction false} InnerTilePath(p: seq<LoopType>)
    requires IsPath(T2, p)
    ensures p == [Outer, Inner, Inner]
  {
    TileSteps();
    var x, rest := PathChild(T2, p);
    var y, last := PathChild(T3, rest);
    TileKind(T4, Inner);
    LeafReads(T4, last);
  }

  lemma {:induction false} TileSteps()
    ensures Frontier(T1.children) == [T2] && Frontier(T2.children) == [T3] && Frontier(T3.children) == [T4]
    ensures Erase(T1.info.types) == [Outer] == Erase(T2.info.types) && Erase(T3.info.types) == [Inner]
    ensures SecondLoops(T1) == 3
  {
    TileStep(T1, T2, Outer);
    TileStep(T2, T3, Inner);
    TileStep(T3, T4, Inner);
    TileKind(T1, Outer);
    TileKind(T2, Outer);
    TileKind(T3, Inner);
    assert FirstAttributed(T4) == None;
  }

  lemma {:induction false} TileInfos(t: Loop)
    requires InfosOk(t.children) && AllAuto(t.children) && InfoOk(t.info)
    requires forall k :: 0 <= k < |t.info.axes| ==> t.info.axes[k] == Auto
    ensures InfosOk([t]) && AllAuto([t])
  {
    assert [t][1..] == [];
  }

  /** Two nested `@tile(4, @outer)` around two nested `@tile(4, @inner)`: two levels of each type, and yet too many. */
  lemma {:induction false} FourTilesRejected()
    ensures InfosOk([T1]) && AllAuto([T1]) && AllRead([T1], [Outer, Outer, Inner, Inner])
    ensures Feed(EMPTY, Events([T1])).1.Some?
  {
    TileInfos(T4);
    TileInfos(T3);
    TileInfos(T2);
    TileInfos(T1);
    TileKind(T1, Outer);
    AttributedFrontier([T1]);
    TileSteps();
    forall x, q | x in Frontier([T1]) && IsPath(x, q) ensures q == [Outer, Outer, Inner, Inner] { TilePath(q); }
    PassAcceptsExactly([T1], [Outer, Outer, Inner, Inner]);
    assert [T1][0] == T1 && Has(T1, Regular) by { assert T1.info.types[1] == Regular; }
  }
}
