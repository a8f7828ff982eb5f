/** Every iteration of a nest is run by exactly one thread of its grid, once. */
module GridCoverage {
  import opened LoopLang
  import opened LoopHeader
  import opened TileOffsets
  import opened TileCodeGen
  import opened LoopTree
  import opened KernelUtils
  import opened CudaNest

  // ----- chains of loops -----

  /** The loop tree of a chain, outermost loop first. */
  function ToTree(infos: seq<Info>): Loop
    requires infos != []
  {
    Loop(infos[0], if |infos| == 1 then [] else [ToTree(infos[1..])])
  }

  predicate ChainOk(infos: seq<Info>, c: Ctx) {
    forall k :: 0 <= k < |infos| ==> LoopOk(infos[k], c) && LoopWhole(infos[k], c)
  }

  /** The grid that the chain asks for covers every loop. */
  predicate ChainCovered(infos: seq<Info>, c: Ctx)
    requires ChainOk(infos, c)
  {
    forall k :: 0 <= k < |infos| ==> LoopCovered(infos[k], c)
  }

  function CountAll(infos: seq<Info>, kind: LoopType): nat {
    if infos == [] then 0 else Count(infos[0].types, kind) + CountAll(infos[1..], kind)
  }

  lemma {:induction false} RegularCount(types: seq<LoopType>, kind: LoopType)
    requires IsRegular(types) && kind != Regular
    ensures Count(types, kind) == 0
  {
    if types != [] { RegularCount(types[1..], kind); }
  }

  /** The queue search on a chain just walks down it. */
  lemma {:induction false} ChainSearch(infos: seq<Info>, kind: LoopType)
    requires infos != [] && kind != Regular
    ensures match Search([ToTree(infos)], Attributed)
            case None => CountAll(infos, kind) == 0
            case Some(x) => Count(x.info.types, kind) + HeightSameType(x, kind) == CountAll(infos, kind)
    decreases |infos|, 1
  {
    var t := ToTree(infos);
    assert [t][1..] == [];
    if Attributed(t) {
      ChainHeight(infos, kind);
    } else {
      RegularCount(infos[0].types, kind);
      assert [t][1..] + t.children == t.children;
      PopShrinks([t]);
      if |infos| > 1 { ChainSearch(infos[1..], kind); } else { assert CountAll(infos[1..], kind) == 0; }
    }
  }

  /** On a chain the height of a type counts its levels further in. */
  lemma {:induction false} ChainHeight(infos: seq<Info>, kind: LoopType)
    requires infos != [] && kind != Regular
    ensures HeightSameType(ToTree(infos), kind) == CountAll(infos[1..], kind)
    decreases |infos|, 0
  {
    if |infos| > 1 {
      assert ToTree(infos).children == [ToTree(infos[1..])];
      ChainSearch(infos[1..], kind);
    } else {
      assert infos[1..] == [] && ToTree(infos).children == [];
    }
  }

  /** The CUDA code of the chain, with the axes the semantic pass computes. */
  function CudaChain(infos: seq<Info>): Stmt
    requires forall k :: 0 <= k < |infos| ==> TypesOk(infos[k].types)
  {
    if infos == [] then Body(0) else CudaLoop(infos[0], AxisHeights(ToTree(infos)), CudaChain(infos[1..]))
  }

  /** The chain as written in the source. */
  function SourceChain(infos: seq<Info>): Stmt {
    if infos == [] then Body(0) else SourceFor(infos[0].head, SourceChain(infos[1..]))
  }

  // ----- generated code is closed -----

  predicate Without(info: Info, x: VarName) {
    !Mentions(info.head.start, x) && !Mentions(info.head.end, x) && !Mentions(StepOf(info.head), x)
      && !Mentions(info.size, x)
  }

  lemma {:induction false} DeltaMentions(info: Info, loop: AttributedLoop, x: VarName)
    requires Without(info, x)
    ensures !Mentions(Scaled(info.head, loop), x) && !Mentions(BlockDelta(info.head, info.size, loop), x)
  {
    var step := StepOf(info.head);
    assert !Mentions(IdxVariable(loop), x);
    assert !Mentions(Times(info.size, step), x);
  }

  lemma {:induction false} SecondFree(info: Info, p: TileParams, body: Stmt, x: VarName)
    requires Without(info, x) && p.size == info.size && !Free(body, x)
    ensures var h, s := info.head, CheckLine(info.head, p.check, body);
            && (Free(RegularSecond(h, p.size, s), x) ==> x == Tiled(h.name))
            && (Free(IndexedSecond(h, p.second, s), x) ==> x == Tiled(h.name))
  {
    var h, s := info.head, CheckLine(info.head, p.check, body);
    assert Free(s, x) ==> x == Src(h.name);
    DeltaMentions(info, p.second, x);
    OffsetMentions(h, Var(Tiled(h.name)), p.size, x);
    OffsetMentions(h, Var(Tiled(h.name)), Scaled(h, p.second), x);
  }

  lemma {:induction false} CudaLoopFree(info: Info, axes: seq<nat>, body: Stmt, x: VarName)
    requires TypesOk(info.types) && |axes| == |info.types| && Without(info, x) && !Free(body, x)
    ensures !Free(CudaLoop(info, axes, body), x)
  {
    var h := info.head;
    if |info.types| == 2 {
      var p := ParamsOf(info, axes);
      SecondFree(info, p, body, x);
      DeltaMentions(info, p.first, x);
      OffsetMentions(h, h.start, BlockDelta(h, p.size, p.first), x);
    } else {
      var loop := AttributedLoop(info.types[0], axes[0]);
      DeltaMentions(info, loop, x);
      OffsetMentions(h, h.start, Scaled(h, loop), x);
    }
  }

  lemma {:induction false} CudaChainFree(infos: seq<Info>, x: VarName, c: Ctx)
    requires ChainOk(infos, c)
    ensures !Free(CudaChain(infos), x)
  {
    if infos != [] {
      CudaChainFree(infos[1..], x, c);
      ClosedEval(infos[0].head.start, map[], c);
      ClosedEval(infos[0].head.end, map[], c);
      ClosedEval(StepOf(infos[0].head), map[], c);
      ClosedEval(infos[0].size, map[], c);
      CudaLoopFree(infos[0], AxisHeights(ToTree(infos)), CudaChain(infos[1..]), x);
    }
  }

  // ----- meaning by iteration numbers -----

  function ConsAll(q: int, ps: seq<seq<int>>): (r: seq<seq<int>>)
    ensures |r| == |ps| && forall k :: 0 <= k < |r| ==> r[k] == [q] + ps[k]
  {
    seq(|ps|, k requires 0 <= k < |ps| => [q] + ps[k])
  }

  function Cross(qs: seq<int>, ps: seq<seq<int>>): seq<seq<int>> {
    if qs == [] then [] else ConsAll(qs[0], ps) + Cross(qs[1..], ps)
  }

  /** The iteration tuples one thread runs. */
  function ThreadTrace(infos: seq<Info>, c: Ctx): seq<seq<int>>
    requires ChainOk(infos, c)
  {
    if infos == [] then [[]]
    else Cross(ThreadPositions(infos[0], AxisHeights(ToTree(infos)), c), ThreadTrace(infos[1..], c))
  }

  /** The iteration tuples of the source nest. */
  function NestTrace(infos: seq<Info>, c: Ctx): seq<seq<int>>
    requires ChainOk(infos, c)
  {
    if infos == [] then [[]] else Cross(Upto(0, Trip(infos[0], c)), NestTrace(infos[1..], c))
  }

  /** Loop variable values of an iteration tuple. */
  function ValuesOf(infos: seq<Info>, p: seq<int>, c: Ctx): seq<int> {
    if infos == [] || p == [] then []
    else var w := HostWalk(infos[0], c); [Point(w, w.step * p[0])] + ValuesOf(infos[1..], p[1..], c)
  }

  function HitsOf(infos: seq<Info>, ps: seq<seq<int>>, c: Ctx): (r: seq<Hit>)
    ensures |r| == |ps| && forall k :: 0 <= k < |r| ==> r[k] == Hit(0, ValuesOf(infos, ps[k], c))
  {
    seq(|ps|, k requires 0 <= k < |ps| => Hit(0, ValuesOf(infos, ps[k], c)))
  }

  lemma {:induction false} HitsConcat(infos: seq<Info>, a: seq<seq<int>>, b: seq<seq<int>>, c: Ctx)
    ensures HitsOf(infos, a + b, c) == HitsOf(infos, a, c) + HitsOf(infos, b, c)
  {
  }

  lemma {:induction false} HitsCons(infos: seq<Info>, q: int, ps: seq<seq<int>>, c: Ctx)
    requires infos != []
    ensures var w := HostWalk(infos[0], c);
            HitsOf(infos, ConsAll(q, ps), c) == Prepend(Point(w, w.step * q), HitsOf(infos[1..], ps, c))
  {
    forall k | 0 <= k < |ps| ensures ([q] + ps[k])[1..] == ps[k] {}
  }

  /** A loop over positions around code that runs `ps` runs the product of both. */
  lemma {:induction false} EachCross(infos: seq<Info>, qs: seq<int>, ps: seq<seq<int>>, s: Stmt, env: Env, c: Ctx)
    requires infos != [] && forall e :: Exec(s, e, c) == Ran(HitsOf(infos[1..], ps, c))
    ensures ExecEach(Src(infos[0].head.name), AtPositions(HostWalk(infos[0], c), qs), s, env, c)
            == Ran(HitsOf(infos, Cross(qs, ps), c))
  {
    var w, x := HostWalk(infos[0], c), Src(infos[0].head.name);
    if qs == [] {
      assert AtPositions(w, qs) == [];
    } else {
      var v := Point(w, w.step * qs[0]);
      assert AtPositions(w, qs) == [v] + AtPositions(w, qs[1..]);
      EachCross(infos, qs[1..], ps, s, env, c);
      HitsCons(infos, qs[0], ps, c);
      HitsConcat(infos, ConsAll(qs[0], ps), Cross(qs[1..], ps), c);
      assert Exec(s, env[x := v], c) == Ran(HitsOf(infos[1..], ps, c));
    }
  }

  lemma {:induction false} ThreadMeaning(infos: seq<Info>, env: Env, c: Ctx)
    requires ChainOk(infos, c)
    ensures Exec(CudaChain(infos), env, c) == Ran(HitsOf(infos, ThreadTrace(infos, c), c))
    decreases |infos|
  {
    if infos == [] {
      assert HitsOf(infos, [[]], c) == [Hit(0, [])];
    } else {
      var rest := CudaChain(infos[1..]);
      CudaChainFree(infos[1..], Tiled(infos[0].head.name), c);
      WholeLoopMeaning(infos[0], AxisHeights(ToTree(infos)), rest, env, c);
      forall e ensures Exec(rest, e, c) == Ran(HitsOf(infos[1..], ThreadTrace(infos[1..], c), c)) {
        ThreadMeaning(infos[1..], e, c);
      }
      EachCross(infos, ThreadPositions(infos[0], AxisHeights(ToTree(infos)), c), ThreadTrace(infos[1..], c),
                rest, env, c);
    }
  }

  lemma {:induction false} NestMeaning(infos: seq<Info>, env: Env, c: Ctx)
    requires ChainOk(infos, c)
    ensures Exec(SourceChain(infos), env, c) == Ran(HitsOf(infos, NestTrace(infos, c), c))
    decreases |infos|
  {
    if infos == [] {
      assert HitsOf(infos, [[]], c) == [Hit(0, [])];
    } else {
      var rest := SourceChain(infos[1..]);
      LoopRuns(infos[0], env, c);
      SourceMeaning(infos[0].head, rest, env, c);
      WholeRange(HostWalk(infos[0], c));
      forall e ensures Exec(rest, e, c) == Ran(HitsOf(infos[1..], NestTrace(infos[1..], c), c)) {
        NestMeaning(infos[1..], e, c);
      }
      EachCross(infos, Upto(0, Trip(infos[0], c)), NestTrace(infos[1..], c), rest, env, c);
    }
  }

  // ----- counting -----

  lemma {:induction false} UptoCount(lo: int, hi: int, q: int)
    ensures multiset(Upto(lo, hi))[q] == if lo <= q < hi then 1 else 0
    decreases hi - lo
  {
    if lo < hi {
      UptoCount(lo + 1, hi, q);
      assert Upto(lo, hi) == [lo] + Upto(lo + 1, hi);
    }
  }

  lemma {:induction false} ConsCount(q: int, ps: seq<seq<int>>, r: int, p: seq<int>)
    ensures multiset(ConsAll(q, ps))[[r] + p] == if r == q then multiset(ps)[p] else 0
  {
    if ps == [] {
      assert ConsAll(q, ps) == [];
    } else {
      assert ConsAll(q, ps) == [[q] + ps[0]] + ConsAll(q, ps[1..]);
      assert ps == [ps[0]] + ps[1..];
      ConsCount(q, ps[1..], r, p);
      assert ([q] + ps[0])[0] == q && ([q] + ps[0])[1..] == ps[0] && ([r] + p)[0] == r && ([r] + p)[1..] == p;
    }
  }

  /** A tuple occurs in a product as often as its head times as often as its tail. */
  lemma {:induction false} CrossCount(qs: seq<int>, ps: seq<seq<int>>, r: int, p: seq<int>)
    ensures multiset(Cross(qs, ps))[[r] + p] == multiset(qs)[r] * multiset(ps)[p]
  {
    if qs != [] {
      var m, k, first := multiset(ps)[p], multiset(qs[1..])[r], if r == qs[0] then 1 else 0;
      assert multiset(qs)[r] == first + k by { assert qs == [qs[0]] + qs[1..]; }
      assert multiset(ConsAll(qs[0], ps))[[r] + p] == first * m by { ConsCount(qs[0], ps, r, p); }
      assert multiset(Cross(qs[1..], ps))[[r] + p] == k * m by { CrossCount(qs[1..], ps, r, p); }
      SumTimes(first, k, m);
    }
  }

  lemma {:induction false} SumTimes(a: int, b: int, m: int)
    ensures (a + b) * m == a * m + b * m
  {
  }

  lemma {:induction false} CrossShape(qs: seq<int>, ps: seq<seq<int>>, p: seq<int>)
    requires p in Cross(qs, ps)
    ensures p != [] && p[0] in qs && p[1..] in ps
  {
    if p in ConsAll(qs[0], ps) {
      var k :| 0 <= k < |ps| && ConsAll(qs[0], ps)[k] == p;
      assert p == [qs[0]] + ps[k];
      assert p[1..] == ps[k];
    } else {
      CrossShape(qs[1..], ps, p);
    }
  }

  // ----- the grid -----

  /** Grid extents a loop asks for, and the coordinates of its iteration `q`, by axis. */
  function OwnExtents(info: Info, c: Ctx): (seq<int>, seq<int>)
    requires LoopOk(info, c)
  {
    var n, t := Trip(info, c), TileSize(info, c);
    if |info.types| == 1 then Placed(info.types[0], n)
    else Both(Placed(info.types[1], t), Placed(info.types[0], Trips(n, t)))
  }

  function OwnCoords(info: Info, q: int, c: Ctx): (seq<int>, seq<int>)
    requires LoopOk(info, c)
  {
    var t := TileSize(info, c);
    if |info.types| == 1 then Placed(info.types[0], q)
    else Both(Placed(info.types[1], q % t), Placed(info.types[0], q / t))
  }

  function Placed(kind: LoopType, v: int): (seq<int>, seq<int>) {
    match kind
    case Outer => ([v], [])
    case Inner => ([], [v])
    case Regular => ([], [])
  }

  function Both(a: (seq<int>, seq<int>), b: (seq<int>, seq<int>)): (seq<int>, seq<int>) {
    (a.0 + b.0, a.1 + b.1)
  }

  /** Extents of the whole grid: a loop further out takes higher axes. */
  function GridExtents(infos: seq<Info>, c: Ctx): (seq<int>, seq<int>)
    requires ChainOk(infos, c)
  {
    if infos == [] then ([], []) else Both(GridExtents(infos[1..], c), OwnExtents(infos[0], c))
  }

  /** The thread that runs an iteration tuple. */
  function ThreadOf(infos: seq<Info>, p: seq<int>, c: Ctx): (seq<int>, seq<int>)
    requires ChainOk(infos, c)
  {
    if infos == [] || p == [] then ([], []) else Both(ThreadOf(infos[1..], p[1..], c), OwnCoords(infos[0], p[0], c))
  }

  predicate Below(g: seq<int>, extents: seq<int>) {
    |g| == |extents| && forall k :: 0 <= k < |g| ==> 0 <= g[k] < extents[k]
  }

  predicate InGrid(g: (seq<int>, seq<int>), extents: (seq<int>, seq<int>)) {
    Below(g.0, extents.0) && Below(g.1, extents.1)
  }

  lemma {:induction false} GridSizes(infos: seq<Info>, c: Ctx)
    requires ChainOk(infos, c)
    ensures |GridExtents(infos, c).0| == CountAll(infos, Outer) && |GridExtents(infos, c).1| == CountAll(infos, Inner)
  {
    if infos != [] {
      GridSizes(infos[1..], c);
      OwnSizes(infos[0].types, Outer);
      OwnSizes(infos[0].types, Inner);
    }
  }

  lemma {:induction false} ThreadSizes(infos: seq<Info>, p: seq<int>, c: Ctx)
    requires ChainOk(infos, c) && |p| == |infos|
    ensures |ThreadOf(infos, p, c).0| == CountAll(infos, Outer) && |ThreadOf(infos, p, c).1| == CountAll(infos, Inner)
  {
    if infos != [] {
      ThreadSizes(infos[1..], p[1..], c);
      OwnSizes(infos[0].types, Outer);
      OwnSizes(infos[0].types, Inner);
    }
  }

  lemma {:induction false} OwnSizes(types: seq<LoopType>, kind: LoopType)
    requires TypesOk(types)
    ensures Count(types, kind)
            == (if types[0] == kind then 1 else 0) + (if |types| == 2 && types[1] == kind then 1 else 0)
  {
    if |types| == 2 {
      assert types[1..] == [types[1]];
      assert Count([types[1]], kind) == (if types[1] == kind then 1 else 0) + Count([types[1]][1..], kind);
    } else {
      assert types[1..] == [];
    }
  }

  /** Axes of the outermost loop of a chain: right above those of the loops inside it. */
  lemma {:induction false} HeadAxes(infos: seq<Info>)
    requires infos != [] && TypesOk(infos[0].types)
    ensures var axes, types := AxisHeights(ToTree(infos)), infos[0].types;
            && |axes| == |types|
            && (types[0] != Regular ==>
                  axes[0] == CountAll(infos[1..], types[0]) + (if |types| == 2 && types[0] == types[1] then 1 else 0))
            && (|types| == 2 && types[1] != Regular ==> axes[1] == CountAll(infos[1..], types[1]))
  {
    var types := infos[0].types;
    if types[0] != Regular { ChainHeight(infos, types[0]); }
    if |types| == 2 && types[1] != Regular { ChainHeight(infos, types[1]); }
  }

  ghost predicate SameCoords(infos: seq<Info>, c: Ctx, c': Ctx) {
    && c.args == c'.args
    && (forall a: nat :: a < CountAll(infos, Outer) ==> At(c.outer, a) == At(c'.outer, a))
    && (forall a: nat :: a < CountAll(infos, Inner) ==> At(c.inner, a) == At(c'.inner, a))
  }

  lemma {:induction false} AgreeOnHead(infos: seq<Info>, c: Ctx, c': Ctx)
    requires infos != [] && LoopOk(infos[0], c) && SameCoords(infos, c, c')
    ensures LoopOk(infos[0], c')
    ensures ThreadPositions(infos[0], AxisHeights(ToTree(infos)), c)
            == ThreadPositions(infos[0], AxisHeights(ToTree(infos)), c')
  {
    HeadAxes(infos);
    OwnSizes(infos[0].types, Outer);
    OwnSizes(infos[0].types, Inner);
    var axes, types := AxisHeights(ToTree(infos)), infos[0].types;
    if types[0] != Regular { assert Coord(types[0], axes[0], c) == Coord(types[0], axes[0], c'); }
    if |types| == 2 && types[1] != Regular { assert Coord(types[1], axes[1], c) == Coord(types[1], axes[1], c'); }
  }

  /** Two threads that agree on the axes of a chain run the same iterations of it. */
  lemma {:induction false} AgreeOnAxes(infos: seq<Info>, c: Ctx, c': Ctx)
    requires ChainOk(infos, c) && SameCoords(infos, c, c')
    ensures ChainOk(infos, c') && ThreadTrace(infos, c) == ThreadTrace(infos, c')
  {
    assert Host(c) == Host(c');
    if infos != [] {
      AgreeOnAxes(infos[1..], c, c');
      AgreeOnHead(infos, c, c');
    }
  }

  // ----- the outermost loop -----

  lemma {:induction false} BlockOf(t: int, n: int, i: int, q: int)
    requires t > 0
    ensures t * i <= q < t * i + t <==> q / t == i
  {
    var d, m := q / t, q % t;
    assert q == t * d + m && 0 <= m < t;
    if t * i <= q < t * i + t {
      if d < i { MulMono(t, d + 1, i); } else if d > i { MulMono(t, i + 1, d); }
    }
  }

  lemma {:induction false} ThreadInBlock(t: int, i: int, j: int, q: int)
    requires t > 0 && 0 <= j < t
    ensures q == t * i + j <==> q / t == i && q % t == j
  {
    BlockOf(t, 0, i, q);
    assert q == t * (q / t) + q % t;
  }

  /** In a grid of whole tiles no thread is past the range. */
  lemma {:induction false} WholeTiles(n: nat, t: int, i: int, j: int)
    requires t > 0 && 0 <= i < Trips(n, t) && 0 <= j < t && n % t == 0
    ensures t * i + t <= n && t * i + j < n
  {
    var k := n / t;
    assert n == t * k;
    TripsBounds(n, t);
    if i >= k { MulMono(t, k, i); MulMono(t, i, Trips(n, t) - 1); }
    MulMono(t, i + 1, k);
    assert t * (i + 1) == t * i + t;
  }

  lemma {:induction false} PlacedBelow(kind: LoopType, v: int, e: int)
    requires 0 <= v < e
    ensures InGrid(Placed(kind, v), Placed(kind, e))
  {
  }

  lemma {:induction false} BothBelow(a: (seq<int>, seq<int>), b: (seq<int>, seq<int>), x: (seq<int>, seq<int>),
                                     y: (seq<int>, seq<int>))
    requires InGrid(a, x) && InGrid(b, y)
    ensures InGrid(Both(a, b), Both(x, y))
  {
  }

  lemma {:induction false} CoordsInExtents(info: Info, q: int, c: Ctx)
    requires LoopOk(info, c) && 0 <= q < Trip(info, c)
    ensures InGrid(OwnCoords(info, q, c), OwnExtents(info, c))
  {
    var n, t, types := Trip(info, c), TileSize(info, c), info.types;
    if |types| == 2 {
      BlockInGrid(n, t, q);
      PlacedBelow(types[0], q / t, Trips(n, t));
      PlacedBelow(types[1], q % t, t);
      BothBelow(Placed(types[1], q % t), Placed(types[0], q / t), Placed(types[1], t), Placed(types[0], Trips(n, t)));
    } else {
      PlacedBelow(types[0], q, n);
    }
  }

  /** `own` are the thread's coordinates on the axes of one loop. */
  predicate OwnIs(types: seq<LoopType>, axes: seq<nat>, own: (seq<int>, seq<int>), c: Ctx)
    requires TypesOk(types) && |axes| == |types|
  {
    if IsRegular(types) then own == ([], [])
    else
      var first := Placed(types[0], Coord(types[0], axes[0], c));
      if |types| == 1 || types[1] == Regular then own == first
      else own == Both(Placed(types[1], Coord(types[1], axes[1], c)), first)
  }

  /** The own coordinates of the outermost loop are the last entries of the thread's coordinates. */
  lemma {:induction false} OwnAxes(infos: seq<Info>, ro: seq<int>, ri: seq<int>, own: (seq<int>, seq<int>), c: Ctx)
    requires infos != [] && TypesOk(infos[0].types) && c.outer == ro + own.0 && c.inner == ri + own.1
    requires |ro| == CountAll(infos[1..], Outer) && |ri| == CountAll(infos[1..], Inner)
    requires |own.0| == Count(infos[0].types, Outer) && |own.1| == Count(infos[0].types, Inner)
    ensures OwnIs(infos[0].types, AxisHeights(ToTree(infos)), own, c)
  {
    HeadAxes(infos);
    OwnAxesOf(infos[0].types, AxisHeights(ToTree(infos)), ro, ri, own, c);
  }

  lemma {:induction false} OwnAxesOf(types: seq<LoopType>, axes: seq<nat>, ro: seq<int>, ri: seq<int>,
                                     own: (seq<int>, seq<int>), c: Ctx)
    requires TypesOk(types) && |axes| == |types| && c.outer == ro + own.0 && c.inner == ri + own.1
    requires |own.0| == Count(types, Outer) && |own.1| == Count(types, Inner)
    requires types[0] != Regular ==>
               axes[0] == (if types[0] == Outer then |ro| else |ri|)
                          + (if |types| == 2 && types[0] == types[1] then 1 else 0)
    requires |types| == 2 && types[1] != Regular ==> axes[1] == |if types[1] == Outer then ro else ri|
    ensures OwnIs(types, axes, own, c)
  {
    OwnSizes(types, Outer);
    OwnSizes(types, Inner);
    if IsRegular(types) {
      assert own.0 == [] && own.1 == [];
    } else if |types| == 1 || types[1] == Regular {
      OneOwn(types[0], axes[0], ro, ri, own, c);
    } else if types[0] == types[1] {
      TwoOwn(types[0], axes[1], ro, ri, own, c);
    } else {
      var a, b := Coord(types[1], axes[1], c), Coord(types[0], axes[0], c);
      if types[1] == Outer {
        assert own.0 == [a] + [] && own.1 == [] + [b];
      } else {
        assert own.0 == [] + [b] && own.1 == [a] + [];
      }
    }
  }

  lemma {:induction false} OneOwn(kind: LoopType, axis: nat, ro: seq<int>, ri: seq<int>, own: (seq<int>, seq<int>),
                                  c: Ctx)
    requires kind != Regular && c.outer == ro + own.0 && c.inner == ri + own.1
             && axis == |if kind == Outer then ro else ri|
    requires |own.0| == (if kind == Outer then 1 else 0) && |own.1| == (if kind == Inner then 1 else 0)
    ensures own == Placed(kind, Coord(kind, axis, c))
  {
    var v := Coord(kind, axis, c);
    if kind == Outer { assert own.0 == [v] && own.1 == []; } else { assert own.0 == [] && own.1 == [v]; }
  }

  lemma {:induction false} TwoOwn(kind: LoopType, axis: nat, ro: seq<int>, ri: seq<int>, own: (seq<int>, seq<int>),
                                  c: Ctx)
    requires kind != Regular && c.outer == ro + own.0 && c.inner == ri + own.1
             && axis == |if kind == Outer then ro else ri|
    requires |own.0| == (if kind == Outer then 2 else 0) && |own.1| == (if kind == Inner then 2 else 0)
    ensures own == Both(Placed(kind, Coord(kind, axis, c)), Placed(kind, Coord(kind, axis + 1, c)))
  {
    var a, b := Coord(kind, axis, c), Coord(kind, axis + 1, c);
    if kind == Outer {
      assert own.0 == [a] + [b] && own.1 == [] + [];
    } else {
      assert own.0 == [] + [] && own.1 == [a] + [b];
    }
  }

  /** One thread runs iteration `q` of the outermost loop once if it is that iteration's thread. */
  lemma {:induction false} HeadCount(info: Info, axes: seq<nat>, own: (seq<int>, seq<int>), c: Ctx, q: int)
    requires LoopOk(info, c) && LoopCovered(info, c) && |axes| == |info.types| && OwnIs(info.types, axes, own, c)
    requires InGrid(own, OwnExtents(info, c))
    ensures multiset(ThreadPositions(info, axes, c))[q]
            == if 0 <= q < Trip(info, c) && own == OwnCoords(info, q, c) then 1 else 0
  {
    var types := info.types;
    if IsRegular(types) {
      UptoCount(0, Trip(info, c), q);
      assert OwnCoords(info, q, c) == ([], []);
    } else if |types| == 1 {
      PlainCount(types[0], Coord(types[0], axes[0], c), Trip(info, c), own, q);
    } else if types[1] == Regular {
      MixedCount(info, Coord(types[0], axes[0], c), c, q);
    } else {
      PairCount(info, Coord(types[0], axes[0], c), Coord(types[1], axes[1], c), c, q);
    }
  }

  lemma {:induction false} MixedCount(info: Info, i: int, c: Ctx, q: int)
    requires LoopOk(info, c) && LoopCovered(info, c) && |info.types| == 2 && info.types[0] != Regular
             && info.types[1] == Regular
    requires InGrid(Placed(info.types[0], i), OwnExtents(info, c))
    ensures multiset(PassPositions(Trip(info, c), TileSize(info, c), PassCount(info, c), i, info.check))[q]
            == if 0 <= q < Trip(info, c) && Placed(info.types[0], i) == OwnCoords(info, q, c) then 1 else 0
  {
    var n, t, kind := Trip(info, c), TileSize(info, c), info.types[0];
    RegularAddsNothing(Placed(kind, Trips(n, t)), t);
    RegularAddsNothing(Placed(kind, q / t), q % t);
    PlacedIn(kind, i, Trips(n, t));
    PassFits(HostWalk(info, c), t, info.check);
    PassOwned(n, t, PassCount(info, c), i, q, info.check);
    if Placed(kind, i) == Placed(kind, q / t) { PlacedSame(kind, i, q / t); }
  }

  lemma {:induction false} RegularAddsNothing(x: (seq<int>, seq<int>), v: int)
    ensures Both(Placed(Regular, v), x) == x
  {
    assert [] + x.0 == x.0 && [] + x.1 == x.1;
  }

  /** When blocks of `m` iterations, starting `t` apart, cover n iterations and no more. */
  predicate PassCovers(n: nat, t: int, m: int, check: bool)
    requires t > 0
  {
    n == 0 || if n <= t then if check then n <= m else m == n else m == t && (check || n % t == 0)
  }

  lemma {:induction false} PassFits(w: Walk, t: int, check: bool)
    requires w.step > 0 && t > 0 && Len(w) >= 0
    ensures var m := Trips(t, w.step);
            1 <= m <= t && (PassCovers(Trips(Len(w), w.step), t, m, check) <==> SerialTileFits(w, t, check))
  {
    var m, n := Trips(t, w.step), Trips(Len(w), w.step);
    TripsBounds(t, w.step);
    PassWithinStride(t, w.step);
    CountAgainst(t, w.step, t);
    MulMono(t, 1, w.step);
    FullBlock(t, w.step);
    if t * w.step == w.step * m { Cancel(w.step, t, m); }
    if Len(w) > 0 {
      TripsBounds(Len(w), w.step);
      CountAgainst(Len(w), w.step, t);
      CountAgainst(Len(w), w.step, m);
    }
  }

  /** At most k iterations reach exactly as far as k steps. */
  lemma {:induction false} CountAgainst(len: int, step: int, k: int)
    requires step > 0 && len > 0
    ensures Trips(len, step) <= k <==> len <= step * k
  {
    TripsBounds(len, step);
    if Trips(len, step) <= k { MulMono(step, Trips(len, step), k); } else { MulMono(step, k, Trips(len, step) - 1); }
  }

  /** Block i runs iteration q once if it is one of its own, and nothing else. */
  predicate OwnsInPass(n: nat, t: int, m: int, i: int, q: int, check: bool)
    requires t > 0
  {
    multiset(PassPositions(n, t, m, i, check))[q] == if 0 <= q < n && q / t == i then 1 else 0
  }

  lemma {:induction false} PassOwned(n: nat, t: int, m: int, i: int, q: int, check: bool)
    requires t > 0 && 1 <= m <= t && 0 <= i < Trips(n, t) && PassCovers(n, t, m, check)
    ensures OwnsInPass(n, t, m, i, q, check)
  {
    UptoCount(t * i, if check then Min(t * i + m, n) else t * i + m, q);
    BlockOf(t, n, i, q);
    MulMono(t, 0, i);
    if n <= t {
      TripsUnique(n, t, 1);
    } else if !check {
      WholeTiles(n, t, i, 0);
    }
  }

  /** Every block of the grid owns exactly its iterations if and only if the passes cover. */
  lemma {:induction false} PassExactly(n: nat, t: int, m: int, check: bool)
    requires t > 0 && 1 <= m <= t
    ensures (forall i, q :: 0 <= i < Trips(n, t) ==> OwnsInPass(n, t, m, i, q, check)) <==> PassCovers(n, t, m, check)
  {
    if PassCovers(n, t, m, check) {
      forall i, q | 0 <= i < Trips(n, t) ensures OwnsInPass(n, t, m, i, q, check) { PassOwned(n, t, m, i, q, check); }
    } else {
      var i, q := PassMisses(n, t, m, check);
      assert !OwnsInPass(n, t, m, i, q, check);
    }
  }

  /** How often block i runs iteration q. */
  lemma {:induction false} PassRuns(n: nat, t: int, m: int, i: int, q: int, check: bool)
    ensures var start := t * i;
            multiset(PassPositions(n, t, m, i, check))[q]
            == if start <= q < start + m && (check ==> q < n) then 1 else 0
  {
    UptoCount(t * i, if check then Min(t * i + m, n) else t * i + m, q);
  }

  /** A block and an iteration that it leaves out or runs past the end. */
  lemma {:induction false} PassMisses(n: nat, t: int, m: int, check: bool) returns (i: int, q: int)
    requires t > 0 && 1 <= m <= t && !PassCovers(n, t, m, check)
    ensures 0 <= i < Trips(n, t) && !OwnsInPass(n, t, m, i, q, check)
  {
    CountAgainst(n, t, 0);
    assert t * 0 == 0;
    if m < n && m < t {
      i, q := 0, m;
      BlockOf(t, n, 0, q);
      PassRuns(n, t, m, i, q, check);
    } else if n <= t {
      i, q := 0, n;
      PassRuns(n, t, m, i, q, check);
    } else {
      i, q := Trips(n, t) - 1, n;
      StrayInLast(n, t);
      PassRuns(n, t, m, i, q, check);
    }
  }

  /** When whole blocks do not fill the range, the last one holds the first number behind it. */
  lemma {:induction false} StrayInLast(n: nat, t: int)
    requires t > 0 && n % t != 0
    ensures Trips(n, t) > 0 && t * (Trips(n, t) - 1) <= n < t * (Trips(n, t) - 1) + t
  {
    PartialLastTile(n, t);
    TripsBounds(n, t);
  }

  lemma {:induction false} PlacedIn(kind: LoopType, v: int, e: int)
    requires kind != Regular && InGrid(Placed(kind, v), Placed(kind, e))
    ensures 0 <= v < e
  {
    if kind == Outer { assert Placed(kind, v).0[0] == v && Placed(kind, e).0[0] == e; }
    if kind == Inner { assert Placed(kind, v).1[0] == v && Placed(kind, e).1[0] == e; }
  }

  lemma {:induction false} PlainCount(kind: LoopType, i: int, n: int, own: (seq<int>, seq<int>), q: int)
    requires kind != Regular && own == Placed(kind, i) && InGrid(own, Placed(kind, n))
    ensures multiset([i])[q] == if 0 <= q < n && own == Placed(kind, q) then 1 else 0
  {
    PlacedIn(kind, i, n);
    if own == Placed(kind, q) { PlacedSame(kind, i, q); }
  }

  lemma {:induction false} PlacedSame(kind: LoopType, a: int, b: int)
    requires kind != Regular && Placed(kind, a) == Placed(kind, b)
    ensures a == b
  {
    if kind == Outer { assert Placed(kind, a).0[0] == Placed(kind, b).0[0]; }
    if kind == Inner { assert Placed(kind, a).1[0] == Placed(kind, b).1[0]; }
  }

  lemma {:induction false} PairedSame(k1: LoopType, k2: LoopType, a: int, a': int, b: int, b': int)
    requires k1 != Regular && k2 != Regular
    ensures Both(Placed(k1, a), Placed(k2, b)) == Both(Placed(k1, a'), Placed(k2, b')) <==> a == a' && b == b'
  {
    var l, r := Both(Placed(k1, a), Placed(k2, b)), Both(Placed(k1, a'), Placed(k2, b'));
    if l == r {
      if k1 == k2 == Outer { assert l.0[0] == r.0[0] && l.0[1] == r.0[1]; }
      if k1 == k2 == Inner { assert l.1[0] == r.1[0] && l.1[1] == r.1[1]; }
      if k1 != k2 { assert l.0[0] == r.0[0] && l.1[0] == r.1[0]; }
    }
  }

  lemma {:induction false} PairedIn(k1: LoopType, k2: LoopType, a: int, b: int, ea: int, eb: int)
    requires k1 != Regular && k2 != Regular
             && InGrid(Both(Placed(k1, a), Placed(k2, b)), Both(Placed(k1, ea), Placed(k2, eb)))
    ensures 0 <= a < ea && 0 <= b < eb
  {
    var l, r := Both(Placed(k1, a), Placed(k2, b)), Both(Placed(k1, ea), Placed(k2, eb));
    if k1 == k2 == Outer { assert l.0[0] == a && l.0[1] == b && r.0[0] == ea && r.0[1] == eb; }
    if k1 == k2 == Inner { assert l.1[0] == a && l.1[1] == b && r.1[0] == ea && r.1[1] == eb; }
    if k1 == Outer && k2 == Inner { assert l.0[0] == a && l.1[0] == b && r.0[0] == ea && r.1[0] == eb; }
    if k1 == Inner && k2 == Outer { assert l.1[0] == a && l.0[0] == b && r.1[0] == ea && r.0[0] == eb; }
  }

  lemma {:induction false} PairCount(info: Info, i: int, j: int, c: Ctx, q: int)
    requires LoopOk(info, c) && LoopCovered(info, c) && |info.types| == 2 && info.types[0] != Regular
             && info.types[1] != Regular
    requires InGrid(Both(Placed(info.types[1], j), Placed(info.types[0], i)), OwnExtents(info, c))
    ensures var r, n := TileSize(info, c) * i + j, Trip(info, c);
            multiset(if info.check && r >= n then [] else [r])[q]
            == if 0 <= q < n && Both(Placed(info.types[1], j), Placed(info.types[0], i)) == OwnCoords(info, q, c)
               then 1 else 0
  {
    PairInside(info, i, j, c);
    PairOwns(info, i, j, q, c);
    PairNumbers(Trip(info, c), TileSize(info, c), info.check, i, j, q);
  }

  lemma {:induction false} PairInside(info: Info, i: int, j: int, c: Ctx)
    requires LoopOk(info, c) && |info.types| == 2 && info.types[0] != Regular && info.types[1] != Regular
    requires InGrid(Both(Placed(info.types[1], j), Placed(info.types[0], i)), OwnExtents(info, c))
    ensures 0 <= i < Trips(Trip(info, c), TileSize(info, c)) && 0 <= j < TileSize(info, c)
  {
    PairedIn(info.types[1], info.types[0], j, i, TileSize(info, c), Trips(Trip(info, c), TileSize(info, c)));
  }

  lemma {:induction false} PairOwns(info: Info, i: int, j: int, q: int, c: Ctx)
    requires LoopOk(info, c) && |info.types| == 2 && info.types[0] != Regular && info.types[1] != Regular
    ensures Both(Placed(info.types[1], j), Placed(info.types[0], i)) == OwnCoords(info, q, c)
            <==> j == q % TileSize(info, c) && i == q / TileSize(info, c)
  {
    PairedSame(info.types[1], info.types[0], j, q % TileSize(info, c), i, q / TileSize(info, c));
  }

  lemma {:induction false} PairNumbers(n: nat, t: int, check: bool, i: int, j: int, q: int)
    requires t > 0 && 0 <= i < Trips(n, t) && 0 <= j < t && (check || n % t == 0)
    ensures var r := t * i + j;
            multiset(if check && r >= n then [] else [r])[q] == if 0 <= q < n && j == q % t && i == q / t then 1 else 0
  {
    ThreadInBlock(t, i, j, q);
    MulMono(t, 0, i);
    if !check { WholeTiles(n, t, i, j); }
  }

  // ----- the whole nest -----

  lemma {:induction false} NestCount(infos: seq<Info>, p: seq<int>, c: Ctx)
    requires ChainOk(infos, c) && |p| == |infos|
    ensures multiset(NestTrace(infos, c))[p] == if p in NestTrace(infos, c) then 1 else 0
    ensures infos != [] ==>
              (p in NestTrace(infos, c) <==> 0 <= p[0] < Trip(infos[0], c) && p[1..] in NestTrace(infos[1..], c))
  {
    if infos == [] {
      assert p == [];
    } else {
      assert p == [p[0]] + p[1..];
      NestCount(infos[1..], p[1..], c);
      UptoCount(0, Trip(infos[0], c), p[0]);
      CrossCount(Upto(0, Trip(infos[0], c)), NestTrace(infos[1..], c), p[0], p[1..]);
      assert p in multiset(NestTrace(infos, c)) <==> p in NestTrace(infos, c);
    }
  }

  /** Cutting a thread of the grid into the coordinates of the inner loops and of the outermost one. */
  lemma {:induction false} CutGrid(infos: seq<Info>, c: Ctx) returns (own: (seq<int>, seq<int>), c': Ctx)
    requires ChainOk(infos, c) && infos != [] && InGrid((c.outer, c.inner), GridExtents(infos, c))
    ensures c'.args == c.args && c.outer == c'.outer + own.0 && c.inner == c'.inner + own.1
    ensures |c'.outer| == CountAll(infos[1..], Outer) && |c'.inner| == CountAll(infos[1..], Inner)
    ensures |own.0| == Count(infos[0].types, Outer) && |own.1| == Count(infos[0].types, Inner)
    ensures ChainOk(infos[1..], c') && InGrid((c'.outer, c'.inner), GridExtents(infos[1..], c))
    ensures InGrid(own, OwnExtents(infos[0], c)) && SameCoords(infos[1..], c', c)
  {
    var rest, last := GridExtents(infos[1..], c), OwnExtents(infos[0], c);
    GridSizes(infos[1..], c);
    OwnExtentSizes(infos[0], c);
    assert GridExtents(infos, c) == Both(rest, last);
    own, c' := CutCoords(c, rest, last);
    SameHost(infos[1..], c, c');
  }

  lemma {:induction false} CutCoords(c: Ctx, rest: (seq<int>, seq<int>), last: (seq<int>, seq<int>))
    returns (own: (seq<int>, seq<int>), c': Ctx)
    requires InGrid((c.outer, c.inner), Both(rest, last))
    ensures c'.args == c.args && c.outer == c'.outer + own.0 && c.inner == c'.inner + own.1
    ensures InGrid((c'.outer, c'.inner), rest) && InGrid(own, last)
  {
    own := (c.outer[|rest.0|..], c.inner[|rest.1|..]);
    c' := Ctx(c.args, c.outer[..|rest.0|], c.inner[..|rest.1|]);
    BelowSplit(c.outer, rest.0, last.0);
    BelowSplit(c.inner, rest.1, last.1);
  }

  /** Coordinates do not matter for what a loop is. */
  lemma {:induction false} SameHost(infos: seq<Info>, c: Ctx, c': Ctx)
    requires c.args == c'.args && ChainOk(infos, c)
    ensures ChainOk(infos, c')
  {
    assert Host(c) == Host(c');
  }

  lemma {:induction false} OwnExtentSizes(info: Info, c: Ctx)
    requires LoopOk(info, c)
    ensures |OwnExtents(info, c).0| == Count(info.types, Outer) && |OwnExtents(info, c).1| == Count(info.types, Inner)
  {
    OwnSizes(info.types, Outer);
    OwnSizes(info.types, Inner);
  }

  lemma {:induction false} BelowSplit(g: seq<int>, a: seq<int>, b: seq<int>)
    requires Below(g, a + b)
    ensures Below(g[..|a|], a) && Below(g[|a|..], b)
  {
    forall k | 0 <= k < |b| ensures 0 <= g[|a| + k] < b[k] { assert (a + b)[|a| + k] == b[k]; }
    forall k | 0 <= k < |a| ensures 0 <= g[k] < a[k] { assert (a + b)[k] == a[k]; }
  }

  lemma {:induction false} SplitEqual(x: seq<int>, y: seq<int>, a: seq<int>, b: seq<int>)
    requires |x| == |a|
    ensures x + y == a + b <==> x == a && y == b
  {
    if x + y == a + b {
      assert x == (x + y)[..|x|] == (a + b)[..|a|] == a;
      assert y == (x + y)[|x|..] == (a + b)[|a|..] == b;
    }
  }

  /** A thread of the grid runs an iteration tuple once if it is the tuple's thread, else never. */
  lemma {:induction false} ThreadCount(infos: seq<Info>, p: seq<int>, c: Ctx)
    requires ChainOk(infos, c) && ChainCovered(infos, c)
    requires |p| == |infos| && InGrid((c.outer, c.inner), GridExtents(infos, c))
    ensures multiset(ThreadTrace(infos, c))[p]
            == if p in NestTrace(infos, c) && ThreadOf(infos, p, c) == (c.outer, c.inner) then 1 else 0
    decreases |infos|
  {
    if infos == [] {
      assert p == [] && c.outer == [] && c.inner == [];
    } else {
      var rest := infos[1..];
      var axes := AxisHeights(ToTree(infos));
      var own, c' := CutGrid(infos, c);
      assert Host(c) == Host(c');
      assert p == [p[0]] + p[1..];
      HeadAxes(infos);
      OwnAxes(infos, c'.outer, c'.inner, own, c);
      HeadCount(infos[0], axes, own, c, p[0]);
      SameArgs(rest, p[1..], c, c');
      RestCovered(infos, c, c');
      ThreadCount(rest, p[1..], c');
      AgreeOnAxes(rest, c', c);
      CrossCount(ThreadPositions(infos[0], axes, c), ThreadTrace(rest, c), p[0], p[1..]);
      NestCount(infos, p, c);
      ThreadSplit(infos, p, own, c', c);
    }
  }

  lemma {:induction false} RestCovered(infos: seq<Info>, c: Ctx, c': Ctx)
    requires infos != [] && ChainOk(infos, c) && ChainCovered(infos, c) && c.args == c'.args
    ensures ChainOk(infos[1..], c') && ChainCovered(infos[1..], c')
  {
    assert Host(c) == Host(c');
  }

  /** A thread owns an iteration when its own axes do at the head and the other axes do in the rest. */
  lemma {:induction false} ThreadSplit(infos: seq<Info>, p: seq<int>, own: (seq<int>, seq<int>), c': Ctx, c: Ctx)
    requires infos != [] && |p| == |infos| && ChainOk(infos, c) && ChainOk(infos[1..], c)
    requires c.outer == c'.outer + own.0 && c.inner == c'.inner + own.1
    requires |c'.outer| == CountAll(infos[1..], Outer) && |c'.inner| == CountAll(infos[1..], Inner)
    ensures ThreadOf(infos, p, c) == (c.outer, c.inner)
            <==> ThreadOf(infos[1..], p[1..], c) == (c'.outer, c'.inner) && OwnCoords(infos[0], p[0], c) == own
  {
    ThreadSizes(infos[1..], p[1..], c);
    var th, oc := ThreadOf(infos[1..], p[1..], c), OwnCoords(infos[0], p[0], c);
    SplitEqual(th.0, oc.0, c'.outer, own.0);
    SplitEqual(th.1, oc.1, c'.inner, own.1);
  }

  /** The nest, its grid and its thread map depend on the kernel arguments only. */
  lemma {:induction false} SameArgs(infos: seq<Info>, p: seq<int>, c: Ctx, c': Ctx)
    requires ChainOk(infos, c) && c.args == c'.args
    ensures ChainOk(infos, c') && NestTrace(infos, c) == NestTrace(infos, c')
            && GridExtents(infos, c) == GridExtents(infos, c')
    ensures ThreadOf(infos, p, c) == ThreadOf(infos, p, c')
  {
    assert Host(c) == Host(c');
    if infos != [] { SameArgs(infos[1..], if p == [] then p else p[1..], c, c'); }
  }

  /** Iteration numbers of a tuple of loop variable values. */
  function PositionsOf(infos: seq<Info>, at: seq<int>, c: Ctx): seq<int>
    requires ChainOk(infos, c)
  {
    if infos == [] || at == [] then []
    else
      var w := HostWalk(infos[0], c);
      [(if w.up then at[0] - w.start else w.start - at[0]) / w.step] + PositionsOf(infos[1..], at[1..], c)
  }

  lemma {:induction false} DivExact(a: int, q: int)
    requires a > 0
    ensures (a * q) / a == q
  {
    var d, m := (a * q) / a, (a * q) % a;
    assert a * q == a * d + m && 0 <= m < a;
    if d < q { MulMono(a, d + 1, q); } else if d > q { MulMono(a, q + 1, d); }
  }

  lemma {:induction false} PositionsInverse(infos: seq<Info>, p: seq<int>, c: Ctx)
    requires ChainOk(infos, c) && |p| == |infos|
    ensures PositionsOf(infos, ValuesOf(infos, p, c), c) == p
  {
    if infos != [] {
      var w := HostWalk(infos[0], c);
      PositionsInverse(infos[1..], p[1..], c);
      DivExact(w.step, p[0]);
      assert ValuesOf(infos, p, c)[1..] == ValuesOf(infos[1..], p[1..], c);
    }
  }

  lemma {:induction false} TraceShape(infos: seq<Info>, p: seq<int>, c: Ctx)
    requires ChainOk(infos, c) && (p in ThreadTrace(infos, c) || p in NestTrace(infos, c))
    ensures |p| == |infos|
  {
    if infos != [] {
      if p in ThreadTrace(infos, c) {
        CrossShape(ThreadPositions(infos[0], AxisHeights(ToTree(infos)), c), ThreadTrace(infos[1..], c), p);
      } else {
        CrossShape(Upto(0, Trip(infos[0], c)), NestTrace(infos[1..], c), p);
      }
      TraceShape(infos[1..], p[1..], c);
    }
  }

  /** Distinct iterations give distinct hits, so hits count as iterations do. */
  lemma {:induction false} HitCount(infos: seq<Info>, ps: seq<seq<int>>, hit: Hit, c: Ctx)
    requires ChainOk(infos, c) && forall k :: 0 <= k < |ps| ==> |ps[k]| == |infos|
    ensures var p := PositionsOf(infos, hit.at, c);
            multiset(HitsOf(infos, ps, c))[hit]
            == if |p| == |infos| && hit == Hit(0, ValuesOf(infos, p, c)) then multiset(ps)[p] else 0
  {
    if ps == [] {
      assert HitsOf(infos, ps, c) == [];
    } else {
      var p := PositionsOf(infos, hit.at, c);
      var first := Hit(0, ValuesOf(infos, ps[0], c));
      assert multiset(HitsOf(infos, ps, c)) == multiset{first} + multiset(HitsOf(infos, ps[1..], c)) by {
        assert HitsOf(infos, ps, c) == [first] + HitsOf(infos, ps[1..], c);
      }
      assert multiset(ps) == multiset{ps[0]} + multiset(ps[1..]) by { assert ps == [ps[0]] + ps[1..]; }
      HitCount(infos, ps[1..], hit, c);
      PositionsInverse(infos, ps[0], c);
    }
  }

  /** The thread that owns a hit. */
  function Owner(infos: seq<Info>, hit: Hit, c: Ctx): (seq<int>, seq<int>)
    requires ChainOk(infos, c)
  {
    ThreadOf(infos, PositionsOf(infos, hit.at, c), c)
  }

  /** Every thread of the grid runs exactly the source iterations it owns, each once. */
  lemma {:induction false} KernelCoversNest(infos: seq<Info>, env: Env, c: Ctx)
    requires ChainOk(infos, c) && ChainCovered(infos, c) && InGrid((c.outer, c.inner), GridExtents(infos, c))
    ensures var kernel, source := Exec(CudaChain(infos), env, c), Exec(SourceChain(infos), env, c);
            && kernel.Ran? && source.Ran?
            && forall hit :: multiset(kernel.hits)[hit]
                             == if hit in source.hits && Owner(infos, hit, c) == (c.outer, c.inner) then 1 else 0
  {
    ThreadMeaning(infos, env, c);
    NestMeaning(infos, env, c);
    var ts, ns := ThreadTrace(infos, c), NestTrace(infos, c);
    forall k | 0 <= k < |ts| ensures |ts[k]| == |infos| { TraceShape(infos, ts[k], c); }
    forall k | 0 <= k < |ns| ensures |ns[k]| == |infos| { TraceShape(infos, ns[k], c); }
    forall hit
      ensures multiset(HitsOf(infos, ts, c))[hit]
              == if hit in HitsOf(infos, ns, c) && Owner(infos, hit, c) == (c.outer, c.inner) then 1 else 0
    {
      var p := PositionsOf(infos, hit.at, c);
      HitCount(infos, ts, hit, c);
      HitCount(infos, ns, hit, c);
      assert hit in HitsOf(infos, ns, c) <==> hit in multiset(HitsOf(infos, ns, c));
      if |p| == |infos| {
        ThreadCount(infos, p, c);
        assert p in ns <==> p in multiset(ns);
      }
    }
  }

  lemma {:induction false} OwnerOfIteration(infos: seq<Info>, p: seq<int>, c: Ctx)
    requires ChainOk(infos, c) && |p| == |infos| && p in NestTrace(infos, c)
    ensures InGrid(ThreadOf(infos, p, c), GridExtents(infos, c))
  {
    if infos != [] {
      NestCount(infos, p, c);
      OwnerOfIteration(infos[1..], p[1..], c);
      CoordsInExtents(infos[0], p[0], c);
    }
  }

  /** Every source iteration happens once and has its owner in the grid. */
  lemma {:induction false} EveryHitOwned(infos: seq<Info>, env: Env, c: Ctx, hit: Hit)
    requires ChainOk(infos, c) && Exec(SourceChain(infos), env, c).Ran? && hit in Exec(SourceChain(infos), env, c).hits
    ensures InGrid(Owner(infos, hit, c), GridExtents(infos, c))
    ensures multiset(Exec(SourceChain(infos), env, c).hits)[hit] == 1
  {
    NestMeaning(infos, env, c);
    var ns, p := NestTrace(infos, c), PositionsOf(infos, hit.at, c);
    forall k | 0 <= k < |ns| ensures |ns[k]| == |infos| { TraceShape(infos, ns[k], c); }
    HitCount(infos, ns, hit, c);
    assert hit in multiset(HitsOf(infos, ns, c));
    NestCount(infos, p, c);
    OwnerOfIteration(infos, p, c);
  }

  // ----- one tile -----

  predicate InTile(info: Info, p: TileParams, c: Ctx)
    requires LoopOk(info, c)
  {
    && 0 <= Coord(p.first.kind, p.first.axis, c) < Trips(Trip(info, c), TileSize(info, c))
    && 0 <= Coord(p.second.kind, p.second.axis, c) < TileSize(info, c)
  }

  /** What iteration `q` of the source loop looks like to its body. */
  function IterationHit(info: Info, q: int, c: Ctx): Hit {
    var w := HostWalk(info, c);
    Hit(0, [Point(w, w.step * q)])
  }

  lemma {:induction false} TileThreadHits(info: Info, p: TileParams, env: Env, c: Ctx)
    requires LoopOk(info, c) && p.size == info.size && p.first.kind != Regular && p.second.kind != Regular
    ensures var q := TileSize(info, c) * Coord(p.first.kind, p.first.axis, c) + Coord(p.second.kind, p.second.axis, c);
            Exec(CudaTile(info.head, p, Body(0)), env, c)
            == Ran(if p.check && q >= Trip(info, c) then [] else [IterationHit(info, q, c)])
  {
    var w := HostWalk(info, c);
    var q := TileSize(info, c) * Coord(p.first.kind, p.first.axis, c) + Coord(p.second.kind, p.second.axis, c);
    IndexedTileRun(info, p, Body(0), env, c);
    var v := Point(w, w.step * q);
    assert [v] + [] == [v];
    assert Prepend(v, [Hit(0, [])]) == [Hit(0, [v])];
  }

  lemma {:induction false} SameIteration(info: Info, q: int, r: int, c: Ctx)
    requires LoopOk(info, c)
    ensures IterationHit(info, q, c) == IterationHit(info, r, c) <==> q == r
  {
    var w := HostWalk(info, c);
    if IterationHit(info, q, c) == IterationHit(info, r, c) {
      assert [Point(w, w.step * q)][0] == [Point(w, w.step * r)][0];
      DivExact(w.step, q);
      DivExact(w.step, r);
    }
  }

  /** On a grid of ceil(n / T) blocks of T threads, iteration `q` of the loop is run by thread q % T of
    * block q / T, once, and by no other thread. */
  lemma {:induction false} TileBijection(info: Info, p: TileParams, env: Env, c: Ctx, q: int)
    requires LoopOk(info, c) && p.size == info.size && p.first.kind != Regular && p.second.kind != Regular
    requires InTile(info, p, c) && 0 <= q < Trip(info, c)
    ensures var t, run := TileSize(info, c), Exec(CudaTile(info.head, p, Body(0)), env, c);
            && 0 <= q / t < Trips(Trip(info, c), t) && 0 <= q % t < t
            && run.Ran?
            && multiset(run.hits)[IterationHit(info, q, c)]
               == if Coord(p.first.kind, p.first.axis, c) == q / t && Coord(p.second.kind, p.second.axis, c) == q % t
                  then 1 else 0
  {
    var n, t := Trip(info, c), TileSize(info, c);
    var i, j := Coord(p.first.kind, p.first.axis, c), Coord(p.second.kind, p.second.axis, c);
    TileThreadHits(info, p, env, c);
    SameIteration(info, q, t * i + j, c);
    ThreadInBlock(t, i, j, q);
    BlockInGrid(n, t, q);
  }

  lemma {:induction false} BlockInGrid(n: nat, t: int, q: int)
    requires t > 0 && 0 <= q < n
    ensures 0 <= q / t < Trips(n, t) && 0 <= q % t < t
  {
    TripsBounds(n, t);
    var d := q / t;
    assert q == t * d + q % t;
    if d >= Trips(n, t) { MulMono(t, Trips(n, t), d); }
    if d < 0 { MulMono(t, d, -1); }
  }

  // ----- a tile with an index and a `for` loop -----

  lemma {:induction false} MappedCount(info: Info, qs: seq<int>, hits: seq<Hit>, q: int, c: Ctx)
    requires LoopOk(info, c) && |hits| == |qs| && forall k :: 0 <= k < |qs| ==> hits[k] == IterationHit(info, qs[k], c)
    ensures multiset(hits)[IterationHit(info, q, c)] == multiset(qs)[q]
  {
    if qs != [] {
      MappedCount(info, qs[1..], hits[1..], q, c);
      SameIteration(info, q, qs[0], c);
      assert qs == [qs[0]] + qs[1..] && hits == [hits[0]] + hits[1..];
    }
  }

  lemma {:induction false} MixedThreadHits(info: Info, p: TileParams, env: Env, c: Ctx, q: int)
    requires LoopOk(info, c) && p.size == info.size && p.first.kind != Regular && p.second.kind == Regular
    ensures var run := Exec(CudaTile(info.head, p, Body(0)), env, c);
            var qs := PassPositions(Trip(info, c), TileSize(info, c), PassCount(info, c),
                                    Coord(p.first.kind, p.first.axis, c), p.check);
            run.Ran? && multiset(run.hits)[IterationHit(info, q, c)] == multiset(qs)[q]
  {
    var w, i := HostWalk(info, c), Coord(p.first.kind, p.first.axis, c);
    var qs := PassPositions(Trip(info, c), TileSize(info, c), PassCount(info, c), i, p.check);
    MixedTileRun(info, p, Body(0), env, c);
    PassIsPositions(w, Trip(info, c), TileSize(info, c), i, p.check);
    HitsAreValues(Src(info.head.name), AtPositions(w, qs), 0, env, c);
    MappedCount(info, qs, Exec(CudaTile(info.head, p, Body(0)), env, c).hits, q, c);
  }

  /** Every block of the grid runs exactly the iterations with its number. */
  ghost predicate BlocksOwn(info: Info, p: TileParams, env: Env, args: map<string, int>)
    requires LoopOk(info, Ctx(args, [], []))
  {
    forall c: Ctx, q :: c.args == args && LoopOk(info, c) && InBlocks(info, p, c) ==> OwnsHit(info, p, env, c, q)
  }

  predicate InBlocks(info: Info, p: TileParams, c: Ctx)
    requires LoopOk(info, c)
  {
    0 <= Coord(p.first.kind, p.first.axis, c) < Trips(Trip(info, c), TileSize(info, c))
  }

  predicate OwnsHit(info: Info, p: TileParams, env: Env, c: Ctx, q: int)
    requires LoopOk(info, c)
  {
    var run := Exec(CudaTile(info.head, p, Body(0)), env, c);
    run.Ran? && multiset(run.hits)[IterationHit(info, q, c)]
                == if 0 <= q < Trip(info, c) && q / TileSize(info, c) == Coord(p.first.kind, p.first.axis, c) then 1
                   else 0
  }

  /** With an index for the blocks and a `for` loop inside, the grid runs the loop exactly if and only if the serial
    * tile would: unit step, unit tile or a range that one pass covers, and fitting counts without the check. */
  lemma {:induction false} MixedTileExact(info: Info, p: TileParams, env: Env, args: map<string, int>)
    requires LoopOk(info, Ctx(args, [], [])) && p.size == info.size && p.first.kind != Regular
             && p.second.kind == Regular
    ensures var host := Ctx(args, [], []);
            BlocksOwn(info, p, env, args) <==> SerialTileFits(HostWalk(info, host), TileSize(info, host), p.check)
  {
    var host := Ctx(args, [], []);
    var n, t, m := Trip(info, host), TileSize(info, host), PassCount(info, host);
    PassFits(HostWalk(info, host), t, p.check);
    PassExactly(n, t, m, p.check);
    if PassCovers(n, t, m, p.check) {
      forall c: Ctx, q | c.args == args && LoopOk(info, c) && InBlocks(info, p, c) ensures OwnsHit(info, p, env, c, q) {
        assert Host(c) == host == Host(host);
        MixedThreadHits(info, p, env, c, q);
        assert OwnsInPass(n, t, m, Coord(p.first.kind, p.first.axis, c), q, p.check);
      }
    } else {
      var i, q :| 0 <= i < Trips(n, t) && !OwnsInPass(n, t, m, i, q, p.check);
      MixedTileMisses(info, p, env, args, i, q);
    }
  }

  lemma {:induction false} MixedTileMisses(info: Info, p: TileParams, env: Env, args: map<string, int>, i: int, q: int)
    requires LoopOk(info, Ctx(args, [], [])) && p.size == info.size && p.first.kind != Regular
             && p.second.kind == Regular
    requires var host := Ctx(args, [], []);
             0 <= i < Trips(Trip(info, host), TileSize(info, host))
             && !OwnsInPass(Trip(info, host), TileSize(info, host), PassCount(info, host), i, q, p.check)
    ensures !BlocksOwn(info, p, env, args)
  {
    var host := Ctx(args, [], []);
    var c := Ctx(args, PlaceAt(Outer, p.first, i, p.second, 0), PlaceAt(Inner, p.first, i, p.second, 0));
    assert Host(c) == host == Host(host);
    assert LoopOk(info, c) && Coord(p.first.kind, p.first.axis, c) == i;
    MixedThreadHits(info, p, env, c, q);
    assert InBlocks(info, p, c) && !OwnsHit(info, p, env, c, q);
  }

  /** No thread of the grid runs anything but iterations of the loop. */
  ghost predicate NothingElse(info: Info, p: TileParams, env: Env, args: map<string, int>)
    requires LoopOk(info, Ctx(args, [], []))
  {
    forall c: Ctx :: c.args == args && Host(c) == Ctx(args, [], []) && LoopOk(info, c) && InTile(info, p, c) ==>
      var run := Exec(CudaTile(info.head, p, Body(0)), env, c);
      run.Ran?
      && forall hit ::
           hit in run.hits ==> exists q :: 0 <= q < Trip(info, c) && hit == IterationHit(info, q, c)
  }

  function PlaceAt(kind: LoopType, f: AttributedLoop, i: int, s: AttributedLoop, j: int): (r: seq<int>)
    ensures |r| == f.axis + s.axis + 1
    ensures forall a ::
              0 <= a < |r| ==>
                r[a] == if f == AttributedLoop(kind, a) then i else if s == AttributedLoop(kind, a) then j else 0
  {
    seq(f.axis + s.axis + 1, a requires 0 <= a =>
      if f == AttributedLoop(kind, a) then i else if s == AttributedLoop(kind, a) then j else 0)
  }

  lemma {:induction false} PartialLastTile(n: nat, t: int)
    requires t > 0 && n % t != 0
    ensures Trips(n, t) > 0 && t * (Trips(n, t) - 1) + (t - 1) >= n
  {
    TripsBounds(n, t);
    var k := Trips(n, t);
    assert t * (k - 1) + (t - 1) == t * k - 1;
    if n == t * k { ModOfProduct(t, k); }
  }

  /** With the check nothing else runs; without it, exactly when the tile size divides the trip count. */
  lemma {:induction false} TileStaysInRange(info: Info, p: TileParams, env: Env, args: map<string, int>)
    requires LoopOk(info, Ctx(args, [], [])) && p.size == info.size && p.first.kind != Regular
             && p.second.kind != Regular
    requires p.first != p.second
    ensures NothingElse(info, p, env, args)
            <==> p.check || Trip(info, Ctx(args, [], [])) % TileSize(info, Ctx(args, [], [])) == 0
  {
    var host := Ctx(args, [], []);
    var n, t := Trip(info, host), TileSize(info, host);
    if p.check || n % t == 0 {
      forall c: Ctx | c.args == args && Host(c) == host && LoopOk(info, c) && InTile(info, p, c)
        ensures var run := Exec(CudaTile(info.head, p, Body(0)), env, c);
                run.Ran?
                && forall hit ::
                     hit in run.hits ==> exists q :: 0 <= q < Trip(info, c) && hit == IterationHit(info, q, c)
      {
        var i, j := Coord(p.first.kind, p.first.axis, c), Coord(p.second.kind, p.second.axis, c);
        TileThreadHits(info, p, env, c);
        MulMono(t, 0, i);
        if !p.check { WholeTiles(n, t, i, j); }
        assert t * i + j < n ==>
                 0 <= t * i + j < Trip(info, c)
                 && IterationHit(info, t * i + j, c) == IterationHit(info, t * i + j, c);
      }
    } else {
      PartialLastTile(n, t);
      StrayThread(info, p, env, args);
    }
  }

  lemma {:induction false} StrayThread(info: Info, p: TileParams, env: Env, args: map<string, int>)
    requires LoopOk(info, Ctx(args, [], [])) && p.size == info.size && p.first.kind != Regular
             && p.second.kind != Regular
    requires p.first != p.second && !p.check
    requires var host := Ctx(args, [], []); var n, t := Trip(info, host), TileSize(info, host);
             Trips(n, t) > 0 && t * (Trips(n, t) - 1) + (t - 1) >= n
    ensures !NothingElse(info, p, env, args)
  {
    var host := Ctx(args, [], []);
    var n, t := Trip(info, host), TileSize(info, host);
    var i, j := Trips(n, t) - 1, t - 1;
    var c := Ctx(args, PlaceAt(Outer, p.first, i, p.second, j), PlaceAt(Inner, p.first, i, p.second, j));
    assert Host(c) == host == Host(host);
    assert LoopOk(info, c) && Trip(info, c) == n && TileSize(info, c) == t;
    assert Coord(p.first.kind, p.first.axis, c) == i && Coord(p.second.kind, p.second.axis, c) == j;
    assert InTile(info, p, c);
    TileThreadHits(info, p, env, c);
    var stray := IterationHit(info, t * i + j, c);
    assert stray in Exec(CudaTile(info.head, p, Body(0)), env, c).hits;
    forall q | 0 <= q < Trip(info, c) ensures stray != IterationHit(info, q, c) {
      SameIteration(info, q, t * i + j, c);
    }
  }
}
