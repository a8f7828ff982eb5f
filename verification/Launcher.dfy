/** The host launcher: it sizes the grid from the loop headers alone, without seeing the kernel code. */
module Launcher {
  import opened LoopLang
  import opened LoopHeader
  import opened LoopTree
  import opened KernelUtils
  import opened CudaNest
  import opened GridCoverage

  /** The launcher's own record of a loop: a declared variable and a header. */
  datatype Meta = Meta(v: VarName, head: Header)

  /** `(1 + end - start + step - 1) / step`, with the parts the header calls for. */
  function ExtentExpr(m: Meta): Expr {
    var h := m.head;
    var one := h.cmp == Le || h.cmp == Ge;
    var range := if IsInc(h) then Minus(if one then Plus(Lit(1), h.end) else h.end, h.start)
                 else Minus(if one then Plus(Lit(1), h.start) else h.start, h.end);
    if h.inc.Compound? then Quot(Minus(Plus(range, h.inc.val), Lit(1)), h.inc.val) else range
  }

  function TileInc(h: Header, size: Expr): Inc {
    match h.inc
    case Unary(uo) =>
      var bo :=
        if uo == PreInc || uo == PostInc then AddAssign
        else if uo == PreDec || uo == PostDec then RemoveAssign
        else BinOp.Other;
      Compound(bo, size)
    case Compound(bo, val) => Compound(bo, Times(size, val))
  }

  /** The block loop of a tile: the source range, walked by whole tiles. */
  function FirstMeta(info: Info): Meta {
    var h := info.head;
    Meta(Tiled(h.name), if info.size == Lit(0) then h else h.(inc := TileInc(h, info.size)))
  }

  /** The loop inside a block: from the tiled variable up to one tile size more. */
  function SecondMeta(info: Info): Meta {
    var h, tiled := info.head, Var(Tiled(info.head.name));
    Meta(Src(h.name), h.(start := tiled,
                         cmp := if h.cmp == Le then Lt else if h.cmp == Ge then Gt else h.cmp,
                         end := if info.size == Lit(0) then tiled else Plus(tiled, info.size)))
  }

  /** The loops on the chain of first children, regular ones left out. */
  function Collected(t: Loop): seq<Info> {
    (if Attributed(t) then [t.info] else []) + (if t.children == [] then [] else Collected(t.children[0]))
  }

  method CollectLoops(loopInfo: Loop, loops: seq<Info>) returns (out: seq<Info>)
    ensures out == loops + Collected(loopInfo)
    decreases loopInfo
  {
    out := loops;
    if Attributed(loopInfo) {
      out := out + [loopInfo.info];
    }
    if loopInfo.children != [] {
      var child := loopInfo.children[0];
      if child.children != [] {
        out := CollectLoops(child, out);
      } else {
        assert Collected(child) == (if Attributed(child) then [child.info] else []) + [];
        if Attributed(child) {
          out := out + [child.info];
        }
      }
    }
  }

  /** The records of one kind, in the order of the loops. */
  function MetasOf(loops: seq<Info>, kind: LoopType): seq<Meta>
    requires forall k :: 0 <= k < |loops| ==> TypesOk(loops[k].types)
  {
    if loops == [] then [] else OwnMetas(loops[0], kind) + MetasOf(loops[1..], kind)
  }

  function OwnMetas(info: Info, kind: LoopType): seq<Meta>
    requires TypesOk(info.types)
  {
    if |info.types| == 2
    then (if info.types[0] == kind then [FirstMeta(info)] else [])
      + (if info.types[1] == kind then [SecondMeta(info)] else [])
    else if info.types[0] == kind then [Meta(Src(info.head.name), info.head)] else []
  }

  /** The variables the launcher declares for a list of records. */
  function Declared(metas: seq<Meta>, env: Env, c: Ctx): Env {
    if metas == [] then env else Declared(metas[1..], env[metas[0].v := Eval(metas[0].head.start, env, c)], c)
  }

  /** The extents by axis number: the first record takes the highest axis. */
  function Dims(metas: seq<Meta>, env: Env, c: Ctx): (r: seq<int>)
    ensures |r| == |metas|
  {
    if metas == [] then []
    else
      var env' := env[metas[0].v := Eval(metas[0].head.start, env, c)];
      Dims(metas[1..], env', c) + [Eval(ExtentExpr(metas[0]), env', c)]
  }

  /** Declares the variables and fills the extents from the highest axis down. */
  method FillDims(metas: seq<Meta>, env: Env, c: Ctx) returns (dims: seq<int>, env': Env)
    ensures dims == Dims(metas, env, c) && env' == Declared(metas, env, c)
  {
    var n := |metas|;
    dims := seq(n, _ => 0);
    env' := env;
    for k := 0 to |metas|
      invariant n == |metas| - k && |dims| == |metas|
      invariant Declared(metas, env, c) == Declared(metas[k..], env', c)
      invariant Dims(metas, env, c) == Dims(metas[k..], env', c) + dims[n..]
    {
      var loop := metas[k];
      n := n - 1;
      env' := env'[loop.v := Eval(loop.head.start, env', c)];
      ghost var before := dims;
      dims := dims[n := Eval(ExtentExpr(loop), env', c)];
      assert metas[k..][1..] == metas[k + 1..];
      assert dims[n..] == [dims[n]] + before[n + 1..];
    }
    assert dims[n..] == dims;
  }

  lemma {:induction false} MetasStep(loops: seq<Info>, k: nat, kind: LoopType)
    requires k < |loops| && forall j :: 0 <= j < |loops| ==> TypesOk(loops[j].types)
    ensures MetasOf(loops[k..], kind) == OwnMetas(loops[k], kind) + MetasOf(loops[k + 1..], kind)
  {
    assert loops[k..][1..] == loops[k + 1..];
  }

  lemma {:induction false} MetasAssoc(a: seq<Meta>, b: seq<Meta>, d: seq<Meta>)
    ensures (a + b) + d == a + (b + d)
  {
  }

  /** Sorts the records of the loops into outer and inner ones. */
  method SplitLoops(loops: seq<Info>) returns (outer: seq<Meta>, inner: seq<Meta>)
    requires forall k :: 0 <= k < |loops| ==> TypesOk(loops[k].types)
    ensures outer == MetasOf(loops, Outer) && inner == MetasOf(loops, Inner)
  {
    outer, inner := [], [];
    for k := 0 to |loops|
      invariant MetasOf(loops, Outer) == outer + MetasOf(loops[k..], Outer)
      invariant MetasOf(loops, Inner) == inner + MetasOf(loops[k..], Inner)
    {
      var child := loops[k];
      MetasStep(loops, k, Outer);
      MetasStep(loops, k, Inner);
      MetasAssoc(outer, OwnMetas(child, Outer), MetasOf(loops[k + 1..], Outer));
      MetasAssoc(inner, OwnMetas(child, Inner), MetasOf(loops[k + 1..], Inner));
      outer, inner := AddLoop(child, outer, inner);
    }
  }

  method AddLoop(child: Info, outer0: seq<Meta>, inner0: seq<Meta>) returns (outer: seq<Meta>, inner: seq<Meta>)
    requires TypesOk(child.types)
    ensures outer == outer0 + OwnMetas(child, Outer) && inner == inner0 + OwnMetas(child, Inner)
  {
    outer, inner := outer0, inner0;
    if |child.types| == 2 {
      if child.types[0] == Outer {
        outer := outer + [FirstMeta(child)];
      } else if child.types[0] == Inner {
        inner := inner + [FirstMeta(child)];
      }
      if child.types[1] == Outer {
        outer := outer + [SecondMeta(child)];
      } else if child.types[1] == Inner {
        inner := inner + [SecondMeta(child)];
      }
    } else if child.types[0] == Outer {
      outer := outer + [Meta(Src(child.head.name), child.head)];
    } else if child.types[0] == Inner {
      inner := inner + [Meta(Src(child.head.name), child.head)];
    }
  }

  /** The two extent lists set up before a kernel call, for a top-level outer loop. */
  method GetRunDims(root: Loop, env: Env, c: Ctx) returns (outer: seq<int>, inner: seq<int>)
    requires Attributed(root) && forall k :: 0 <= k < |Collected(root)| ==> TypesOk(Collected(root)[k].types)
    ensures (outer, inner) == RunDims(Collected(root), env, c)
  {
    var loops := CollectLoops(root, []);
    assert loops == Collected(root);
    var outerMetas, innerMetas := SplitLoops(loops);
    var env': Env;
    outer, env' := FillDims(outerMetas, env, c);
    inner, env' := FillDims(innerMetas, env', c);
  }

  function RunDims(loops: seq<Info>, env: Env, c: Ctx): (seq<int>, seq<int>)
    requires forall k :: 0 <= k < |loops| ==> TypesOk(loops[k].types)
  {
    (Dims(MetasOf(loops, Outer), env, c), Dims(MetasOf(loops, Inner), Declared(MetasOf(loops, Outer), env, c), c))
  }

  lemma {:induction false} DimsConcat(a: seq<Meta>, b: seq<Meta>, env: Env, c: Ctx)
    ensures Dims(a + b, env, c) == Dims(b, Declared(a, env, c), c) + Dims(a, env, c)
  {
    if a == [] {
      assert a + b == b;
      assert Dims(b, env, c) + [] == Dims(b, env, c);
    } else {
      var env' := env[a[0].v := Eval(a[0].head.start, env, c)];
      assert (a + b)[1..] == a[1..] + b;
      DimsConcat(a[1..], b, env', c);
    }
  }

  /** All records share one scope, the outer ones first: an inner loop that starts at an outer variable is measured from
    * the value declared for that. */
  lemma {:induction false} OneScope(loops: seq<Info>, env: Env, c: Ctx)
    requires forall k :: 0 <= k < |loops| ==> TypesOk(loops[k].types)
    ensures var (outer, inner) := RunDims(loops, env, c);
            inner + outer == Dims(MetasOf(loops, Outer) + MetasOf(loops, Inner), env, c)
  {
    DimsConcat(MetasOf(loops, Outer), MetasOf(loops, Inner), env, c);
  }

  // ----- extents of one loop -----

  /** The launcher's extents are right for the loop: only a tile of two indexed loops can be wrong. */
  predicate LoopLaunched(info: Info, c: Ctx)
    requires LoopOk(info, c)
  {
    |info.types| == 2 && info.types[0] != Regular && info.types[1] != Regular ==>
      IsInc(info.head) && (HostWalk(info, c).step == 1 || TileSize(info, c) == 1)
  }

  lemma {:induction false} CeilingQuotient(len: int, d: int)
    requires len >= 0 && d > 0
    ensures TruncDiv(len + d - 1, d) == Trips(len, d)
  {
    if len == 0 { assert (d - 1) / d == 0; }
  }

  /** The extent as a number: range, plus one for non-strict comparisons, divided by the step. */
  lemma {:induction false} ExtentEval(m: Meta, env: Env, c: Ctx, a: int, b: int, d: int)
    requires a == Eval(m.head.start, env, c) && b == Eval(m.head.end, env, c)
    requires m.head.inc.Compound? ==> d == Eval(m.head.inc.val, env, c) && d > 0
    ensures var r := (if IsInc(m.head) then b - a else a - b) + (if m.head.cmp == Le || m.head.cmp == Ge then 1 else 0);
            Eval(ExtentExpr(m), env, c) == if m.head.inc.Compound? then TruncDiv(r + d - 1, d) else r
  {
    var h := m.head;
    var one := h.cmp == Le || h.cmp == Ge;
    var from, to := if IsInc(h) then h.end else h.start, if IsInc(h) then h.start else h.end;
    var range := Minus(if one then Plus(Lit(1), from) else from, to);
    assert Eval(Plus(Lit(1), from), env, c) == 1 + Eval(from, env, c);
    assert Eval(range, env, c) == (if IsInc(h) then b - a else a - b) + (if one then 1 else 0);
    if h.inc.Compound? {
      assert Eval(Plus(range, h.inc.val), env, c) == Eval(range, env, c) + d;
      assert Eval(Minus(Plus(range, h.inc.val), Lit(1)), env, c) == Eval(range, env, c) + d - 1;
    }
  }

  lemma {:induction false} PlainExtent(info: Info, env: Env, c: Ctx)
    requires LoopOk(info, c)
    ensures Eval(ExtentExpr(Meta(Src(info.head.name), info.head)), env, c) == Trip(info, c)
  {
    var w := HostWalk(info, c);
    LoopRuns(info, env, c);
    ExtentEval(Meta(Src(info.head.name), info.head), env, c, w.start, w.end, w.step);
    CeilingQuotient(Len(w), w.step);
  }

  /** The ceiling of a ceiling is one ceiling. */
  lemma {:induction false} CeilingOfCeiling(len: int, step: int, t: int)
    requires step > 0 && t > 0 && len >= 0 && t * step > 0
    ensures Trips(Trips(len, step), t) == Trips(len, t * step)
  {
    if len > 0 {
      var n := Trips(len, step);
      TripsBounds(len, step);
      var b := Trips(n, t);
      TripsBounds(n, t);
      CeilingLow(len, step, t, n, b);
      CeilingHigh(len, step, t, n, b);
      TripsUnique(len, t * step, b);
    }
  }

  lemma {:induction false} CeilingHigh(len: int, step: int, t: int, n: int, b: int)
    requires step > 0 && len <= step * n && n <= t * b
    ensures len <= (t * step) * b
  {
    MulMono(step, n, t * b);
    Regroup(t, step, b);
  }

  lemma {:induction false} CeilingLow(len: int, step: int, t: int, n: int, b: int)
    requires step > 0 && step * (n - 1) < len && t * (b - 1) < n
    ensures (t * step) * (b - 1) < len
  {
    MulMono(step, t * (b - 1), n - 1);
    Regroup(t, step, b - 1);
  }

  lemma {:induction false} FirstExtent(info: Info, env: Env, c: Ctx)
    requires LoopOk(info, c) && |info.types| == 2
    ensures Eval(ExtentExpr(FirstMeta(info)), env, c) == Trips(Trip(info, c), TileSize(info, c))
  {
    LoopRuns(info, env, c);
    var w, t, h := HostWalk(info, c), TileSize(info, c), FirstMeta(info).head;
    assert info.size != Lit(0);
    assert IsInc(h) == IsInc(info.head);
    assert Eval(h.inc.val, env, c) == t * w.step;
    MulMono(t, 1, w.step);
    ExtentEval(FirstMeta(info), env, c, w.start, w.end, t * w.step);
    CeilingOfCeiling(Len(w), w.step, t);
    CeilingQuotient(Len(w), t * w.step);
  }

  /** A tile of literal size 0 asks for one block for each iteration and no thread in it. */
  lemma {:induction false} ZeroTile(info: Info, env: Env, c: Ctx)
    requires |info.types| == 2 && info.size == Lit(0) && LoopOk(info.(size := Lit(1)), c)
    ensures Eval(ExtentExpr(FirstMeta(info)), env, c) == Trip(info.(size := Lit(1)), c)
    ensures Eval(ExtentExpr(SecondMeta(info)), env, c) == 0
  {
    var one := info.(size := Lit(1));
    LoopRuns(one, env, c);
    var w, p := HostWalk(one, c), Eval(Var(Tiled(info.head.name)), env, c);
    ExtentEval(FirstMeta(info), env, c, w.start, w.end, w.step);
    CeilingQuotient(Len(w), w.step);
    ExtentEval(SecondMeta(info), env, c, p, p, w.step);
    CeilingQuotient(0, w.step);
  }

  /** The in-block extent is the tile size exactly for increasing loops of unit step (or unit tile). */
  lemma {:induction false} SecondExtent(info: Info, env: Env, c: Ctx)
    requires LoopOk(info, c) && |info.types| == 2
    ensures Eval(ExtentExpr(SecondMeta(info)), env, c) == TileSize(info, c)
            <==> IsInc(info.head) && (HostWalk(info, c).step == 1 || TileSize(info, c) == 1)
  {
    LoopRuns(info, env, c);
    var w, t, h := HostWalk(info, c), TileSize(info, c), SecondMeta(info).head;
    var p := Eval(h.start, env, c);
    assert info.size != Lit(0);
    assert IsInc(h) == IsInc(info.head) && h.inc == info.head.inc && StepOf(h) == StepOf(info.head);
    ExtentEval(SecondMeta(info), env, c, p, p + t, w.step);
    CeilingQuotient(t, w.step);
    CeilingOfItself(t, w.step);
    NegativeQuotient(t, w.step);
  }

  lemma {:induction false} NegativeQuotient(t: int, d: int)
    requires t > 0 && d > 0
    ensures TruncDiv(-t + d - 1, d) <= 0
  {
    var a := -t + d - 1;
    if a >= 0 {
      var q := a / d;
      assert a == d * q + a % d;
      if q >= 1 { MulMono(d, 1, q); }
    }
  }

  // ----- extents of a nest -----

  /** The extent of a record does not depend on the variables declared so far. */
  ghost predicate Fixed(m: Meta, v: int, c: Ctx) {
    forall env :: Eval(ExtentExpr(m), env, c) == v
  }

  lemma {:induction false} OwnDims(info: Info, kind: LoopType, rest: seq<Meta>, more: seq<int>, env: Env, c: Ctx)
    requires LoopOk(info, c) && LoopLaunched(info, c) && kind != Regular && Attributed(Loop(info, []))
    requires forall e :: Dims(rest, e, c) == more
    ensures Dims(OwnMetas(info, kind) + rest, env, c)
            == more + (if kind == Outer then OwnExtents(info, c).0 else OwnExtents(info, c).1)
  {
    if |info.types| == 1 {
      forall e ensures Eval(ExtentExpr(Meta(Src(info.head.name), info.head)), e, c) == Trip(info, c) {
        PlainExtent(info, e, c);
      }
      if OwnMetas(info, kind) != [] {
        OneMeta(OwnMetas(info, kind)[0], rest, Trip(info, c), more, env, c);
      } else {
        NoMeta(rest, more, env, c);
      }
    } else {
      OwnTileDims(info, kind, rest, more, env, c);
    }
  }

  lemma {:induction false} TileFixed(info: Info, c: Ctx)
    requires LoopOk(info, c) && LoopLaunched(info, c) && |info.types| == 2 && info.types[0] != Regular
    ensures Fixed(FirstMeta(info), Trips(Trip(info, c), TileSize(info, c)), c)
    ensures info.types[1] != Regular ==> Fixed(SecondMeta(info), TileSize(info, c), c)
  {
    forall e ensures Eval(ExtentExpr(FirstMeta(info)), e, c) == Trips(Trip(info, c), TileSize(info, c)) {
      FirstExtent(info, e, c);
    }
    if info.types[1] != Regular {
      forall e ensures Eval(ExtentExpr(SecondMeta(info)), e, c) == TileSize(info, c) { SecondExtent(info, e, c); }
    }
  }

  lemma {:induction false} OwnTileDims(info: Info, kind: LoopType, rest: seq<Meta>, more: seq<int>, env: Env, c: Ctx)
    requires LoopOk(info, c) && LoopLaunched(info, c) && kind != Regular && |info.types| == 2
             && info.types[0] != Regular
    requires forall e :: Dims(rest, e, c) == more
    ensures Dims(OwnMetas(info, kind) + rest, env, c)
            == more + (if kind == Outer then OwnExtents(info, c).0 else OwnExtents(info, c).1)
  {
    var own, first, second := OwnMetas(info, kind), FirstMeta(info), SecondMeta(info);
    var b, t := Trips(Trip(info, c), TileSize(info, c)), TileSize(info, c);
    TileFixed(info, c);
    if info.types[0] == kind && info.types[1] == kind {
      assert own == [first, second];
      TwoMetas(first, second, rest, b, t, more, env, c);
    } else if info.types[0] == kind {
      assert own == [first];
      OneMeta(first, rest, b, more, env, c);
    } else if info.types[1] == kind {
      assert own == [second];
      OneMeta(second, rest, t, more, env, c);
    } else {
      NoMeta(rest, more, env, c);
    }
  }

  lemma {:induction false} TwoMetas(m: Meta, n: Meta, rest: seq<Meta>, v: int, u: int, more: seq<int>, env: Env, c: Ctx)
    requires Fixed(m, v, c) && Fixed(n, u, c) && forall e :: Dims(rest, e, c) == more
    ensures Dims([m, n] + rest, env, c) == more + ([u] + [v])
  {
    forall e ensures Dims([n] + rest, e, c) == more + [u] { OneMeta(n, rest, u, more, e, c); }
    OneMeta(m, [n] + rest, v, more + [u], env, c);
    assert [m, n] + rest == [m] + ([n] + rest);
    assert more + [u] + [v] == more + ([u] + [v]);
  }

  lemma {:induction false} OneMeta(m: Meta, rest: seq<Meta>, v: int, more: seq<int>, env: Env, c: Ctx)
    requires Fixed(m, v, c) && forall e :: Dims(rest, e, c) == more
    ensures Dims([m] + rest, env, c) == more + [v]
  {
    assert ([m] + rest)[1..] == rest;
  }

  lemma {:induction false} NoMeta(rest: seq<Meta>, more: seq<int>, env: Env, c: Ctx)
    requires Dims(rest, env, c) == more
    ensures Dims([] + rest, env, c) == more + []
  {
    assert [] + rest == rest && more + [] == more;
  }

  /** The loops of a chain as the launcher collects them. */
  function Kept(infos: seq<Info>): seq<Info> {
    if infos == [] then [] else (if IsRegular(infos[0].types) then [] else [infos[0]]) + Kept(infos[1..])
  }

  lemma {:induction false} CollectedChain(infos: seq<Info>)
    requires infos != []
    ensures Collected(ToTree(infos)) == Kept(infos)
  {
    if |infos| > 1 { CollectedChain(infos[1..]); } else { assert Kept(infos[1..]) == []; }
  }

  predicate ChainLaunched(infos: seq<Info>, c: Ctx)
    requires ChainOk(infos, c)
  {
    forall k :: 0 <= k < |infos| ==> LoopLaunched(infos[k], c)
  }

  lemma {:induction false} KeptOk(infos: seq<Info>, c: Ctx)
    requires ChainOk(infos, c)
    ensures forall k :: 0 <= k < |Kept(infos)| ==> TypesOk(Kept(infos)[k].types)
  {
    if infos != [] { KeptOk(infos[1..], c); }
  }

  lemma {:induction false} KindDims(infos: seq<Info>, kind: LoopType, env: Env, c: Ctx)
    requires ChainOk(infos, c) && ChainLaunched(infos, c) && kind != Regular
    requires forall k :: 0 <= k < |Kept(infos)| ==> TypesOk(Kept(infos)[k].types)
    ensures Dims(MetasOf(Kept(infos), kind), env, c)
            == if kind == Outer then GridExtents(infos, c).0 else GridExtents(infos, c).1
    decreases |infos|
  {
    if infos != [] {
      var rest := infos[1..];
      KeptOk(rest, c);
      var more := if kind == Outer then GridExtents(rest, c).0 else GridExtents(rest, c).1;
      forall e ensures Dims(MetasOf(Kept(rest), kind), e, c) == more { KindDims(rest, kind, e, c); }
      KindStep(infos, kind, more, env, c);
    }
  }

  lemma {:induction false} KindStep(infos: seq<Info>, kind: LoopType, more: seq<int>, env: Env, c: Ctx)
    requires infos != [] && LoopOk(infos[0], c) && LoopLaunched(infos[0], c) && kind != Regular
    requires forall k :: 0 <= k < |Kept(infos)| ==> TypesOk(Kept(infos)[k].types)
    requires forall k :: 0 <= k < |Kept(infos[1..])| ==> TypesOk(Kept(infos[1..])[k].types)
    requires forall e :: Dims(MetasOf(Kept(infos[1..]), kind), e, c) == more
    ensures Dims(MetasOf(Kept(infos), kind), env, c)
            == more + (if kind == Outer then OwnExtents(infos[0], c).0 else OwnExtents(infos[0], c).1)
  {
    var rest := infos[1..];
    if IsRegular(infos[0].types) {
      assert Kept(infos) == Kept(rest);
      RegularExtents(infos[0], c);
      assert more + [] == more;
    } else {
      assert Kept(infos)[0] == infos[0] && Kept(infos)[1..] == Kept(rest);
      OwnDims(infos[0], kind, MetasOf(Kept(rest), kind), more, env, c);
    }
  }

  lemma {:induction false} RegularExtents(info: Info, c: Ctx)
    requires LoopOk(info, c) && IsRegular(info.types)
    ensures OwnExtents(info, c) == ([], [])
  {
  }

  /** For every chain of launched loops the launcher computes the grid the kernel code expects,
    * axis by axis. */
  lemma {:induction false} LaunchMatchesGrid(infos: seq<Info>, env: Env, c: Ctx)
    requires infos != [] && ChainOk(infos, c) && ChainLaunched(infos, c)
    ensures forall k :: 0 <= k < |Collected(ToTree(infos))| ==> TypesOk(Collected(ToTree(infos))[k].types)
    ensures RunDims(Collected(ToTree(infos)), env, c) == GridExtents(infos, c)
  {
    CollectedChain(infos);
    KeptOk(infos, c);
    KindDims(infos, Outer, env, c);
    KindDims(infos, Inner, Declared(MetasOf(Kept(infos), Outer), env, c), c);
  }

  /** End to end: over the threads of the grid that the launcher asks for, the generated kernel runs
    * every iteration of the source nest exactly once and nothing else. */
  lemma {:induction false} LaunchedKernelRunsNestOnce(infos: seq<Info>, host: Env, env: Env, c: Ctx, hit: Hit)
    requires infos != [] && ChainOk(infos, c) && ChainCovered(infos, c) && ChainLaunched(infos, c)
    ensures var source := Exec(SourceChain(infos), env, c);
            && source.Ran?
            && (forall k :: 0 <= k < |Collected(ToTree(infos))| ==> TypesOk(Collected(ToTree(infos))[k].types))
            && var grid := RunDims(Collected(ToTree(infos)), host, c);
               && (hit in source.hits ==> multiset(source.hits)[hit] == 1 && InGrid(Owner(infos, hit, c), grid))
               && forall o, i :: InGrid((o, i), grid) ==>
                    var run := Exec(CudaChain(infos), env, Ctx(c.args, o, i));
                    run.Ran? && multiset(run.hits)[hit]
                      == if hit in source.hits && (o, i) == Owner(infos, hit, c) then 1 else 0
  {
    LaunchMatchesGrid(infos, host, c);
    NestMeaning(infos, env, c);
    var source := Exec(SourceChain(infos), env, c);
    if hit in source.hits { EveryHitOwned(infos, env, c, hit); }
    forall o, i | InGrid((o, i), GridExtents(infos, c))
      ensures var run := Exec(CudaChain(infos), env, Ctx(c.args, o, i));
              run.Ran? && multiset(run.hits)[hit]
                == if hit in source.hits && (o, i) == Owner(infos, hit, c) then 1 else 0
    {
      OneThread(infos, env, c, Ctx(c.args, o, i), hit);
    }
  }

  lemma {:induction false} OneThread(infos: seq<Info>, env: Env, c: Ctx, c': Ctx, hit: Hit)
    requires ChainOk(infos, c) && ChainCovered(infos, c) && c'.args == c.args
    requires InGrid((c'.outer, c'.inner), GridExtents(infos, c)) && Exec(SourceChain(infos), env, c).Ran?
    ensures var run := Exec(CudaChain(infos), env, c');
            run.Ran? && multiset(run.hits)[hit]
              == if hit in Exec(SourceChain(infos), env, c).hits && (c'.outer, c'.inner) == Owner(infos, hit, c) then 1
                 else 0
  {
    SameArgs(infos, [], c, c');
    AllCovered(infos, c, c');
    SameOwner(infos, hit, c, c');
    KernelCoversNest(infos, env, c');
    NestMeaning(infos, env, c);
    NestMeaning(infos, env, c');
    SameHits(infos, NestTrace(infos, c), c, c');
  }

  lemma {:induction false} AllCovered(infos: seq<Info>, c: Ctx, c': Ctx)
    requires ChainOk(infos, c) && ChainCovered(infos, c) && c.args == c'.args
    ensures ChainOk(infos, c') && ChainCovered(infos, c')
  {
    assert Host(c) == Host(c');
  }

  lemma {:induction false} SameOwner(infos: seq<Info>, hit: Hit, c: Ctx, c': Ctx)
    requires ChainOk(infos, c) && ChainOk(infos, c') && c.args == c'.args
    ensures Owner(infos, hit, c) == Owner(infos, hit, c')
  {
    SamePositions(infos, hit.at, c, c');
    SameArgs(infos, PositionsOf(infos, hit.at, c), c, c');
  }

  lemma {:induction false} SamePositions(infos: seq<Info>, at: seq<int>, c: Ctx, c': Ctx)
    requires ChainOk(infos, c) && ChainOk(infos, c') && c.args == c'.args
    ensures PositionsOf(infos, at, c) == PositionsOf(infos, at, c')
  {
    assert Host(c) == Host(c');
    if infos != [] && at != [] { SamePositions(infos[1..], at[1..], c, c'); }
  }

  lemma {:induction false} SameHits(infos: seq<Info>, ps: seq<seq<int>>, c: Ctx, c': Ctx)
    requires c.args == c'.args
    ensures HitsOf(infos, ps, c) == HitsOf(infos, ps, c')
  {
    forall k | 0 <= k < |ps| ensures ValuesOf(infos, ps[k], c) == ValuesOf(infos, ps[k], c') {
      SameValues(infos, ps[k], c, c');
    }
  }

  lemma {:induction false} SameValues(infos: seq<Info>, p: seq<int>, c: Ctx, c': Ctx)
    requires c.args == c'.args
    ensures ValuesOf(infos, p, c) == ValuesOf(infos, p, c')
  {
    assert Host(c) == Host(c');
    if infos != [] && p != [] { SameValues(infos[1..], p[1..], c, c'); }
  }
}
