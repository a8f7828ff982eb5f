/** The loop language that OKL sources and generated kernels are written in here:
  * lets, `for` loops, checks, sequencing and a loop body.  A statement means the
  * sequence of hits of its bodies, each hit carrying the values of the source loop
  * variables in scope, outermost first.
  */
module LoopLang {

  datatype LoopType = Regular | Inner | Outer

  datatype BinOp = Eq | Le | Lt | Gt | Ge | AddAssign | RemoveAssign | Other

  datatype UnOp = PreInc | PostInc | PreDec | PostDec | OtherUn

  /** A loop variable of the source, or the `_occa_tiled_` variable made from it. */
  datatype VarName = Src(name: string) | Tiled(name: string)

  datatype Expr =
    | Lit(n: int)
    | Arg(arg: string)                 // kernel argument, fixed for a launch
    | Var(v: VarName)
    | Idx(kind: LoopType, axis: nat)   // threadIdx.<axis> or blockIdx.<axis>
    | Plus(l: Expr, r: Expr)
    | Minus(l: Expr, r: Expr)
    | Times(l: Expr, r: Expr)
    | Quot(l: Expr, r: Expr)

  datatype Stmt =
    | Body(id: nat)
    | Then(first: Stmt, second: Stmt)
    | Let(x: VarName, e: Expr, rest: Stmt)
    | If(l: Expr, op: BinOp, r: Expr, rest: Stmt)
    | For(x: VarName, init: Expr, cmp: BinOp, bound: Expr, up: bool, step: Expr, rest: Stmt)

  /** What is fixed while one thread runs: kernel arguments and grid coordinates by axis. */
  datatype Ctx = Ctx(args: map<string, int>, outer: seq<int>, inner: seq<int>)

  type Env = map<VarName, int>

  datatype Hit = Hit(id: nat, at: seq<int>)

  datatype Run = Ran(hits: seq<Hit>) | Diverges

  // ----- evaluation -----

  /** C division: the quotient is truncated toward zero. */
  function TruncDiv(a: int, b: int): int
    requires b != 0
  {
    var q := (if a < 0 then -a else a) / (if b < 0 then -b else b);
    if (a < 0) == (b < 0) then q else -q
  }

  function At(s: seq<int>, i: nat): int {
    if i < |s| then s[i] else 0
  }

  function Eval(e: Expr, env: Env, c: Ctx): int {
    match e
    case Lit(n) => n
    case Arg(a) => if a in c.args then c.args[a] else 0
    case Var(v) => if v in env then env[v] else 0
    case Idx(kind, axis) => if kind == Outer then At(c.outer, axis) else At(c.inner, axis)
    case Plus(l, r) => Eval(l, env, c) + Eval(r, env, c)
    case Minus(l, r) => Eval(l, env, c) - Eval(r, env, c)
    case Times(l, r) => Eval(l, env, c) * Eval(r, env, c)
    case Quot(l, r) => var d := Eval(r, env, c); if d == 0 then 0 else TruncDiv(Eval(l, env, c), d)
  }

  predicate Holds(op: BinOp, a: int, b: int) {
    match op
    case Le => a <= b
    case Lt => a < b
    case Gt => a > b
    case Ge => a >= b
    case _ => false
  }

  // ----- loop headers as walks over an arithmetic progression -----

  datatype Walk = Walk(start: int, cmp: BinOp, end: int, up: bool, step: int)

  /** The comparison stops the walk in the direction it moves. */
  predicate Directed(cmp: BinOp, up: bool) {
    if up then cmp == Lt || cmp == Le else cmp == Gt || cmp == Ge
  }

  /** How far the walk may move away from its start before the comparison fails. */
  function Len(w: Walk): int {
    (if w.up then w.end - w.start else w.start - w.end) + (if w.cmp == Le || w.cmp == Ge then 1 else 0)
  }

  /** The point at distance `off` from the start. */
  function Point(w: Walk, off: int): int {
    if w.up then w.start + off else w.start - off
  }

  /** The values of the loop variable from `x` on, as the loop itself produces them. */
  function Values(w: Walk, x: int): seq<int>
    requires Directed(w.cmp, w.up) && w.step > 0
    decreases if Holds(w.cmp, x, w.end) then 1 + (if w.up then w.end - x else x - w.end) else 0
  {
    if Holds(w.cmp, x, w.end) then [x] + Values(w, if w.up then x + w.step else x - w.step) else []
  }

  /** The offsets lo, lo + step, ... below hi. */
  function Strided(lo: int, hi: int, step: int): (s: seq<int>)
    requires step > 0
    decreases hi - lo
  {
    if lo < hi then [lo] + Strided(lo + step, hi, step) else []
  }

  function Points(w: Walk, offs: seq<int>): (r: seq<int>)
    ensures |r| == |offs| && forall k :: 0 <= k < |r| ==> r[k] == Point(w, offs[k])
  {
    seq(|offs|, k requires 0 <= k < |offs| => Point(w, offs[k]))
  }

  lemma {:induction false} ValuesArePoints(w: Walk, off: int)
    requires Directed(w.cmp, w.up) && w.step > 0
    ensures Values(w, Point(w, off)) == Points(w, Strided(off, Len(w), w.step))
    decreases Len(w) - off
  {
    if off < Len(w) {
      ValuesArePoints(w, off + w.step);
      var tail := Strided(off + w.step, Len(w), w.step);
      assert Points(w, [off] + tail) == [Point(w, off)] + Points(w, tail);
    }
  }

  // ----- execution -----

  function Merge(a: Run, b: Run): Run {
    if a.Ran? && b.Ran? then Ran(a.hits + b.hits) else Diverges
  }

  function Prepend(v: int, hits: seq<Hit>): (r: seq<Hit>)
    ensures |r| == |hits| && forall k :: 0 <= k < |r| ==> r[k] == Hit(hits[k].id, [v] + hits[k].at)
  {
    seq(|hits|, k requires 0 <= k < |hits| => Hit(hits[k].id, [v] + hits[k].at))
  }

  /** Binding a source variable puts its value in front of every hit below. */
  function Tag(x: VarName, v: int, r: Run): Run {
    if r.Ran? && x.Src? then Ran(Prepend(v, r.hits)) else r
  }

  function Exec(s: Stmt, env: Env, c: Ctx): Run
    decreases s, 0
  {
    match s
    case Body(id) => Ran([Hit(id, [])])
    case Then(a, b) => Merge(Exec(a, env, c), Exec(b, env, c))
    case Let(x, e, rest) => var v := Eval(e, env, c); Tag(x, v, Exec(rest, env[x := v], c))
    case If(l, op, r, rest) =>
      if Holds(op, Eval(l, env, c), Eval(r, env, c)) then Exec(rest, env, c) else Ran([])
    case For(x, init, cmp, bound, up, step, rest) =>
      var w := WalkOf(s, env, c);
      if !Holds(cmp, w.start, w.end) then Ran([])
      else if Directed(cmp, up) && w.step > 0 then ExecEach(x, Values(w, w.start), rest, env, c)
      else Diverges
  }

  function WalkOf(s: Stmt, env: Env, c: Ctx): Walk
    requires s.For?
  {
    Walk(Eval(s.init, env, c), s.cmp, Eval(s.bound, env, c), s.up, Eval(s.step, env, c))
  }

  /** Runs `s` once for each value of `x`. */
  function ExecEach(x: VarName, vals: seq<int>, s: Stmt, env: Env, c: Ctx): Run
    decreases s, 1 + |vals|
  {
    if vals == [] then Ran([])
    else Merge(Tag(x, vals[0], Exec(s, env[x := vals[0]], c)), ExecEach(x, vals[1..], s, env, c))
  }

  /** A directed loop runs its body over the points of its walk. */
  lemma {:induction false} ExecFor(s: Stmt, env: Env, c: Ctx)
    requires s.For? && Directed(s.cmp, s.up) && WalkOf(s, env, c).step > 0
    ensures var w := WalkOf(s, env, c);
            Exec(s, env, c) == ExecEach(s.x, Points(w, Strided(0, Len(w), w.step)), s.rest, env, c)
  {
    var w := WalkOf(s, env, c);
    ValuesArePoints(w, 0);
    assert Point(w, 0) == w.start;
    if !Holds(s.cmp, w.start, w.end) { assert Values(w, w.start) == []; }
  }

  lemma {:induction false} MergeUnit(r: Run)
    ensures Merge(Ran([]), r) == r == Merge(r, Ran([]))
  {
    if r.Ran? { assert [] + r.hits == r.hits == r.hits + []; }
  }

  lemma {:induction false} MergeAssoc(p: Run, q: Run, r: Run)
    ensures Merge(Merge(p, q), r) == Merge(p, Merge(q, r))
  {
    if p.Ran? && q.Ran? && r.Ran? { assert (p.hits + q.hits) + r.hits == p.hits + (q.hits + r.hits); }
  }

  lemma {:induction false} ExecEachConcat(x: VarName, a: seq<int>, b: seq<int>, s: Stmt, env: Env, c: Ctx)
    ensures ExecEach(x, a + b, s, env, c) == Merge(ExecEach(x, a, s, env, c), ExecEach(x, b, s, env, c))
  {
    if a == [] {
      assert a + b == b;
      MergeUnit(ExecEach(x, b, s, env, c));
    } else {
      assert (a + b)[1..] == a[1..] + b;
      ExecEachConcat(x, a[1..], b, s, env, c);
      MergeAssoc(Tag(x, a[0], Exec(s, env[x := a[0]], c)), ExecEach(x, a[1..], s, env, c), ExecEach(x, b, s, env, c));
    }
  }

  // ----- variables -----

  predicate Mentions(e: Expr, x: VarName) {
    match e
    case Lit(_) => false
    case Arg(_) => false
    case Var(v) => v == x
    case Idx(_, _) => false
    case Plus(l, r) => Mentions(l, x) || Mentions(r, x)
    case Minus(l, r) => Mentions(l, x) || Mentions(r, x)
    case Times(l, r) => Mentions(l, x) || Mentions(r, x)
    case Quot(l, r) => Mentions(l, x) || Mentions(r, x)
  }

  predicate Free(s: Stmt, x: VarName) {
    match s
    case Body(_) => false
    case Then(a, b) => Free(a, x) || Free(b, x)
    case Let(y, e, rest) => Mentions(e, x) || (y != x && Free(rest, x))
    case If(l, _, r, rest) => Mentions(l, x) || Mentions(r, x) || Free(rest, x)
    case For(y, init, _, bound, _, step, rest) =>
      Mentions(init, x) || Mentions(bound, x) || Mentions(step, x) || (y != x && Free(rest, x))
  }

  lemma {:induction false} EvalIrrelevant(e: Expr, env: Env, x: VarName, v: int, c: Ctx)
    requires !Mentions(e, x)
    ensures Eval(e, env[x := v], c) == Eval(e, env, c)
  {
    match e
    case Lit(_) =>
    case Arg(_) =>
    case Var(_) =>
    case Idx(_, _) =>
    case Plus(l, r) => EvalIrrelevant(l, env, x, v, c); EvalIrrelevant(r, env, x, v, c);
    case Minus(l, r) => EvalIrrelevant(l, env, x, v, c); EvalIrrelevant(r, env, x, v, c);
    case Times(l, r) => EvalIrrelevant(l, env, x, v, c); EvalIrrelevant(r, env, x, v, c);
    case Quot(l, r) => EvalIrrelevant(l, env, x, v, c); EvalIrrelevant(r, env, x, v, c);
  }

  /** Binding a variable a statement does not use leaves its meaning alone. */
  lemma {:induction false} ExecIrrelevant(s: Stmt, env: Env, x: VarName, v: int, c: Ctx)
    requires !Free(s, x)
    ensures Exec(s, env[x := v], c) == Exec(s, env, c)
    decreases s, 0
  {
    match s
    case Body(_) =>
    case Then(a, b) => ExecIrrelevant(a, env, x, v, c); ExecIrrelevant(b, env, x, v, c);
    case Let(y, e, rest) =>
      EvalIrrelevant(e, env, x, v, c);
      Rebind(y, Eval(e, env, c), rest, env, x, v, c);
    case If(l, _, r, rest) =>
      EvalIrrelevant(l, env, x, v, c); EvalIrrelevant(r, env, x, v, c);
      ExecIrrelevant(rest, env, x, v, c);
    case For(y, init, _, bound, _, step, rest) =>
      EvalIrrelevant(init, env, x, v, c); EvalIrrelevant(bound, env, x, v, c); EvalIrrelevant(step, env, x, v, c);
      var w := WalkOf(s, env, c);
      if Holds(s.cmp, w.start, w.end) && Directed(s.cmp, s.up) && w.step > 0 {
        EachIrrelevant(y, Values(w, w.start), rest, env, x, v, c);
      }
  }

  lemma {:induction false} Rebind(y: VarName, u: int, s: Stmt, env: Env, x: VarName, v: int, c: Ctx)
    requires y == x || !Free(s, x)
    ensures Exec(s, env[x := v][y := u], c) == Exec(s, env[y := u], c)
    decreases s, 1
  {
    if y == x {
      assert env[x := v][y := u] == env[y := u];
    } else {
      assert env[x := v][y := u] == env[y := u][x := v];
      ExecIrrelevant(s, env[y := u], x, v, c);
    }
  }

  lemma {:induction false} EachIrrelevant(y: VarName, vals: seq<int>, s: Stmt, env: Env, x: VarName, v: int, c: Ctx)
    requires y == x || !Free(s, x)
    ensures ExecEach(y, vals, s, env[x := v], c) == ExecEach(y, vals, s, env, c)
    decreases s, 2 + |vals|
  {
    if vals != [] {
      Rebind(y, vals[0], s, env, x, v, c);
      EachIrrelevant(y, vals[1..], s, env, x, v, c);
    }
  }
}
