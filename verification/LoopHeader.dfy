/** Loop headers as the semantic pass records them, and how a `for` statement becomes one. */
module LoopHeader {
  import opened LoopLang

  datatype Inc = Unary(uo: UnOp) | Compound(bo: BinOp, val: Expr)

  datatype Header = Header(name: string, start: Expr, cmp: BinOp, end: Expr, inc: Inc)

  predicate IsInc(h: Header) {
    && (match h.inc
        case Unary(uo) => uo == PreInc || uo == PostInc
        case Compound(bo, _) => bo == AddAssign)
    && (h.cmp == Le || h.cmp == Lt)
  }

  predicate IsUnary(h: Header) {
    h.inc.Unary? && h.inc.uo != OtherUn
  }

  function StepOf(h: Header): Expr {
    if h.inc.Compound? then h.inc.val else Lit(1)
  }

  // ----- the loop as written -----

  /** The loop variable behind the increment; a compound step other than `+=` subtracts. */
  function After(h: Header, x: int, env: Env, c: Ctx): int {
    match h.inc
    case Unary(uo) =>
      (match uo
       case PreInc => x + 1
       case PostInc => x + 1
       case PreDec => x - 1
       case PostDec => x - 1
       case OtherUn => x)
    case Compound(bo, d) => if bo == AddAssign then x + Eval(d, env, c) else x - Eval(d, env, c)
  }

  /** Every turn moves the variable toward the bound. */
  predicate Approaches(h: Header, env: Env, c: Ctx) {
    match h.cmp
    case Lt => After(h, 0, env, c) > 0
    case Le => After(h, 0, env, c) > 0
    case Gt => After(h, 0, env, c) < 0
    case Ge => After(h, 0, env, c) < 0
    case _ => false
  }

  /** The values of the loop variable from `x` on, by the condition and the increment alone. */
  function WrittenValues(h: Header, x: int, env: Env, c: Ctx): seq<int>
    requires Approaches(h, env, c)
    decreases var b := Eval(h.end, env, c);
              if !Holds(h.cmp, x, b) then 0 else 1 + if h.cmp == Lt || h.cmp == Le then b - x else x - b
  {
    if Holds(h.cmp, x, Eval(h.end, env, c)) then [x] + WrittenValues(h, After(h, x, env, c), env, c) else []
  }

  predicate Rises(inc: Inc) {
    match inc
    case Unary(uo) => uo == PreInc || uo == PostInc
    case Compound(bo, _) => bo == AddAssign
  }

  /** The written loop as a statement of the loop language. */
  function SourceFor(h: Header, body: Stmt): Stmt {
    For(Src(h.name), h.start, h.cmp, h.end, Rises(h.inc), StepOf(h), body)
  }

  /** It runs its body once for each value that the condition and the increment give. */
  lemma {:induction false} SourceRunsWritten(h: Header, body: Stmt, env: Env, c: Ctx)
    requires Approaches(h, env, c) && Eval(StepOf(h), env, c) > 0
    ensures Exec(SourceFor(h, body), env, c)
            == ExecEach(Src(h.name), WrittenValues(h, Eval(h.start, env, c), env, c), body, env, c)
  {
    RecordedIsWritten(h, env, c);
    RecordedValues(h, Eval(h.start, env, c), env, c);
    assert WalkOf(SourceFor(h, body), env, c) == HeaderWalk(h, env, c);
  }

  // ----- the loop as recorded -----

  function HeaderWalk(h: Header, env: Env, c: Ctx): Walk {
    Walk(Eval(h.start, env, c), h.cmp, Eval(h.end, env, c), IsInc(h), Eval(StepOf(h), env, c))
  }

  /** The loop runs toward its bound by a positive step. */
  predicate Proceeds(h: Header, env: Env, c: Ctx) {
    (h.inc.Compound? || IsUnary(h)) && Directed(h.cmp, IsInc(h)) && Eval(StepOf(h), env, c) > 0
  }

  /** The recorded direction is the one the increment moves in. */
  predicate Consistent(h: Header) {
    (h.inc.Unary? ==> h.inc.uo != OtherUn) && (IsInc(h) <==> Rises(h.inc))
  }

  /** A header that moves toward its bound is recorded with its direction, and proceeds exactly for positive steps; the
    * recorded walk then takes the written values. */
  lemma {:induction false} RecordedIsWritten(h: Header, env: Env, c: Ctx)
    requires Approaches(h, env, c)
    ensures Proceeds(h, env, c) <==> Eval(StepOf(h), env, c) > 0
    ensures Proceeds(h, env, c) ==>
              Consistent(h)
              && forall x :: Values(HeaderWalk(h, env, c), x) == WrittenValues(h, x, env, c)
  {
    if Proceeds(h, env, c) {
      forall x ensures Values(HeaderWalk(h, env, c), x) == WrittenValues(h, x, env, c) { RecordedValues(h, x, env, c); }
    }
  }

  lemma {:induction false} RecordedValues(h: Header, x: int, env: Env, c: Ctx)
    requires Approaches(h, env, c) && Proceeds(h, env, c)
    ensures Values(HeaderWalk(h, env, c), x) == WrittenValues(h, x, env, c)
    decreases var b := Eval(h.end, env, c);
              if !Holds(h.cmp, x, b) then 0 else 1 + if h.cmp == Lt || h.cmp == Le then b - x else x - b
  {
    if Holds(h.cmp, x, Eval(h.end, env, c)) { RecordedValues(h, After(h, x, env, c), env, c); }
  }

  /** Number of iterations of a walk. */
  function Trips(len: int, step: int): nat
    requires step > 0
  {
    if len <= 0 then 0 else (len + step - 1) / step
  }

  // ----- parsing the condition -----

  datatype Comparison = SEq | SNe | SLt | SLe | SGt | SGe

  /** An operand of the loop condition: the loop variable, some other expression (either may
    * sit under an implicit cast), or an expression clang could not type. */
  datatype Operand = LoopVar(cast: bool) | Other(cast: bool, e: Expr) | Recovery(e: Expr)

  datatype Option<+T> = None | Some(value: T)

  function ToOkl(op: Comparison): BinOp {
    match op
    case SEq => Eq
    case SLe => Le
    case SLt => Lt
    case SGt => Gt
    case SGe => Ge
    case SNe => BinOp.Other
  }

  function ReverseComparison(op: Comparison): Comparison {
    match op
    case SLt => SGt
    case SGt => SLt
    case SLe => SGe
    case SGe => SLe
    case _ => op
  }

  /** The bound and the comparison recorded for `lhs op rhs`; None is the parse error. */
  function ParseCondition(lhs: Operand, op: Comparison, rhs: Operand): Option<(BinOp, Operand)> {
    var fromLeft := if lhs == LoopVar(true) then Some((ToOkl(op), rhs)) else None;
    var fromRight := if rhs == LoopVar(true) then Some((ToOkl(ReverseComparison(op)), lhs)) else fromLeft;
    if rhs.Recovery? then Some((ToOkl(ReverseComparison(op)), rhs)) else fromRight
  }

  predicate Compare(op: Comparison, a: int, b: int) {
    match op
    case SEq => a == b
    case SNe => a != b
    case SLt => a < b
    case SLe => a <= b
    case SGt => a > b
    case SGe => a >= b
  }

  /** The condition as written, for loop variable value `x` and bound value `y`. */
  predicate Written(lhs: Operand, op: Comparison, rhs: Operand, x: int, y: int) {
    Compare(op, if lhs.LoopVar? then x else y, if rhs.LoopVar? then x else y)
  }

  /** What a recorded comparison says; an operator outside the table says nothing. */
  predicate Recorded(op: BinOp, x: int, y: int) {
    if op == Eq then x == y else Holds(op, x, y)
  }

  /** A condition is accepted exactly if one side is the loop variable under a cast or the right side could not be
    * typed. */
  lemma {:induction false} ConditionAccepted(lhs: Operand, op: Comparison, rhs: Operand)
    ensures ParseCondition(lhs, op, rhs).Some? <==> lhs == LoopVar(true) || rhs == LoopVar(true) || rhs.Recovery?
    ensures ParseCondition(lhs, op, rhs).Some? && lhs.LoopVar? != rhs.LoopVar? ==>
              ParseCondition(lhs, op, rhs).value.1 == if lhs.LoopVar? then rhs else lhs
  {
  }

  /** The recorded comparison means the written one unless it is `!=`, which has no entry in the table, or an
    * order with an untyped operand on the right, which gets turned round. */
  lemma {:induction false} ConditionMeaning(lhs: Operand, op: Comparison, rhs: Operand)
    requires lhs.LoopVar? != rhs.LoopVar?
    requires ParseCondition(lhs, op, rhs).Some?
    ensures var (cmp, bound) := ParseCondition(lhs, op, rhs).value;
            && !bound.LoopVar?
            && ((forall x, y :: Recorded(cmp, x, y) <==> Written(lhs, op, rhs, x, y))
                <==> op != SNe && (rhs.Recovery? ==> op == SEq))
  {
    var (cmp, bound) := ParseCondition(lhs, op, rhs).value;
    if op == SNe || (rhs.Recovery? && op != SEq) {
      assert Recorded(cmp, 0, 1) != Written(lhs, op, rhs, 0, 1);
    }
  }

  /** `i != 5` is recorded as nothing, and `i < N` with an untyped N as `i > N`. */
  lemma {:induction false} ConditionsLost(n: Expr)
    ensures var (cmp, bound) := ParseCondition(LoopVar(true), SNe, Operand.Other(true, Lit(5))).value;
            bound.e == Lit(5) && Written(LoopVar(true), SNe, Operand.Other(true, Lit(5)), 0, 5) && !Recorded(cmp, 0, 5)
    ensures var (cmp, bound) := ParseCondition(LoopVar(true), SLt, Recovery(n)).value;
            cmp == Gt && bound.e == n && Written(LoopVar(true), SLt, Recovery(n), 0, 5) && !Recorded(cmp, 0, 5)
  {
  }

  // ----- the compile-time size of the range -----

  const SIZE_T_RANGE := 0x1_0000_0000_0000_0000

  /** Both bounds are known, non-negative constants; the difference wraps as an unsigned word. */
  function RangeSize(up: bool, start: nat, end: nat): (r: nat)
  {
    (if up then end - start else start - end) % SIZE_T_RANGE
  }

  lemma {:induction false} TripsBounds(len: int, step: int)
    requires step > 0 && len > 0
    ensures step * (Trips(len, step) - 1) < len <= step * Trips(len, step)
  {
    var n := Trips(len, step);
    var q, r := (len + step - 1) / step, (len + step - 1) % step;
    assert len + step - 1 == q * step + r && 0 <= r < step;
    assert step * n == q * step;
    assert step * (n - 1) == step * n - step;
  }

  /** `n` is the trip count exactly when it is the ceiling of len / step. */
  lemma {:induction false} TripsUnique(len: int, step: int, n: int)
    requires step > 0 && len > 0
    ensures n == Trips(len, step) <==> step * (n - 1) < len <= step * n
  {
    TripsBounds(len, step);
    var m := Trips(len, step);
    if step * (n - 1) < len <= step * n {
      if n < m { MulMono(step, n, m - 1); } else if m < n { MulMono(step, m, n - 1); }
    }
  }

  lemma {:induction false} MulMono(a: int, x: int, y: int)
    requires a >= 0 && x <= y
    ensures a * x <= a * y
  {
  }

  lemma {:induction false} CeilingOfItself(d: nat, c: int)
    requires c > 0
    ensures d == Trips(d, c) <==> c == 1 || d <= 1
  {
    if d > 0 {
      TripsUnique(d, c, d);
      if c >= 2 { assert c * (d - 1) >= 2 * (d - 1) by { MulMono(d - 1, 2, c); } }
      assert d <= c * d by { MulMono(d, 1, c); }
    }
  }

  lemma {:induction false} CeilingOfSuccessor(d: nat, c: int)
    requires c > 0
    ensures d == Trips(d + 1, c) <==> (d == 1 && c >= 2) || (d == 2 && c == 2)
  {
    TripsUnique(d + 1, c, d);
    if c >= 2 && d >= 1 {
      MulMono(d - 1, 2, c);
      assert c * (d - 1) >= 2 * (d - 1);
    }
  }

  lemma {:induction false} RangeSizeExact(up: bool, start: nat, end: nat)
    requires 0 <= (if up then end - start else start - end) < SIZE_T_RANGE
    ensures RangeSize(up, start, end) == if up then end - start else start - end
  {
  }

  lemma {:induction false} WrappedDifference(diff: int)
    requires -SIZE_T_RANGE < diff < 0
    ensures diff % SIZE_T_RANGE == diff + SIZE_T_RANGE > 0
  {
    assert (diff + SIZE_T_RANGE) / SIZE_T_RANGE == 0;
  }

  /** The recorded size is the number of iterations for strict unit-step loops over a range that is not
    * negative and, as an accident of small numbers, in a few other cases; this is the full list. A negative
    * difference wraps to a large size although the loop does not run. */
  lemma {:induction false} RangeSizeIsTripCount(w: Walk)
    requires Directed(w.cmp, w.up) && w.step > 0 && 0 <= w.start < SIZE_T_RANGE && 0 <= w.end < SIZE_T_RANGE
    ensures var d := RangeSize(w.up, w.start, w.end);
            d == Trips(Len(w), w.step) <==>
              0 <= (if w.up then w.end - w.start else w.start - w.end)
              && if w.cmp == Lt || w.cmp == Gt then w.step == 1 || d <= 1
                 else (d == 1 && w.step >= 2) || (d == 2 && w.step == 2)
  {
    var diff := if w.up then w.end - w.start else w.start - w.end;
    var d := RangeSize(w.up, w.start, w.end);
    if diff < 0 {
      WrappedDifference(diff);
      return;
    }
    RangeSizeExact(w.up, w.start, w.end);
    if w.cmp == Lt || w.cmp == Gt {
      assert Len(w) == d;
      CeilingOfItself(d, w.step);
    } else {
      assert Len(w) == d + 1;
      CeilingOfSuccessor(d, w.step);
    }
  }
}
