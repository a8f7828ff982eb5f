/** Source texts spliced into emitted expressions without brackets of their own, read with C's operator precedence.
  * The binary operators of C group to the left; what binds tighter, such as a call or a unary operator, is part of an
  * operand.
  */
module Splicing {
  import opened LoopHeader
  import DimOrder

  /** A binary operator; a larger strength binds tighter. */
  datatype Op = Op(name: string, strength: nat)

  const TIMES := Op("*", 10)
  const DIVIDE := Op("/", 10)
  const PLUS := Op("+", 9)
  const MINUS := Op("-", 9)

  /** Operands with operators between them, as written; an operand in brackets holds a text. */
  datatype Text = Text(first: Operand, rest: Rest)

  datatype Rest = End | More(before: Rest, op: Op, operand: Operand)

  datatype Operand = Atom(name: string) | Brackets(inner: Text)

  /** What a text says. */
  datatype Tree = Leaf(name: string) | Group(inner: Tree) | Node(op: Op, left: Tree, right: Tree)

  // ----- reading -----

  /** One more operand on the right: it goes below the operators that bind less tightly than its own. */
  function Insert(t: Tree, op: Op, x: Tree): Tree {
    if t.Node? && op.strength > t.op.strength then Node(t.op, t.left, Insert(t.right, op, x)) else Node(op, t, x)
  }

  function ReadOperand(x: Operand): Tree
    decreases x
  {
    match x
    case Atom(name) => Leaf(name)
    case Brackets(inner) => Group(Read(inner))
  }

  function ReadAfter(t: Tree, rest: Rest): Tree
    decreases rest
  {
    match rest
    case End => t
    case More(before, op, operand) => Insert(ReadAfter(t, before), op, ReadOperand(operand))
  }

  function Read(t: Text): Tree
    decreases t
  {
    ReadAfter(ReadOperand(t.first), t.rest)
  }

  // ----- the tokens of a text determine the text -----

  datatype Token = AtomToken(name: string) | OpToken(op: Op) | OpenToken | CloseToken

  function OperandTokens(x: Operand): seq<Token>
    decreases x
  {
    match x
    case Atom(name) => [AtomToken(name)]
    case Brackets(inner) => [OpenToken] + (Tokens(inner) + [CloseToken])
  }

  function RestTokens(rest: Rest): seq<Token>
    decreases rest
  {
    match rest
    case End => []
    case More(before, op, operand) => RestTokens(before) + ([OpToken(op)] + OperandTokens(operand))
  }

  function Tokens(t: Text): seq<Token>
    decreases t
  {
    OperandTokens(t.first) + RestTokens(t.rest)
  }

  /** The text at the front of a token sequence and what follows it; None where no operand stands. */
  function ScanOperand(s: seq<Token>): (r: Option<(Operand, seq<Token>)>)
    ensures r.Some? ==> |r.value.1| < |s|
    decreases |s|, 0
  {
    if s == [] then None
    else if s[0].AtomToken? then Some((Atom(s[0].name), s[1..]))
    else if s[0].OpenToken? then
      match Scan(s[1..])
      case None => None
      case Some((t, after)) => if after != [] && after[0].CloseToken? then Some((Brackets(t), after[1..])) else None
    else None
  }

  function ScanRest(first: Operand, sofar: Rest, s: seq<Token>): (r: Option<(Text, seq<Token>)>)
    ensures r.Some? ==> |r.value.1| <= |s|
    decreases |s|, 1
  {
    if s == [] || !s[0].OpToken? then Some((Text(first, sofar), s))
    else
      match ScanOperand(s[1..])
      case None => None
      case Some((x, after)) => ScanRest(first, More(sofar, s[0].op, x), after)
  }

  function Scan(s: seq<Token>): (r: Option<(Text, seq<Token>)>)
    ensures r.Some? ==> |r.value.1| < |s|
    decreases |s|, 2
  {
    match ScanOperand(s)
    case None => None
    case Some((x, after)) => ScanRest(x, End, after)
  }

  predicate NoOperatorNext(s: seq<Token>) {
    s == [] || !s[0].OpToken?
  }

  lemma {:induction false} OperandScans(x: Operand, after: seq<Token>)
    ensures ScanOperand(OperandTokens(x) + after) == Some((x, after))
    decreases x, 0
  {
    var s := OperandTokens(x) + after;
    match x
    case Atom(name) =>
      assert s[1..] == after;
    case Brackets(inner) =>
      assert s[0] == OpenToken && s[1..] == Tokens(inner) + ([CloseToken] + after);
      TextScans(inner, [CloseToken] + after);
      assert ([CloseToken] + after)[1..] == after;
  }

  lemma {:induction false} RestScans(first: Operand, rest: Rest, after: seq<Token>)
    ensures ScanRest(first, End, RestTokens(rest) + after) == ScanRest(first, rest, after)
    decreases rest, 0
  {
    match rest
    case End =>
      assert [] + after == after;
    case More(before, op, operand) =>
      var tail := [OpToken(op)] + (OperandTokens(operand) + after);
      assert RestTokens(rest) + after == RestTokens(before) + tail;
      RestScans(first, before, tail);
      assert tail[0] == OpToken(op) && tail[1..] == OperandTokens(operand) + after;
      OperandScans(operand, after);
  }

  /** Scanning the tokens of a text gives back the text: brackets and operators leave no choice. */
  lemma {:induction false} TextScans(t: Text, after: seq<Token>)
    requires NoOperatorNext(after)
    ensures Scan(Tokens(t) + after) == Some((t, after))
    decreases t, 0
  {
    assert Tokens(t) + after == OperandTokens(t.first) + (RestTokens(t.rest) + after);
    OperandScans(t.first, RestTokens(t.rest) + after);
    RestScans(t.first, t.rest, after);
  }

  // ----- splicing -----

  /** `a op x` */
  function Extend(a: Text, op: Op, x: Operand): Text {
    Text(a.first, More(a.rest, op, x))
  }

  /** `a op b`, with both texts spliced in as they are. */
  function Join(a: Text, op: Op, b: Text): Text {
    Text(a.first, Chain(More(a.rest, op, b.first), b.rest))
  }

  function Chain(a: Rest, b: Rest): Rest {
    match b
    case End => a
    case More(before, op, operand) => More(Chain(a, before), op, operand)
  }

  /** Every operator of the text outside brackets binds at least this tightly. */
  predicate AtLeast(rest: Rest, strength: nat) {
    rest.More? ==> rest.op.strength >= strength && AtLeast(rest.before, strength)
  }

  predicate Tight(a: Text, strength: nat) {
    AtLeast(a.rest, strength)
  }

  /** The operators on the right spine of a tree bind ever more tightly, so the root binds least. */
  predicate Ordered(t: Tree) {
    t.Node? ==> Ordered(t.right) && (t.right.Node? ==> t.op.strength < t.right.op.strength)
  }

  predicate RootAtLeast(t: Tree, strength: nat) {
    t.Node? ==> t.op.strength >= strength
  }

  lemma {:induction false} InsertOrdered(t: Tree, op: Op, x: Tree)
    requires Ordered(t) && !x.Node?
    ensures Ordered(Insert(t, op, x)) && Insert(t, op, x).Node?
    ensures forall k: nat :: RootAtLeast(Insert(t, op, x), k) <==> RootAtLeast(t, k) && op.strength >= k
  {
    if t.Node? && op.strength > t.op.strength { InsertOrdered(t.right, op, x); }
  }

  lemma {:induction false} OperandIsNoNode(x: Operand)
    ensures !ReadOperand(x).Node?
  {
  }

  lemma {:induction false} RootIsWeakest(t: Tree, rest: Rest, k: nat)
    requires !t.Node?
    ensures Ordered(ReadAfter(t, rest)) && (RootAtLeast(ReadAfter(t, rest), k) <==> AtLeast(rest, k))
    decreases rest
  {
    if rest.More? {
      RootIsWeakest(t, rest.before, k);
      OperandIsNoNode(rest.operand);
      InsertOrdered(ReadAfter(t, rest.before), rest.op, ReadOperand(rest.operand));
    }
  }

  /** With an operand on the right, the text says what was meant if and only if the left text binds tightly enough. */
  lemma {:induction false} ExtendExact(a: Text, op: Op, x: Operand)
    ensures Read(Extend(a, op, x)) == Node(op, Read(a), ReadOperand(x)) <==> Tight(a, op.strength)
  {
    OperandIsNoNode(a.first);
    RootIsWeakest(ReadOperand(a.first), a.rest, op.strength);
  }

  function Leaves(t: Tree): nat {
    match t
    case Leaf(_) => 1
    case Group(inner) => Leaves(inner)
    case Node(_, l, r) => Leaves(l) + Leaves(r)
  }

  /** The left side of the root holds more than n operands. */
  predicate LeftHeavy(t: Tree, n: nat) {
    t.Node? && Leaves(t.left) > n
  }

  lemma {:induction false} LeavesPositive(t: Tree)
    ensures Leaves(t) >= 1
  {
    match t
    case Leaf(_) =>
    case Group(inner) => LeavesPositive(inner);
    case Node(_, l, r) => LeavesPositive(l); LeavesPositive(r);
  }

  lemma {:induction false} StaysLeftHeavy(t: Tree, rest: Rest, n: nat)
    requires LeftHeavy(t, n)
    ensures LeftHeavy(ReadAfter(t, rest), n)
  {
    if rest.More? {
      StaysLeftHeavy(t, rest.before, n);
      LeavesPositive(ReadAfter(t, rest.before).right);
    }
  }

  lemma {:induction false} ReadChain(t: Tree, a: Rest, b: Rest)
    ensures ReadAfter(t, Chain(a, b)) == ReadAfter(ReadAfter(t, a), b)
  {
    if b.More? { ReadChain(t, a, b.before); }
  }

  /** Tighter operators all go below the right side of the root. */
  lemma {:induction false} StaysOnRight(op: Op, l: Tree, r: Tree, rest: Rest)
    requires AtLeast(rest, op.strength + 1)
    ensures ReadAfter(Node(op, l, r), rest) == Node(op, l, ReadAfter(r, rest))
  {
    if rest.More? { StaysOnRight(op, l, r, rest.before); }
  }

  /** An operator that is no tighter takes the whole left side under it. */
  lemma {:induction false} LeavesRight(op: Op, l: Tree, r: Tree, rest: Rest)
    requires !AtLeast(rest, op.strength + 1)
    ensures LeftHeavy(ReadAfter(Node(op, l, r), rest), Leaves(l))
  {
    LeavesPositive(r);
    if AtLeast(rest.before, op.strength + 1) {
      StaysOnRight(op, l, r, rest.before);
      LeavesPositive(ReadAfter(r, rest.before));
    } else {
      LeavesRight(op, l, r, rest.before);
      LeavesPositive(ReadAfter(Node(op, l, r), rest.before).right);
    }
  }

  /** With texts on both sides the right one must bind more tightly than the operator, and the left one as tightly. */
  lemma {:induction false} JoinExact(a: Text, op: Op, b: Text)
    ensures Read(Join(a, op, b)) == Node(op, Read(a), Read(b)) <==> Tight(a, op.strength) && Tight(b, op.strength + 1)
  {
    var t, r := Read(a), ReadOperand(b.first);
    OperandIsNoNode(a.first);
    OperandIsNoNode(b.first);
    RootIsWeakest(ReadOperand(a.first), a.rest, op.strength);
    ReadChain(ReadOperand(a.first), More(a.rest, op, b.first), b.rest);
    assert Read(Join(a, op, b)) == ReadAfter(Insert(t, op, r), b.rest);
    if Tight(a, op.strength) {
      if Tight(b, op.strength + 1) { StaysOnRight(op, t, r, b.rest); } else { LeavesRight(op, t, r, b.rest); }
    } else {
      InsertOrdered(t, op, r);
      WeakStaysWeak(Insert(t, op, r), b.rest, op.strength);
    }
  }

  lemma {:induction false} WeakStaysWeak(t: Tree, rest: Rest, k: nat)
    requires Ordered(t) && !RootAtLeast(t, k)
    ensures Ordered(ReadAfter(t, rest)) && !RootAtLeast(ReadAfter(t, rest), k)
    decreases rest
  {
    if rest.More? {
      WeakStaysWeak(t, rest.before, k);
      OperandIsNoNode(rest.operand);
      InsertOrdered(ReadAfter(t, rest.before), rest.op, ReadOperand(rest.operand));
    }
  }

  // ----- @dim -----

  /** `arg + (dim * (...))`, with the texts of arguments and dimensions as they are. */
  function IndexText(order: seq<nat>, dims: seq<Text>, args: seq<Text>): Text
    requires order != [] && |dims| == |args| && DimOrder.Below(order, |dims|)
  {
    if |order| == 1 then args[order[0]]
    else
      var inner := Brackets(IndexText(order[1..], dims, args));
      Extend(args[order[0]], PLUS, Brackets(Extend(dims[order[0]], TIMES, inner)))
  }

  /** What it is meant to say. */
  function IndexTree(order: seq<nat>, dims: seq<Text>, args: seq<Text>): Tree
    requires order != [] && |dims| == |args| && DimOrder.Below(order, |dims|)
  {
    if |order| == 1 then Read(args[order[0]])
    else
      var inner := Group(IndexTree(order[1..], dims, args));
      Node(PLUS, Read(args[order[0]]), Group(Node(TIMES, Read(dims[order[0]]), inner)))
  }

  /** All but the last text named: arguments at least as tight as `+`, dimensions at least as tight as `*`. */
  predicate DimsTight(order: seq<nat>, dims: seq<Text>, args: seq<Text>)
    requires |dims| == |args| && DimOrder.Below(order, |dims|)
  {
    forall k :: 0 <= k < |order| - 1 ==> Tight(args[order[k]], PLUS.strength) && Tight(dims[order[k]], TIMES.strength)
  }

  /** The emitted index says what it is meant to if and only if the texts are tight enough. */
  lemma {:induction false} IndexTextExact(order: seq<nat>, dims: seq<Text>, args: seq<Text>)
    requires order != [] && |dims| == |args| && DimOrder.Below(order, |dims|)
    ensures Read(IndexText(order, dims, args)) == IndexTree(order, dims, args) <==> DimsTight(order, dims, args)
  {
    if |order| > 1 {
      var o, rest := order[0], order[1..];
      IndexTextExact(rest, dims, args);
      var inner := Brackets(IndexText(rest, dims, args));
      var product := Extend(dims[o], TIMES, inner);
      ExtendExact(dims[o], TIMES, inner);
      ExtendExact(args[o], PLUS, Brackets(product));
      RightOperand(args[o], PLUS, Brackets(product));
      RightOperand(dims[o], TIMES, inner);
      assert DimsTight(order, dims, args)
        <==> Tight(args[o], PLUS.strength) && Tight(dims[o], TIMES.strength) && DimsTight(rest, dims, args) by {
        forall k | 1 <= k < |order| - 1 ensures order[k] == rest[k - 1] {}
        if DimsTight(order, dims, args) {
          forall k | 0 <= k < |rest| - 1
            ensures Tight(args[rest[k]], PLUS.strength) && Tight(dims[rest[k]], TIMES.strength) {
            assert rest[k] == order[k + 1];
          }
        }
      }
    }
  }

  /** The operand put last is the right-most one of the tree. */
  lemma {:induction false} RightOperand(a: Text, op: Op, x: Operand)
    ensures RightMost(Read(Extend(a, op, x))) == ReadOperand(x)
  {
    OperandIsNoNode(x);
    InsertedLast(Read(a), op, ReadOperand(x));
  }

  function RightMost(t: Tree): Tree {
    if t.Node? then RightMost(t.right) else t
  }

  lemma {:induction false} InsertedLast(t: Tree, op: Op, x: Tree)
    requires !x.Node?
    ensures RightMost(Insert(t, op, x)) == x
  {
    if t.Node? && op.strength > t.op.strength { InsertedLast(t.right, op, x); }
  }

  /** The tokens of a piece of the emitted index, once the texts are put in. */
  function PieceTokens(p: DimOrder.Piece, dims: seq<Text>, args: seq<Text>): seq<Token> {
    match p
    case ArgText(i) => if i < |args| then Tokens(args[i]) else []
    case DimText(i) => if i < |dims| then Tokens(dims[i]) else []
    case PlusSign => [OpToken(PLUS)]
    case TimesSign => [OpToken(TIMES)]
    case Open => [OpenToken]
    case Close => [CloseToken]
  }

  function PiecesTokens(ps: seq<DimOrder.Piece>, dims: seq<Text>, args: seq<Text>): seq<Token> {
    if ps == [] then [] else PieceTokens(ps[0], dims, args) + PiecesTokens(ps[1..], dims, args)
  }

  lemma {:induction false} PiecesConcat(a: seq<DimOrder.Piece>, b: seq<DimOrder.Piece>, dims: seq<Text>,
                                        args: seq<Text>)
    ensures PiecesTokens(a + b, dims, args) == PiecesTokens(a, dims, args) + PiecesTokens(b, dims, args)
  {
    if a == [] {
      assert a + b == b;
    } else {
      assert (a + b)[1..] == a[1..] + b;
      PiecesConcat(a[1..], b, dims, args);
    }
  }

  lemma {:induction false} PieceCons(p: DimOrder.Piece, ps: seq<DimOrder.Piece>, dims: seq<Text>, args: seq<Text>)
    ensures PiecesTokens([p] + ps, dims, args) == PieceTokens(p, dims, args) + PiecesTokens(ps, dims, args)
  {
    assert ([p] + ps)[1..] == ps;
  }

  lemma {:induction false} HeadTokens(i: nat, dims: seq<Text>, args: seq<Text>)
    requires i < |dims| == |args|
    ensures PiecesTokens(DimOrder.StepHead(i), dims, args)
            == Tokens(args[i]) + ([OpToken(PLUS), OpenToken] + (Tokens(dims[i]) + [OpToken(TIMES), OpenToken]))
  {
    var f := [DimOrder.Open] + [];
    var e := [DimOrder.TimesSign] + f;
    var d := [DimOrder.DimText(i)] + e;
    var c := [DimOrder.Open] + d;
    var b := [DimOrder.PlusSign] + c;
    assert DimOrder.StepHead(i) == [DimOrder.ArgText(i)] + b;
    PieceCons(DimOrder.Open, [], dims, args);
    PieceCons(DimOrder.TimesSign, f, dims, args);
    PieceCons(DimOrder.DimText(i), e, dims, args);
    PieceCons(DimOrder.Open, d, dims, args);
    PieceCons(DimOrder.PlusSign, c, dims, args);
    PieceCons(DimOrder.ArgText(i), b, dims, args);
    assert [OpToken(TIMES)] + ([OpenToken] + []) == [OpToken(TIMES), OpenToken];
    var inner := Tokens(dims[i]) + [OpToken(TIMES), OpenToken];
    assert [OpToken(PLUS)] + ([OpenToken] + inner) == [OpToken(PLUS), OpenToken] + inner;
  }

  lemma {:induction false} CloseTokens(dims: seq<Text>, args: seq<Text>)
    ensures PiecesTokens([DimOrder.Close, DimOrder.Close], dims, args) == [CloseToken, CloseToken]
  {
    PieceCons(DimOrder.Close, [], dims, args);
    PieceCons(DimOrder.Close, [DimOrder.Close] + [], dims, args);
    assert [DimOrder.Close] + ([DimOrder.Close] + []) == [DimOrder.Close, DimOrder.Close];
  }

  lemma {:induction false} ExtendTokens(a: Text, op: Op, x: Operand)
    ensures Tokens(Extend(a, op, x)) == Tokens(a) + ([OpToken(op)] + OperandTokens(x))
  {
  }

  /** The text that the two loops of the code build is the one read above. */
  lemma {:induction false} EmittedTokens(order: seq<nat>, dims: seq<Text>, args: seq<Text>)
    requires order != [] && |dims| == |args| && DimOrder.Below(order, |dims|)
    ensures PiecesTokens(DimOrder.Print(DimOrder.Horner(order)), dims, args) == Tokens(IndexText(order, dims, args))
  {
    var o, rest := order[0], order[1..];
    if |order| == 1 {
      assert [DimOrder.ArgText(o)][1..] == [];
      assert Tokens(args[o]) + [] == Tokens(args[o]);
    } else {
      EmittedTokens(rest, dims, args);
      var head, body, tail := DimOrder.StepHead(o), DimOrder.Print(DimOrder.Horner(rest)),
        [DimOrder.Close, DimOrder.Close];
      PiecesConcat(head + body, tail, dims, args);
      PiecesConcat(head, body, dims, args);
      HeadTokens(o, dims, args);
      CloseTokens(dims, args);
      var inner := Brackets(IndexText(rest, dims, args));
      ExtendTokens(dims[o], TIMES, inner);
      ExtendTokens(args[o], PLUS, Brackets(Extend(dims[o], TIMES, inner)));
      StepTokens(Tokens(args[o]), Tokens(dims[o]), Tokens(IndexText(rest, dims, args)));
    }
  }

  lemma {:induction false} StepTokens(a: seq<Token>, d: seq<Token>, r: seq<Token>)
    ensures ((a + ([OpToken(PLUS), OpenToken] + (d + [OpToken(TIMES), OpenToken]))) + r) + [CloseToken, CloseToken]
            == a + ([OpToken(PLUS)]
                    + ([OpenToken] + ((d + ([OpToken(TIMES)] + ([OpenToken] + (r + [CloseToken])))) + [CloseToken])))
  {
  }

  // ----- values -----

  /** What names and operators stand for; `*`, `/`, `+` and `-` are the operations on integers. */
  datatype Meaning = Meaning(names: string -> int, others: (Op, int, int) -> int)

  function Worth(t: Tree, m: Meaning): int {
    match t
    case Leaf(name) => m.names(name)
    case Group(inner) => Worth(inner, m)
    case Node(op, l, r) =>
      var a, b := Worth(l, m), Worth(r, m);
      if op == TIMES then a * b else if op == PLUS then a + b else if op == MINUS then a - b else m.others(op, a, b)
  }

  /** The values of a list of texts. */
  function Worths(ts: seq<Text>, m: Meaning): seq<int> {
    seq(|ts|, k requires 0 <= k < |ts| => Worth(Read(ts[k]), m))
  }

  lemma {:induction false} TreeIsHorner(order: seq<nat>, dims: seq<Text>, args: seq<Text>, ds: seq<nat>, xs: seq<nat>,
                                        m: Meaning)
    requires order != [] && |dims| == |args| && DimOrder.Below(order, |dims|)
    requires Worths(dims, m) == ds && Worths(args, m) == xs
    ensures Worth(IndexTree(order, dims, args), m) == DimOrder.Value(DimOrder.Horner(order), ds, xs)
  {
    var o := order[0];
    assert Worth(Read(args[o]), m) == Worths(args, m)[o] == xs[o];
    assert Worth(Read(dims[o]), m) == Worths(dims, m)[o] == ds[o];
    if |order| > 1 {
      TreeIsHorner(order[1..], dims, args, ds, xs, m);
      var inner := IndexTree(order[1..], dims, args);
      StepWorth(Read(args[o]), Read(dims[o]), inner, m);
    }
  }

  lemma {:induction false} StepWorth(a: Tree, d: Tree, inner: Tree, m: Meaning)
    ensures Worth(Node(PLUS, a, Group(Node(TIMES, d, Group(inner)))), m) == Worth(a, m) + Worth(d, m) * Worth(inner, m)
  {
    var product := Node(TIMES, d, Group(inner));
    assert Worth(Group(inner), m) == Worth(inner, m);
    assert Worth(product, m) == Worth(d, m) * Worth(inner, m);
    assert Worth(Group(product), m) == Worth(product, m);
  }

  /** Texts that are tight enough: the emitted text, read by precedence, is worth the index that is a bijection from
    * in-range arguments onto 0 .. product(dims) - 1. */
  lemma {:induction false} EmittedIndexValue(order: seq<nat>, dims: seq<Text>, args: seq<Text>, ds: seq<nat>,
                                             xs: seq<nat>, m: Meaning)
    requires |order| == |dims| == |args| && dims != [] && DimOrder.Permutation(order) && DimsTight(order, dims, args)
    requires Worths(dims, m) == ds && Worths(args, m) == xs && DimOrder.InRange(xs, ds)
    ensures var text := PiecesTokens(DimOrder.Print(DimOrder.Horner(order)), dims, args);
            && Scan(text).Some? && Scan(text).value.1 == []
            && var v := Worth(Read(Scan(text).value.0), m);
               0 <= v < DimOrder.ProductOfDims(ds) && DimOrder.ArgsAt(order, ds, v) == xs
  {
    var t := IndexText(order, dims, args);
    EmittedTokens(order, dims, args);
    TextScans(t, []);
    assert Tokens(t) + [] == Tokens(t);
    IndexTextExact(order, dims, args);
    TreeIsHorner(order, dims, args, ds, xs, m);
    DimOrder.IndexIsBijection(order, ds);
    var v := DimOrder.Value(DimOrder.Horner(order), ds, xs);
    assert v < DimOrder.ProductOfDims(ds);
    var back := DimOrder.ArgsAt(order, ds, v);
    assert DimOrder.InRange(back, ds) && DimOrder.Value(DimOrder.Horner(order), ds, back) == v;
  }

  /** `@dim(N + 1, M)` indexed by (i, j): the text says i + (N + (1 * (j))). */
  lemma {:induction false} SumAsDimension()
    ensures var n1, atom := Join(Text(Atom("N"), End), PLUS, Text(Atom("1"), End)), (s: string) => Text(Atom(s), End);
            var text := IndexText([0, 1], [n1, atom("M")], [atom("i"), atom("j")]);
            Read(text) == Node(PLUS, Leaf("i"), Group(Node(PLUS, Leaf("N"), Node(TIMES, Leaf("1"), Group(Leaf("j"))))))
  {
    assert [0, 1][1..] == [1];
  }

  // ----- tile sizes and steps -----

  /** The stride of a serial tile and of the launcher's block loop with a compound step: `(T * c)`. */
  lemma {:induction false} StrideExact(tile: Text, step: Text)
    ensures Read(Join(tile, TIMES, step)) == Node(TIMES, Read(tile), Read(step))
            <==> Tight(tile, TIMES.strength) && Tight(step, TIMES.strength + 1)
  {
    JoinExact(tile, TIMES, step);
  }

  /** What GPU code multiplies an index by: `((T) * step)`; the step has no brackets of its own. */
  function Scaled(size: Text, step: Text): Text {
    Join(Text(Brackets(size), End), TIMES, step)
  }

  /** The offset of a block, `(((T) * step) * index)`. */
  function OffsetText(size: Text, step: Text, index: string): Text {
    Extend(Text(Brackets(Scaled(size, step)), End), TIMES, Atom(index))
  }

  /** The offset of a block, and that of a thread, is the product meant if and only if the step binds more tightly than
    * multiplication. */
  lemma {:induction false} GpuOffsetExact(size: Text, step: Text, index: string)
    ensures Read(Scaled(size, step)) == Node(TIMES, Group(Read(size)), Read(step)) <==> Tight(step, TIMES.strength + 1)
    ensures Read(OffsetText(size, step, index))
            == Node(TIMES, Group(Node(TIMES, Group(Read(size)), Read(step))), Leaf(index))
            <==> Tight(step, TIMES.strength + 1)
  {
    JoinExact(Text(Brackets(size), End), TIMES, step);
    ExtendExact(Text(Brackets(Scaled(size, step)), End), TIMES, Atom(index));
  }

  /** With `i += c + 1` and a tile of T, the block index is multiplied by T * c + 1. */
  lemma {:induction false} SumAsStep()
    ensures var step := Join(Text(Atom("c"), End), PLUS, Text(Atom("1"), End));
            Read(Scaled(Text(Atom("T"), End), step))
            == Node(PLUS, Node(TIMES, Group(Leaf("T")), Leaf("c")), Leaf("1"))
  {
  }

  /** The end of the loop inside a serial tile: `(tiled + T)` or `(tiled - T)`. */
  lemma {:induction false} TileEndExact(tiled: string, up: bool, tile: Text)
    ensures var op := if up then PLUS else MINUS;
            Read(Join(Text(Atom(tiled), End), op, tile)) == Node(op, Leaf(tiled), Read(tile))
            <==> Tight(tile, op.strength + 1)
  {
    JoinExact(Text(Atom(tiled), End), if up then PLUS else MINUS, tile);
  }

  predicate SumsAtWorst(rest: Rest) {
    rest.More? ==> (rest.op == PLUS || rest.op == MINUS || rest.op.strength > PLUS.strength) && SumsAtWorst(rest.before)
  }

  /** Behind a plus, sums are no harm: the tree differs but not its value. */
  lemma {:induction false} PlusAbsorbs(l: Tree, r: Tree, rest: Rest, m: Meaning)
    requires SumsAtWorst(rest) && !r.Node?
    ensures Worth(ReadAfter(Node(PLUS, l, r), rest), m) == Worth(l, m) + Worth(ReadAfter(r, rest), m)
    decreases rest
  {
    SumsRead(l, r, rest, m);
  }

  /** Reading on after `l + r` and after `r` stays in step: both keep a sum at the root or neither has one yet. */
  lemma {:induction false} SumsRead(l: Tree, r: Tree, rest: Rest, m: Meaning)
    requires SumsAtWorst(rest) && !r.Node?
    ensures var a, b := ReadAfter(Node(PLUS, l, r), rest), ReadAfter(r, rest);
            && Worth(a, m) == Worth(l, m) + Worth(b, m)
            && a.Node? && (a.op == PLUS || a.op == MINUS)
            && if b.Node? && b.op.strength <= PLUS.strength
               then (b.op == PLUS || b.op == MINUS) && a.op == b.op && a.right == b.right
                 && Worth(a.left, m) == Worth(l, m) + Worth(b.left, m)
               else a.op == PLUS && a.left == l && a.right == b
    decreases rest
  {
    if rest.More? { SumsRead(l, r, rest.before, m); }
  }

  /** So the end of an increasing tile is right for sums too. */
  lemma {:induction false} TileEndValue(tiled: string, tile: Text, m: Meaning)
    requires SumsAtWorst(tile.rest)
    ensures Worth(Read(Join(Text(Atom(tiled), End), PLUS, tile)), m) == m.names(tiled) + Worth(Read(tile), m)
  {
    ReadChain(Leaf(tiled), More(End, PLUS, tile.first), tile.rest);
    OperandIsNoNode(tile.first);
    PlusAbsorbs(Leaf(tiled), ReadOperand(tile.first), tile.rest, m);
  }

  /** The launcher's block count of a tile with a unit step: `(R + T - 1) / T`. */
  function BlockCountText(range: Text, tile: Text): Text {
    var sum := Extend(Join(range, PLUS, tile), MINUS, Atom("1"));
    Join(Text(Brackets(sum), End), DIVIDE, tile)
  }

  function BlockCountTree(range: Text, tile: Text): Tree {
    Node(DIVIDE, Group(Node(MINUS, Node(PLUS, Read(range), Read(tile)), Leaf("1"))), Read(tile))
  }

  /** It says what it is meant to if and only if the tile size has no operator as weak as division. */
  lemma {:induction false} BlockCountExact(range: Text, tile: Text)
    requires Tight(range, PLUS.strength)
    ensures Read(BlockCountText(range, tile)) == BlockCountTree(range, tile) <==> Tight(tile, DIVIDE.strength + 1)
  {
    var join := Join(range, PLUS, tile);
    var whole := Text(Brackets(Extend(join, MINUS, Atom("1"))), End);
    JoinExact(range, PLUS, tile);
    ExtendExact(join, MINUS, Atom("1"));
    JoinExact(whole, DIVIDE, tile);
    if Tight(tile, DIVIDE.strength + 1) {
      Looser(tile.rest, DIVIDE.strength + 1, PLUS.strength + 1);
      Looser(tile.rest, DIVIDE.strength + 1, PLUS.strength);
      ChainTight(More(range.rest, PLUS, tile.first), tile.rest, PLUS.strength);
    } else {
      LeavesRight(DIVIDE, ReadOperand(whole.first), ReadOperand(tile.first), tile.rest);
      ReadChain(ReadOperand(whole.first), More(End, DIVIDE, tile.first), tile.rest);
      assert Read(BlockCountText(range, tile))
          == ReadAfter(Node(DIVIDE, ReadOperand(whole.first), ReadOperand(tile.first)), tile.rest);
      BlockCountLeaves(range, tile);
      assert Leaves(ReadOperand(whole.first)) == Leaves(Read(range)) + Leaves(Read(tile)) + 1;
      IntendedLeaves(range, tile);
    }
  }

  lemma {:induction false} IntendedLeaves(range: Text, tile: Text)
    ensures Leaves(BlockCountTree(range, tile).left) == Leaves(Read(range)) + Leaves(Read(tile)) + 1
  {
    var plus := Node(PLUS, Read(range), Read(tile));
    assert Leaves(plus) == Leaves(Read(range)) + Leaves(Read(tile));
    assert Leaves(Node(MINUS, plus, Leaf("1"))) == Leaves(plus) + 1;
  }

  lemma {:induction false} Looser(rest: Rest, a: nat, b: nat)
    requires AtLeast(rest, a) && b <= a
    ensures AtLeast(rest, b)
  {
    if rest.More? { Looser(rest.before, a, b); }
  }

  lemma {:induction false} ChainTight(a: Rest, b: Rest, k: nat)
    ensures AtLeast(Chain(a, b), k) <==> AtLeast(a, k) && AtLeast(b, k)
  {
    if b.More? { ChainTight(a, b.before, k); }
  }

  /** The bracketed sum has as many operands as its parts, however it is read. */
  lemma {:induction false} BlockCountLeaves(range: Text, tile: Text)
    ensures Leaves(Read(Extend(Join(range, PLUS, tile), MINUS, Atom("1"))))
            == Leaves(Read(range)) + Leaves(Read(tile)) + 1
  {
    var join, x := Join(range, PLUS, tile), ReadOperand(tile.first);
    ReadChain(ReadOperand(range.first), More(range.rest, PLUS, tile.first), tile.rest);
    assert Read(join) == ReadAfter(Insert(Read(range), PLUS, x), tile.rest);
    InsertLeaves(Read(range), PLUS, x);
    AfterLeaves(Insert(Read(range), PLUS, x), x, tile.rest);
    ReadExtend(join, MINUS, Atom("1"));
    InsertLeaves(Read(join), MINUS, Leaf("1"));
  }

  lemma {:induction false} ReadExtend(a: Text, op: Op, x: Operand)
    ensures Read(Extend(a, op, x)) == Insert(Read(a), op, ReadOperand(x))
  {
  }

  lemma {:induction false} InsertLeaves(t: Tree, op: Op, x: Tree)
    ensures Leaves(Insert(t, op, x)) == Leaves(t) + Leaves(x)
  {
    if t.Node? && op.strength > t.op.strength { InsertLeaves(t.right, op, x); }
  }

  lemma {:induction false} AfterLeaves(t: Tree, u: Tree, rest: Rest)
    ensures Leaves(ReadAfter(t, rest)) - Leaves(t) == Leaves(ReadAfter(u, rest)) - Leaves(u)
  {
    if rest.More? {
      AfterLeaves(t, u, rest.before);
      InsertLeaves(ReadAfter(t, rest.before), rest.op, ReadOperand(rest.operand));
      InsertLeaves(ReadAfter(u, rest.before), rest.op, ReadOperand(rest.operand));
    }
  }
}
