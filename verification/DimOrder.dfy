/** `@dim` and `@dimOrder`: the checks split between front and back end, and the index expression
  * that linearises a multi-dimensional access.
  */
module DimOrder {
  import opened LoopHeader

  datatype Error = NoArguments | TakesNoKwargs | NotAnIndex | DuplicateIndex | WrongArgumentCount | IndexOutOfRange
                 | MissingDimensions | TooManyDimensions

  datatype Result<+T> = Ok(value: T) | Err(error: Error)

  // ----- the checks -----

  predicate Distinct(s: seq<nat>) {
    forall i, j :: 0 <= i < j < |s| ==> s[i] != s[j]
  }

  /** Argument k is no index or repeats one, and those before it do not. */
  predicate FirstBad(args: seq<Option<nat>>, k: nat) {
    k < |args| && (args[k] == None || args[k] in args[..k])
    && forall j :: 0 <= j < k ==> args[j] != None && args[j] !in args[..j]
  }

  /** Front end: the arguments of `@dimOrder`, None where an argument is no unsigned integer. */
  method ParseDimOrder(args: seq<Option<nat>>, kwargs: nat) returns (r: Result<seq<nat>>)
    ensures r.Ok? <==>
              kwargs == 0 && args != [] && None !in args
              && forall i, j :: 0 <= i < j < |args| ==> args[i] != args[j]
    ensures r.Ok? ==>
              |r.value| == |args| && Distinct(r.value)
              && forall k :: 0 <= k < |args| ==> args[k] == Some(r.value[k])
    ensures r == Err(TakesNoKwargs) <==> kwargs != 0
    ensures r == Err(NoArguments) <==> kwargs == 0 && args == []
    ensures r == Err(NotAnIndex) ==> exists k: nat :: FirstBad(args, k) && args[k] == None
    ensures r == Err(DuplicateIndex) ==> exists k: nat :: FirstBad(args, k) && args[k] != None
  {
    if kwargs != 0 {
      return Err(TakesNoKwargs);
    }
    if args == [] {
      return Err(NoArguments);
    }
    var idx: seq<nat> := [];
    for k := 0 to |args|
      invariant |idx| == k && Distinct(idx) && forall j :: 0 <= j < k ==> args[j] == Some(idx[j])
    {
      assert forall j :: 0 <= j < k ==> args[j] !in args[..j];
      if args[k] == None || args[k].value in idx { assert FirstBad(args, k); }
      if args[k].None? {
        return Err(NotAnIndex);
      }
      if args[k].value in idx {
        return Err(DuplicateIndex);
      }
      idx := idx + [args[k].value];
    }
    return Ok(idx);
  }

  /** Back end: the order to use for a variable of `nDims` dimensions. */
  method GetDimOrder(nDims: nat, attr: Option<seq<nat>>) returns (r: Result<seq<nat>>)
    ensures attr.None? ==> r.Ok? && |r.value| == nDims && forall k :: 0 <= k < nDims ==> r.value[k] == k
    ensures attr.Some? ==> (r.Ok? <==> |attr.value| == nDims && Below(attr.value, nDims))
    ensures attr.Some? && r.Ok? ==> r.value == attr.value
    ensures r.Ok? && (attr.Some? ==> Distinct(attr.value)) ==> Permutation(r.value)
    ensures r == Err(WrongArgumentCount) <==> attr.Some? && |attr.value| != nDims
  {
    var dimOrder := seq(nDims, k => k);
    if attr.Some? {
      dimOrder := attr.value;
    }
    if |dimOrder| != nDims {
      return Err(WrongArgumentCount);
    }
    for k := 0 to |dimOrder|
      invariant forall j :: 0 <= j < k ==> dimOrder[j] < nDims
    {
      if dimOrder[k] >= nDims {
        return Err(IndexOutOfRange);
      }
    }
    if Distinct(dimOrder) { Pigeonhole(dimOrder, nDims); }
    return Ok(dimOrder);
  }

  /** The arity check of an access; the first expression is the variable itself. */
  function ValidateDim(expressions: nat, nDims: nat): (r: Result<nat>)
    ensures nDims > 0 ==> (r.Ok? <==> expressions == nDims + 1)
    ensures r == Err(MissingDimensions) <==> expressions < nDims + 1 || expressions <= 1
    ensures r.Err? && r.error != MissingDimensions ==> r == Err(TooManyDimensions) && expressions > nDims + 1
  {
    if expressions <= 1 then Err(MissingDimensions)
    else if expressions - 1 < nDims then Err(MissingDimensions)
    else if expressions - 1 > nDims then Err(TooManyDimensions)
    else Ok(expressions - 1)
  }

  predicate Permutation(s: seq<nat>) {
    Distinct(s) && (forall k :: 0 <= k < |s| ==> s[k] < |s|) && forall v :: 0 <= v < |s| ==> v in s
  }

  /** Distinct entries below n fill at most n places; n of them take every value. */
  lemma {:induction false} Pigeonhole(s: seq<nat>, n: nat)
    requires Distinct(s) && Below(s, n)
    ensures |s| <= n && (|s| == n ==> forall v :: 0 <= v < n ==> v in s)
    decreases n
  {
    if s == [] { return; }
    assert s[0] < n;
    if n - 1 in s {
      var i :| 0 <= i < |s| && s[i] == n - 1;
      var rest := Remove(s, i);
      RemoveKeeps(s, i, n);
      Pigeonhole(rest, n - 1);
      forall v | 0 <= v < n && |s| == n ensures v in s { if v < n - 1 { assert v in rest; } }
    } else {
      forall k | 0 <= k < |s| ensures s[k] < n - 1 { assert s[k] in s; }
      Pigeonhole(s, n - 1);
    }
  }

  function Remove(s: seq<nat>, i: nat): (r: seq<nat>)
    requires i < |s|
  {
    s[..i] + s[i + 1..]
  }

  predicate Below(s: seq<nat>, n: nat) {
    forall k :: 0 <= k < |s| ==> s[k] < n
  }

  /** Without its largest value, a list of distinct entries below n is one of distinct entries below n - 1. */
  lemma {:induction false} RemoveKeeps(s: seq<nat>, i: nat, n: nat)
    requires Distinct(s) && Below(s, n) && i < |s| && s[i] == n - 1
    ensures Distinct(Remove(s, i)) && Below(Remove(s, i), n - 1) && |Remove(s, i)| == |s| - 1
  {
    var rest := Remove(s, i);
    forall k | 0 <= k < |rest| ensures rest[k] < n - 1 { assert rest[k] == s[if k < i then k else k + 1]; }
    forall a, b | 0 <= a < b < |rest| ensures rest[a] != rest[b] {
      assert rest[a] == s[if a < i then a else a + 1] && rest[b] == s[if b < i then b else b + 1];
    }
  }

  /** What passes both checks is a permutation of the dimensions, and every permutation passes. */
  lemma {:induction false} CheckedIsPermutation(order: seq<nat>, nDims: nat)
    ensures Distinct(order) && |order| == nDims && (forall k :: 0 <= k < |order| ==> order[k] < nDims)
            <==> |order| == nDims && Permutation(order)
  {
    if Distinct(order) && |order| == nDims && Below(order, nDims) { Pigeonhole(order, nDims); }
  }

  // ----- the emitted text -----

  datatype Piece = ArgText(i: nat) | DimText(i: nat) | PlusSign | TimesSign | Open | Close

  datatype IndexExpr = Index(i: nat) | Step(i: nat, inner: IndexExpr)

  /** a + (d * (rest)) */
  function Print(e: IndexExpr): seq<Piece> {
    match e
    case Index(i) => [ArgText(i)]
    case Step(i, inner) => StepHead(i) + Print(inner) + [Close, Close]
  }

  function StepHead(i: nat): seq<Piece> {
    [ArgText(i), PlusSign, Open, DimText(i), TimesSign, Open]
  }

  /** The nested form for a non-empty order: the first dimension named is the fastest. */
  function Horner(order: seq<nat>): IndexExpr
    requires order != []
  {
    if |order| == 1 then Index(order[0]) else Step(order[0], Horner(order[1..]))
  }

  function Closing(n: nat): seq<Piece> {
    if n == 0 then [] else [Close] + Closing(n - 1)
  }

  lemma {:induction false} ClosingSnoc(n: nat)
    ensures Closing(n) + [Close] == Closing(n + 1)
  {
    if n > 0 { ClosingSnoc(n - 1); }
  }

  lemma {:induction false} PeelStep(text: seq<Piece>, order: seq<nat>, dim: nat)
    requires |order| > 1
    ensures text + (Print(Horner(order)) + Closing(2 * dim))
            == (text + StepHead(order[0])) + (Print(Horner(order[1..])) + Closing(2 * (dim + 1)))
  {
    var head, inner, tail := StepHead(order[0]), Print(Horner(order[1..])), Closing(2 * dim);
    assert Print(Horner(order)) == head + inner + [Close, Close];
    assert [Close] + tail == Closing(2 * dim + 1) && [Close] + Closing(2 * dim + 1) == Closing(2 * dim + 2);
    assert [Close, Close] + tail == [Close] + ([Close] + tail);
    Reassociate(text, head, inner, [Close, Close], tail);
  }

  lemma {:induction false} Reassociate<T>(a: seq<T>, b: seq<T>, c: seq<T>, d: seq<T>, e: seq<T>)
    ensures a + ((b + c + d) + e) == (a + b) + (c + (d + e))
  {
  }

  /** The text built by the two loops, opening brackets first and closing them all at the end, is the
    * printed nested expression. */
  method BuildIndexCalculation(order: seq<nat>) returns (text: seq<Piece>)
    requires order != []
    ensures text == Print(Horner(order))
  {
    text := [];
    for dim := 0 to |order| - 1
      invariant Print(Horner(order)) == text + (Print(Horner(order[dim..])) + Closing(2 * dim))
    {
      var idx := order[dim];
      PeelStep(text, order[dim..], dim);
      assert order[dim..][1..] == order[dim + 1..];
      text := text + StepHead(idx);
    }
    assert |order[|order| - 1..]| == 1;
    text := text + [ArgText(order[|order| - 1])];
    ghost var heads := text;
    for i := 0 to 2 * (|order| - 1)
      invariant text == heads + Closing(i)
    {
      ClosingSnoc(i);
      text := text + [Close];
    }
  }

  // ----- the index -----

  function Value(e: IndexExpr, dims: seq<nat>, args: seq<nat>): nat {
    match e
    case Index(i) => if i < |args| then args[i] else 0
    case Step(i, inner) =>
      (if i < |args| then args[i] else 0) + (if i < |dims| then dims[i] else 0) * Value(inner, dims, args)
  }

  predicate InRange(args: seq<nat>, dims: seq<nat>) {
    |args| == |dims| && forall k :: 0 <= k < |dims| ==> args[k] < dims[k]
  }

  function Volume(order: seq<nat>, dims: seq<nat>): nat {
    if order == [] then 1 else (if order[0] < |dims| then dims[order[0]] else 1) * Volume(order[1..], dims)
  }

  lemma {:induction false} IndexBelowVolume(order: seq<nat>, dims: seq<nat>, args: seq<nat>)
    requires order != [] && Below(order, |dims|) && InRange(args, dims)
    ensures Value(Horner(order), dims, args) < Volume(order, dims)
  {
    if |order| == 1 {
      assert order[1..] == [];
      assert dims[order[0]] * 1 == dims[order[0]];
    } else {
      IndexBelowVolume(order[1..], dims, args);
      NextMultiple(dims[order[0]], Value(Horner(order[1..]), dims, args), Volume(order[1..], dims));
    }
  }

  /** Equal indices come from equal arguments on every dimension of the order. */
  lemma {:induction false} IndexInjective(order: seq<nat>, dims: seq<nat>, a: seq<nat>, b: seq<nat>)
    requires order != [] && Below(order, |dims|) && InRange(a, dims) && InRange(b, dims)
    requires Value(Horner(order), dims, a) == Value(Horner(order), dims, b)
    ensures forall k :: 0 <= k < |order| ==> a[order[k]] == b[order[k]]
  {
    if |order| > 1 {
      var d := dims[order[0]];
      var va, vb := Value(Horner(order[1..]), dims, a), Value(Horner(order[1..]), dims, b);
      SameDigits(d, a[order[0]], va, b[order[0]], vb);
      IndexInjective(order[1..], dims, a, b);
      assert forall k :: 1 <= k < |order| ==> order[k] == order[1..][k - 1];
    }
  }

  lemma {:induction false} SameDigits(d: nat, x: nat, v: nat, y: nat, w: nat)
    requires x < d && y < d && x + d * v == y + d * w
    ensures x == y && v == w
  {
    if v < w { NextMultiple(d, v, w); }
    if w < v { NextMultiple(d, w, v); }
  }

  lemma {:induction false} NextMultiple(d: nat, v: nat, w: nat)
    requires v < w
    ensures d * v + d <= d * w
  {
    MulMono(d, v + 1, w);
    assert d * (v + 1) == d * v + d;
  }

  /** The arguments with a given index: digits peeled off in the order of the dimensions. */
  function Unrank(order: seq<nat>, dims: seq<nat>, index: nat, args: seq<nat>): (r: seq<nat>)
    requires |args| == |dims|
    ensures |r| == |dims|
    decreases |order|
  {
    if order == [] || order[0] >= |dims| || dims[order[0]] == 0 then args
    else Unrank(order[1..], dims, index / dims[order[0]], args[order[0] := index % dims[order[0]]])
  }

  function ArgsAt(order: seq<nat>, dims: seq<nat>, index: nat): seq<nat> {
    Unrank(order, dims, index, seq(|dims|, _ => 0))
  }

  lemma {:induction false} UnrankKeeps(order: seq<nat>, dims: seq<nat>, index: nat, args: seq<nat>)
    requires |args| == |dims|
    ensures forall k :: 0 <= k < |dims| && k !in order ==> Unrank(order, dims, index, args)[k] == args[k]
    decreases |order|
  {
    if order != [] && order[0] < |dims| && dims[order[0]] != 0 {
      UnrankKeeps(order[1..], dims, index / dims[order[0]], args[order[0] := index % dims[order[0]]]);
    }
  }

  lemma {:induction false} ValueDependsOnOrder(order: seq<nat>, dims: seq<nat>, a: seq<nat>, b: seq<nat>)
    requires order != [] && |a| == |b| && forall k :: 0 <= k < |order| && order[k] < |a| ==> a[order[k]] == b[order[k]]
    ensures Value(Horner(order), dims, a) == Value(Horner(order), dims, b)
  {
    if |order| > 1 { ValueDependsOnOrder(order[1..], dims, a, b); }
  }

  /** Every index below the volume is taken by arguments in range. */
  lemma {:induction false} UnrankHits(order: seq<nat>, dims: seq<nat>, index: nat, args: seq<nat>)
    requires order != [] && Distinct(order) && Below(order, |dims|) && |args| == |dims| && index < Volume(order, dims)
    ensures var r := Unrank(order, dims, index, args);
            WithinDims(order, dims, r) && Value(Horner(order), dims, r) == index
    decreases |order|
  {
    var o, rest := order[0], order[1..];
    var d := dims[o];
    FirstPositive(order, dims);
    var args' := args[o := index % d];
    var r := Unrank(order, dims, index, args);
    assert r == Unrank(rest, dims, index / d, args');
    assert o !in rest;
    UnrankKeeps(rest, dims, index / d, args');
    assert r[o] == index % d < d;
    if |order| == 1 {
      assert rest == [];
      assert d * 1 == d;
      SmallMod(index, d);
    } else {
      QuotientBelow(index, d, Volume(rest, dims));
      UnrankHits(rest, dims, index / d, args');
      WithinCons(order, dims, r);
      DivMod(index, d);
    }
  }

  predicate WithinDims(order: seq<nat>, dims: seq<nat>, r: seq<nat>)
    requires Below(order, |dims|) && |r| == |dims|
  {
    forall k :: 0 <= k < |order| ==> r[order[k]] < dims[order[k]]
  }

  lemma {:induction false} WithinCons(order: seq<nat>, dims: seq<nat>, r: seq<nat>)
    requires order != [] && Below(order, |dims|) && |r| == |dims| && Below(order[1..], |dims|)
    requires r[order[0]] < dims[order[0]] && WithinDims(order[1..], dims, r)
    ensures WithinDims(order, dims, r)
  {
    forall k | 0 <= k < |order| ensures r[order[k]] < dims[order[k]] {
      if k > 0 { assert order[k] == order[1..][k - 1]; }
    }
  }

  lemma {:induction false} FirstPositive(order: seq<nat>, dims: seq<nat>)
    requires order != [] && order[0] < |dims| && Volume(order, dims) > 0
    ensures dims[order[0]] > 0
  {
    assert dims[order[0]] != 0 || dims[order[0]] * Volume(order[1..], dims) == 0;
  }

  lemma {:induction false} DivMod(a: nat, d: nat)
    requires d > 0
    ensures a == a % d + d * (a / d)
  {
  }

  lemma {:induction false} SmallMod(a: nat, d: nat)
    requires a < d
    ensures a % d == a
  {
  }

  lemma {:induction false} QuotientBelow(a: nat, d: nat, v: nat)
    requires d > 0 && a < d * v
    ensures a / d < v
  {
    var q := a / d;
    assert a == d * q + a % d;
    if q >= v { MulMono(d, v, q); }
  }

  function ProductOfDims(dims: seq<nat>): nat {
    if dims == [] then 1 else dims[0] * ProductOfDims(dims[1..])
  }

  // ----- the order does not change the volume -----

  lemma {:induction false} VolumeRemove(order: seq<nat>, dims: seq<nat>, i: nat)
    requires Below(order, |dims|) && i < |order|
    ensures Volume(order, dims) == dims[order[i]] * Volume(Remove(order, i), dims)
  {
    if i == 0 {
      assert Remove(order, 0) == order[1..];
    } else {
      VolumeRemove(order[1..], dims, i - 1);
      var rest := Remove(order[1..], i - 1);
      assert Remove(order, i) == [order[0]] + rest;
      VolumeCons(order[0], rest, dims);
      Exchange(dims[order[0]], dims[order[i]], Volume(rest, dims));
    }
  }

  lemma {:induction false} VolumeCons(o: nat, rest: seq<nat>, dims: seq<nat>)
    requires o < |dims|
    ensures Volume([o] + rest, dims) == dims[o] * Volume(rest, dims)
  {
    assert ([o] + rest)[1..] == rest;
  }

  lemma {:induction false} Exchange(a: nat, b: nat, v: nat)
    ensures a * (b * v) == b * (a * v)
  {
  }

  /** The volume of a permutation of the first n dimensions is their product. */
  lemma {:induction false} VolumeOfPermutation(order: seq<nat>, dims: seq<nat>, n: nat)
    requires n <= |dims| && |order| == n && Distinct(order) && Below(order, n)
    ensures Volume(order, dims) == ProductOfDims(dims[..n])
    decreases n
  {
    if n > 0 {
      var i := PlaceOfLargest(order, n);
      RemoveKeeps(order, i, n);
      VolumeOfPermutation(Remove(order, i), dims, n - 1);
      VolumeRemove(order, dims, i);
      ProductUpTo(dims, n);
    }
  }

  lemma {:induction false} PlaceOfLargest(order: seq<nat>, n: nat) returns (i: nat)
    requires |order| == n > 0 && Distinct(order) && Below(order, n)
    ensures i < n && order[i] == n - 1
  {
    Pigeonhole(order, n);
    assert n - 1 in order;
    i :| 0 <= i < |order| && order[i] == n - 1;
  }

  lemma {:induction false} ProductUpTo(dims: seq<nat>, n: nat)
    requires 0 < n <= |dims|
    ensures ProductOfDims(dims[..n]) == dims[n - 1] * ProductOfDims(dims[..n - 1])
  {
    ProductSnoc(dims[..n - 1], dims[n - 1]);
    assert dims[..n - 1] + [dims[n - 1]] == dims[..n];
  }

  lemma {:induction false} ProductSnoc(s: seq<nat>, d: nat)
    ensures ProductOfDims(s + [d]) == d * ProductOfDims(s)
  {
    if s == [] {
      assert s + [d] == [d] && [d][1..] == [];
    } else {
      assert (s + [d])[1..] == s[1..] + [d];
      ProductSnoc(s[1..], d);
      var a, p := s[0], ProductOfDims(s[1..]);
      Exchange(a, d, p);
    }
  }

  /** For every order that passes the checks the emitted index is a bijection from the in-range
    * argument tuples onto 0 .. product(dims) - 1. */
  lemma {:induction false} IndexIsBijection(order: seq<nat>, dims: seq<nat>)
    requires dims != [] && |order| == |dims| && Permutation(order)
    ensures forall a :: InRange(a, dims) ==> Value(Horner(order), dims, a) < ProductOfDims(dims)
    ensures forall a, b ::
              InRange(a, dims) && InRange(b, dims) && Value(Horner(order), dims, a) == Value(Horner(order), dims, b)
              ==> a == b
    ensures forall i: nat :: i < ProductOfDims(dims) ==>
              InRange(ArgsAt(order, dims, i), dims) && Value(Horner(order), dims, ArgsAt(order, dims, i)) == i
  {
    VolumeOfPermutation(order, dims, |dims|);
    assert dims[..|dims|] == dims;
    forall a | InRange(a, dims) ensures Value(Horner(order), dims, a) < ProductOfDims(dims) {
      IndexBelowVolume(order, dims, a);
    }
    forall a, b | InRange(a, dims) && InRange(b, dims)
                  && Value(Horner(order), dims, a) == Value(Horner(order), dims, b)
      ensures a == b
    {
      IndexInjective(order, dims, a, b);
      forall v | 0 <= v < |dims| ensures a[v] == b[v] { assert v in order; }
    }
    forall i: nat | i < ProductOfDims(dims)
      ensures InRange(ArgsAt(order, dims, i), dims) && Value(Horner(order), dims, ArgsAt(order, dims, i)) == i
    {
      UnrankHits(order, dims, i, seq(|dims|, _ => 0));
      var a := ArgsAt(order, dims, i);
      forall v | 0 <= v < |dims| ensures a[v] < dims[v] { assert v in order; }
    }
  }
}
