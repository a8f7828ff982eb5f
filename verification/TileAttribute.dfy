/** The front end of `@tile`, `@outer` and `@inner`: which loop types and axes a loop can get. */
module TileAttribute {
  import opened LoopLang
  import opened LoopHeader
  import opened LoopTree
  import opened KernelUtils
  import opened AttrParser

  datatype Error =
    | WrongArity
    | EmptySize
    | NotAnAttribute
    | NotALoop
    | UnknownKeyword
    | NotABool
    | BadIndex
    | TakesNoKwargs

  datatype Result<+T> = Ok(value: T) | Err(error: Error)

  datatype LoopRequest = LoopRequest(kind: LoopType, axis: Axis)

  const NO_LOOP := LoopRequest(Regular, Auto)

  datatype TileRequest = TileRequest(tileSize: Arg, first: LoopRequest, second: LoopRequest, check: bool)

  /** What literal evaluation makes of an argument, if it is an integer or a truth value. */
  datatype Literals = Literals(asInt: Arg -> Option<int>, asBool: Arg -> Option<bool>)

  function IndexAxis(i: int): Axis {
    if i == 0 then X else if i == 1 then Y else Z
  }

  /** A loop attribute takes at most one index, which must be 0, 1 or 2 when it is an integer. */
  predicate LoopOk(lit: Literals, attr: Parsed) {
    attr.name in {"okl_outer", "okl_inner"} && |attr.kwargs| == 0 && |attr.args| <= 1
    && (attr.args != [] && lit.asInt(attr.args[0]).Some? ==> 0 <= lit.asInt(attr.args[0]).value <= 2)
  }

  /** The loop that an attribute asks for: its type by name, its axis by index, Auto without an integer index. */
  predicate Gives(lit: Literals, attr: Parsed, loop: LoopRequest) {
    && (loop.kind == Outer <==> attr.name == "okl_outer") && (loop.kind == Inner <==> attr.name == "okl_inner")
    && (loop.axis == Auto <==> attr.args == [] || lit.asInt(attr.args[0]).None?)
    && (loop.axis != Auto ==> AxisNumber(loop.axis) == lit.asInt(attr.args[0]).value)
  }

  predicate ArgumentsOk(lit: Literals, data: Parsed) {
    1 <= |data.args| <= 3 && data.args[0] != Raw([])
    && forall i :: 1 <= i < |data.args| ==> data.args[i].Nested? && LoopOk(lit, data.args[i].attr)
  }

  predicate TileOk(lit: Literals, data: Parsed) {
    ArgumentsOk(lit, data)
    && data.kwargs.Keys <= {"check"} && ("check" in data.kwargs ==> lit.asBool(data.kwargs["check"]).Some?)
  }

  /** The order in which keywords are looked at. */
  predicate Before(a: string, b: string) {
    b != "" && (a == "" || a[0] < b[0] || (a[0] == b[0] && Before(a[1..], b[1..])))
  }

  /** `check` is no truth value, and no other keyword is met before it. */
  predicate CheckFails(lit: Literals, data: Parsed) {
    "check" in data.kwargs && lit.asBool(data.kwargs["check"]).None?
    && forall key :: key in data.kwargs ==> !Before(key, "check")
  }

  lemma {:induction false} NotBeforeItself(a: string)
    ensures !Before(a, a)
  {
    if a != "" { NotBeforeItself(a[1..]); }
  }

  /** `@outer` and `@inner`, alone or as an argument of `@tile`. */
  method ParseLoop(lit: Literals, attr: Parsed) returns (r: Result<LoopRequest>)
    ensures r.Ok? <==> LoopOk(lit, attr)
    ensures r.Ok? ==> Gives(lit, attr, r.value)
    ensures r.Err? ==> r.error in {NotALoop, TakesNoKwargs, WrongArity, BadIndex}
    ensures r == Err(NotALoop) <==> attr.name !in {"okl_outer", "okl_inner"}
    ensures r == Err(TakesNoKwargs) <==> attr.name in {"okl_outer", "okl_inner"} && |attr.kwargs| > 0
    ensures r == Err(WrongArity) <==>
              attr.name in {"okl_outer", "okl_inner"} && |attr.kwargs| == 0 && |attr.args| > 1
  {
    if attr.name != "okl_outer" && attr.name != "okl_inner" {
      return Err(NotALoop);
    }
    if |attr.kwargs| != 0 {
      return Err(TakesNoKwargs);
    }
    if |attr.args| > 1 {
      return Err(WrongArity);
    }
    var ret := LoopRequest(if attr.name == "okl_outer" then Outer else Inner, Auto);
    if attr.args != [] && lit.asInt(attr.args[0]).Some? {
      var i := lit.asInt(attr.args[0]).value;
      if i < 0 || i > 2 {
        return Err(BadIndex);
      }
      ret := ret.(axis := IndexAxis(i));
    }
    return Ok(ret);
  }

  /** The loop attributes of `@tile` in order; those not given are regular.  The pair of types is one that
    * the rest of the pass relies on: a regular first loop has a regular second one. */
  method ParseTile(lit: Literals, data: Parsed) returns (r: Result<TileRequest>)
    ensures r.Ok? <==> TileOk(lit, data)
    ensures r.Ok? ==> r.value.tileSize == data.args[0]
    ensures r.Ok? ==> if |data.args| < 2 then r.value.first == NO_LOOP else Gives(lit, data.args[1].attr, r.value.first)
    ensures r.Ok? ==> if |data.args| < 3 then r.value.second == NO_LOOP
            else Gives(lit, data.args[2].attr, r.value.second)
    ensures r.Ok? ==> TypesOk([r.value.first.kind, r.value.second.kind])
    ensures r.Ok? ==> (if "check" in data.kwargs then lit.asBool(data.kwargs["check"]) == Some(r.value.check)
            else r.value.check)
    ensures r == Err(EmptySize) <==> 1 <= |data.args| <= 3 && data.args[0] == Raw([])
    ensures r == Err(NotABool) <==> ArgumentsOk(lit, data) && CheckFails(lit, data)
    ensures r == Err(UnknownKeyword) <==>
              ArgumentsOk(lit, data) && !CheckFails(lit, data) && !(data.kwargs.Keys <= {"check"})
  {
    if data.args == [] || |data.args| > 3 {
      return Err(WrongArity);
    }
    if data.args[0] == Raw([]) {
      return Err(EmptySize);
    }
    var first, second, check := NO_LOOP, NO_LOOP, true;
    for i := 1 to |data.args|
      invariant forall j :: 1 <= j < i ==> data.args[j].Nested? && LoopOk(lit, data.args[j].attr)
      invariant if i < 2 then first == NO_LOOP else Gives(lit, data.args[1].attr, first)
      invariant if i < 3 then second == NO_LOOP else Gives(lit, data.args[2].attr, second)
    {
      if !data.args[i].Nested? {
        return Err(NotAnAttribute);
      }
      var loop := ParseLoop(lit, data.args[i].attr);
      if loop.Err? {
        return Err(loop.error);
      }
      if i == 1 { first := loop.value; } else { second := loop.value; }
    }
    if exists key :: key in data.kwargs.Keys && Before(key, "check") {
      NotBeforeItself("check");
      return Err(UnknownKeyword);
    }
    if "check" in data.kwargs {
      var value := lit.asBool(data.kwargs["check"]);
      if value.None? {
        return Err(NotABool);
      }
      check := value.value;
    }
    if exists key :: key in data.kwargs.Keys && key != "check" {
      return Err(UnknownKeyword);
    }
    return Ok(TileRequest(data.args[0], first, second, check));
  }
}
