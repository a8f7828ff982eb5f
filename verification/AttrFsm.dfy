/** The token state machine that finds OKL attributes in a source file and hands each to a visitor. */
module AttrFsm {

  datatype Kind = At | Identifier | LParen | RParen | Equal | Comma | StringLiteral | Numeric | False | True
                | Slash | Star | Plus | Minus | OtherKind

  datatype Token = Token(kind: Kind, text: string)

  datatype OklAttribute = OklAttribute(name: string, params: string, tokIndices: seq<nat>)

  const EMPTY := OklAttribute("", "", [])

  datatype State = SearchingAttrStart | ParseAttrName | SearchingAttrParamList | ParseAttrParamList

  datatype Status = Error | TokenProcessed | OklAttrParsed

  datatype Fsm = Fsm(cursor: nat, state: State, attr: OklAttribute, parenDepth: nat)

  /** What the whole pass returns. */
  datatype Outcome = NoTokens | Finished | Malformed(at: nat) | StoppedByVisitor

  // ----- spelling of a parameter list -----

  function TrimQuotes(s: string): string {
    TrimBack(TrimFront(s))
  }

  function TrimFront(s: string): string {
    if s != "" && s[0] == '\"' then TrimFront(s[1..]) else s
  }

  function TrimBack(s: string): string {
    if s != "" && s[|s| - 1] == '\"' then TrimBack(s[..|s| - 1]) else s
  }

  function Spell(t: Token): string {
    if t.kind.StringLiteral? then "\\\"" + TrimQuotes(t.text) + "\\\"" else t.text
  }

  // ----- one step -----

  predicate Plain(k: Kind) {
    k in {At, Equal, Identifier, Comma, StringLiteral, Numeric, False, True, Slash, Star, Plus, Minus}
  }

  function Take(f: Fsm, t: Token): Fsm {
    f.(attr := f.attr.(params := f.attr.params + Spell(t), tokIndices := f.attr.tokIndices + [f.cursor]))
  }

  /** One token against the state; the cursor itself is moved by the caller. */
  function Step(f: Fsm, t: Token): (Fsm, Status) {
    match f.state
    case SearchingAttrStart =>
      if !t.kind.At? then (f, TokenProcessed)
      else (f.(attr := f.attr.(tokIndices := f.attr.tokIndices + [f.cursor]), state := ParseAttrName), TokenProcessed)
    case ParseAttrName =>
      if !t.kind.Identifier? then (f, Error)
      else (f.(attr := f.attr.(name := t.text, tokIndices := f.attr.tokIndices + [f.cursor]),
               state := SearchingAttrParamList),
            TokenProcessed)
    case SearchingAttrParamList =>
      if t.kind.LParen? then (Take(f, t).(parenDepth := f.parenDepth + 1, state := ParseAttrParamList), TokenProcessed)
      else (f, OklAttrParsed)
    case ParseAttrParamList =>
      if t.kind.RParen? && f.parenDepth > 0 then
        (Take(f, t).(parenDepth := f.parenDepth - 1), if f.parenDepth == 1 then OklAttrParsed else TokenProcessed)
      else if t.kind.LParen? then (Take(f, t).(parenDepth := f.parenDepth + 1), TokenProcessed)
      else if Plain(t.kind) then (Take(f, t), TokenProcessed)
      else (f, Error)
  }

  // ----- the grammar -----

  /** The tokens of a parameter list: words, numbers, strings, truth values, arithmetic, parentheses, and what nested
    * attributes and keyword arguments are written with. */
  predicate Allowed(k: Kind) {
    match k
    case Identifier => true
    case Numeric => true
    case StringLiteral => true
    case True => true
    case False => true
    case Plus => true
    case Minus => true
    case Star => true
    case Slash => true
    case LParen => true
    case RParen => true
    case At => true
    case Equal => true
    case Comma => true
    case OtherKind => false
  }

  /** Brackets open after tokens i .. j-1, starting from none. */
  function Depth(t: seq<Token>, i: nat, j: nat): int
    requires j <= |t|
  {
    if j <= i then 0
    else Depth(t, i, j - 1) + (if t[j - 1].kind.LParen? then 1 else if t[j - 1].kind.RParen? then -1 else 0)
  }

  /** Tokens i .. j-1 are `( ... )`: allowed tokens whose first bracket closes at the last one. */
  predicate Balanced(t: seq<Token>, i: nat, j: nat) {
    i < j <= |t| && t[i].kind.LParen? && Depth(t, i, j) == 0
    && Allowed(t[j - 1].kind) && OpenList(t, i, j - 1)
  }

  function Spelling(t: seq<Token>, i: nat, j: nat): string
    requires j <= |t|
  {
    if j <= i then "" else Spelling(t, i, j - 1) + Spell(t[j - 1])
  }

  function Indices(i: nat, j: nat): seq<nat>
    requires i <= j
  {
    seq(j - i, k requires 0 <= k < j - i => i + k)
  }

  /** Tokens i .. j-1 are one attribute: `@ ident` with another token behind it that is no `(`, or
    * `@ ident ( ... )`. */
  predicate IsAttribute(t: seq<Token>, i: nat, j: nat) {
    i + 2 <= j <= |t| && t[i].kind.At? && t[i + 1].kind.Identifier?
    && if j == i + 2 then j < |t| && !t[j].kind.LParen? else Balanced(t, i + 2, j)
  }

  /** The record of the attribute at i .. j-1. */
  function Record(t: seq<Token>, i: nat, j: nat): OklAttribute
    requires i + 2 <= j <= |t|
  {
    OklAttribute(t[i + 1].text, Spelling(t, i + 2, j), Indices(i, j))
  }

  function Begin(a: OklAttribute): nat {
    if a.tokIndices == [] then 0 else a.tokIndices[0]
  }

  function End(a: OklAttribute): nat {
    Begin(a) + |a.tokIndices|
  }

  predicate Genuine(t: seq<Token>, a: OklAttribute) {
    IsAttribute(t, Begin(a), End(a)) && a == Record(t, Begin(a), End(a))
  }

  /** Where the first k attributes end. */
  function EndOf(vs: seq<OklAttribute>, k: nat): nat
    requires k <= |vs|
  {
    if k == 0 then 0 else End(vs[k - 1])
  }

  predicate NoAt(t: seq<Token>, i: nat, j: nat) {
    forall k :: i <= k < j && k < |t| ==> !t[k].kind.At?
  }

  /** Genuine attributes from left to right, disjoint, no `@` between them. */
  predicate Tiled(t: seq<Token>, vs: seq<OklAttribute>) {
    forall k :: 0 <= k < |vs| ==> Placed(t, vs, k)
  }

  predicate Placed(t: seq<Token>, vs: seq<OklAttribute>, k: nat)
    requires k < |vs|
  {
    Genuine(t, vs[k]) && EndOf(vs, k) <= Begin(vs[k]) && NoAt(t, EndOf(vs, k), Begin(vs[k]))
  }

  /** An attribute that began at i and is not complete at e. */
  predicate InProgress(t: seq<Token>, i: nat, e: nat) {
    i < e <= |t| && t[i].kind.At? && (e > i + 1 ==> t[i + 1].kind.Identifier?) && (e > i + 2 ==> t[i + 2].kind.LParen?)
    && OpenList(t, i + 2, e)
  }

  predicate OpenList(t: seq<Token>, i: nat, e: nat) {
    forall k :: i < k <= e ==> Held(t, i, k)
  }

  /** Token k-1 may stand in a parameter list that began at i, and the list is still open behind it. */
  predicate Held(t: seq<Token>, i: nat, k: nat) {
    0 < k <= |t| && Allowed(t[k - 1].kind) && Depth(t, i, k) > 0
  }

  /** The token at e fits no attribute that began at i. */
  predicate BrokenAt(t: seq<Token>, i: nat, e: nat) {
    InProgress(t, i, e) && e < |t|
    && ((e == i + 1 && !t[e].kind.Identifier?) || (e > i + 2 && !Allowed(t[e].kind)))
  }

  /** The next `@` after the visited attributes is at i. */
  predicate NextAt(t: seq<Token>, vs: seq<OklAttribute>, i: nat) {
    EndOf(vs, |vs|) <= i < |t| && t[i].kind.At? && NoAt(t, EndOf(vs, |vs|), i)
  }

  predicate Continued(vs: seq<OklAttribute>, cont: seq<OklAttribute> -> bool) {
    vs != [] ==> cont(vs)
  }

  predicate KeptGoing(vs: seq<OklAttribute>, cont: seq<OklAttribute> -> bool) {
    forall k :: 0 <= k < |vs| ==> Continued(vs[..k], cont)
  }

  /** What the pass may visit and return; `cont` is the visitor's answer after each visit. */
  ghost predicate Legal(t: seq<Token>, cont: seq<OklAttribute> -> bool, vs: seq<OklAttribute>, o: Outcome) {
    Tiled(t, vs) && KeptGoing(vs, cont)
    && match o
       case NoTokens => t == []
       case Finished =>
         t != [] && Continued(vs, cont)
         && (NoAt(t, EndOf(vs, |vs|), |t|) || exists i :: NextAt(t, vs, i) && InProgress(t, i, |t|))
       case Malformed(e) => Continued(vs, cont) && exists i :: NextAt(t, vs, i) && BrokenAt(t, i, e)
       case StoppedByVisitor => !Continued(vs, cont)
  }

  // ----- what every step keeps -----

  predicate Inv(t: seq<Token>, f: Fsm, vs: seq<OklAttribute>) {
    f.cursor <= |t| && Tiled(t, vs)
    && if f.state.SearchingAttrStart? then
         f.parenDepth == 0 && f.attr == EMPTY && EndOf(vs, |vs|) <= f.cursor + 1
         && (f.cursor < EndOf(vs, |vs|) ==> f.cursor < |t| && t[f.cursor].kind.RParen?)
            && NoAt(t, EndOf(vs, |vs|), f.cursor)
       else
         |f.attr.tokIndices| > 0 && Building(t, f, Begin(f.attr)) && NextAt(t, vs, Begin(f.attr))
  }

  predicate Building(t: seq<Token>, f: Fsm, i: nat) {
    InProgress(t, i, f.cursor) && f.attr.tokIndices == Indices(i, f.cursor)
    && (f.cursor >= i + 2 ==> f.attr == Record(t, i, f.cursor))
    && f.parenDepth == Depth(t, i + 2, f.cursor)
    && (f.state.ParseAttrName? ==> f.cursor == i + 1 && f.attr.name == f.attr.params == "")
    && (f.state.SearchingAttrParamList? ==> f.cursor == i + 2)
    && (f.state.ParseAttrParamList? ==> f.cursor > i + 2)
  }

  function Advance(f: Fsm): Fsm {
    f.(cursor := f.cursor + 1)
  }

  /** Back to searching; the cursor and the depth stay as they are. */
  function Reset(f: Fsm): Fsm {
    f.(attr := EMPTY, state := SearchingAttrStart)
  }

  lemma {:induction false} IndicesSnoc(i: nat, j: nat)
    requires i <= j
    ensures Indices(i, j) + [j] == Indices(i, j + 1)
  {
  }

  lemma {:induction false} StepKeepsSearching(t: seq<Token>, f: Fsm, vs: seq<OklAttribute>)
    requires Inv(t, f, vs) && f.state.SearchingAttrStart? && f.cursor < |t|
    ensures Step(f, t[f.cursor]).1.TokenProcessed? && Inv(t, Advance(Step(f, t[f.cursor]).0), vs)
  {
    var g := Advance(Step(f, t[f.cursor]).0);
    if t[f.cursor].kind.At? {
      assert g.attr.tokIndices == [f.cursor] == Indices(f.cursor, f.cursor + 1);
    }
  }

  /** A token that the machine takes keeps the attribute in progress. */
  lemma {:induction false} StepKeepsBuilding(t: seq<Token>, f: Fsm, i: nat)
    requires !f.state.SearchingAttrStart? && Building(t, f, i) && f.cursor < |t|
             && Step(f, t[f.cursor]).1.TokenProcessed?
    ensures !Step(f, t[f.cursor]).0.state.SearchingAttrStart? && Building(t, Advance(Step(f, t[f.cursor]).0), i)
  {
    IndicesSnoc(i, f.cursor);
    assert f.state.ParseAttrParamList? ==> Held(t, i + 2, f.cursor);
    var g := Advance(Step(f, t[f.cursor]).0);
    assert g.attr.tokIndices == Indices(i, g.cursor);
    assert f.cursor == i + 2 ==> Spelling(t, i + 2, f.cursor) == "" && Depth(t, i + 2, f.cursor) == 0;
    assert f.cursor >= i + 2 ==> Held(t, i + 2, f.cursor + 1);
  }

  /** A completed attribute is one of the grammar, and the depth is back at zero. */
  lemma {:induction false} CompleteIsAttribute(t: seq<Token>, f: Fsm, i: nat)
    requires !f.state.SearchingAttrStart? && Building(t, f, i) && f.cursor < |t|
             && Step(f, t[f.cursor]).1.OklAttrParsed?
    ensures var (g, _) := Step(f, t[f.cursor]);
            g.parenDepth == 0 && g.cursor == f.cursor && Genuine(t, g.attr) && Begin(g.attr) == i
            && (End(g.attr) == f.cursor || (End(g.attr) == f.cursor + 1 && t[f.cursor].kind.RParen?))
  {
    IndicesSnoc(i, f.cursor);
    var g := Step(f, t[f.cursor]).0;
    if f.state.ParseAttrParamList? {
      assert g.attr == Record(t, i, f.cursor + 1);
    }
  }

  lemma {:induction false} ErrorIsBroken(t: seq<Token>, f: Fsm, i: nat)
    requires !f.state.SearchingAttrStart? && Building(t, f, i) && f.cursor < |t| && Step(f, t[f.cursor]).1.Error?
    ensures BrokenAt(t, i, f.cursor)
  {
    assert f.state.ParseAttrParamList? ==> Held(t, i + 2, f.cursor);
  }

  lemma {:induction false} TiledSnoc(t: seq<Token>, vs: seq<OklAttribute>, a: OklAttribute)
    requires Tiled(t, vs) && Genuine(t, a) && NextAt(t, vs, Begin(a))
    ensures Tiled(t, vs + [a])
  {
    var ws := vs + [a];
    forall k | 0 <= k < |ws|
      ensures Placed(t, ws, k)
    {
      assert EndOf(ws, k) == EndOf(vs, k);
      if k < |vs| { assert Placed(t, vs, k); }
    }
  }

  lemma {:induction false} TakenKeeps(t: seq<Token>, f: Fsm, vs: seq<OklAttribute>)
    requires Inv(t, f, vs) && f.cursor < |t| && Step(f, t[f.cursor]).1.TokenProcessed?
    ensures Inv(t, Advance(Step(f, t[f.cursor]).0), vs)
  {
    if f.state.SearchingAttrStart? {
      StepKeepsSearching(t, f, vs);
    } else {
      StepKeepsBuilding(t, f, Begin(f.attr));
      assert Begin(Step(f, t[f.cursor]).0.attr) == Begin(f.attr);
    }
  }

  lemma {:induction false} CompletedKeeps(t: seq<Token>, f: Fsm, vs: seq<OklAttribute>)
    requires Inv(t, f, vs) && f.cursor < |t| && Step(f, t[f.cursor]).1.OklAttrParsed?
    ensures !f.state.SearchingAttrStart?
    ensures var g := Step(f, t[f.cursor]).0; Inv(t, Reset(g), vs + [g.attr])
  {
    var g := Step(f, t[f.cursor]).0;
    CompleteIsAttribute(t, f, Begin(f.attr));
    TiledSnoc(t, vs, g.attr);
    assert EndOf(vs + [g.attr], |vs| + 1) == End(g.attr);
  }

  lemma {:induction false} ErrorIsLegal(t: seq<Token>, f: Fsm, vs: seq<OklAttribute>, cont: seq<OklAttribute> -> bool)
    requires Inv(t, f, vs) && f.cursor < |t| && Step(f, t[f.cursor]).1.Error?
    requires KeptGoing(vs, cont) && Continued(vs, cont)
    ensures Legal(t, cont, vs, Malformed(f.cursor))
  {
    ErrorIsBroken(t, f, Begin(f.attr));
  }

  lemma {:induction false} EndIsLegal(t: seq<Token>, f: Fsm, vs: seq<OklAttribute>, cont: seq<OklAttribute> -> bool)
    requires t != [] && Inv(t, f, vs) && f.cursor == |t| && KeptGoing(vs, cont) && Continued(vs, cont)
    ensures Legal(t, cont, vs, Finished)
  {
    assert f.state.SearchingAttrStart? || (NextAt(t, vs, Begin(f.attr)) && InProgress(t, Begin(f.attr), |t|));
  }

  lemma {:induction false} KeptGoingSnoc(vs: seq<OklAttribute>, a: OklAttribute, cont: seq<OklAttribute> -> bool)
    requires KeptGoing(vs, cont) && Continued(vs, cont)
    ensures KeptGoing(vs + [a], cont)
  {
    forall k | 0 <= k < |vs| + 1 ensures Continued((vs + [a])[..k], cont) {
      assert (vs + [a])[..k] == if k == |vs| then vs else vs[..k];
    }
  }

  /** The invariant of the pass: the machine's, and the visitor has not said stop. */
  predicate Going(t: seq<Token>, f: Fsm, vs: seq<OklAttribute>, cont: seq<OklAttribute> -> bool) {
    Inv(t, f, vs) && KeptGoing(vs, cont) && Continued(vs, cont)
  }

  lemma {:induction false} OpenInList(t: seq<Token>, f: Fsm, vs: seq<OklAttribute>)
    requires Inv(t, f, vs)
    ensures f.state.ParseAttrParamList? ==> f.parenDepth > 0
  {
    assert f.state.ParseAttrParamList? ==> Held(t, Begin(f.attr) + 2, f.cursor);
  }

  lemma {:induction false} TakenGoesOn(t: seq<Token>, f: Fsm, vs: seq<OklAttribute>, cont: seq<OklAttribute> -> bool)
    requires Going(t, f, vs, cont) && f.cursor < |t| && Step(f, t[f.cursor]).1.TokenProcessed?
    ensures Going(t, Advance(Step(f, t[f.cursor]).0), vs, cont)
  {
    TakenKeeps(t, f, vs);
  }

  /** A completed attribute is visited; the pass goes on or is told to stop. */
  lemma {:induction false} CompletedGoesOn(t: seq<Token>, f: Fsm, vs: seq<OklAttribute>,
                                           cont: seq<OklAttribute> -> bool)
    requires Going(t, f, vs, cont) && f.cursor < |t| && Step(f, t[f.cursor]).1.OklAttrParsed?
    ensures !f.state.SearchingAttrStart?
    ensures var g := Step(f, t[f.cursor]).0; var ws := vs + [g.attr];
            g.cursor == f.cursor && if cont(ws) then Going(t, Reset(g), ws, cont)
              else Legal(t, cont, ws, StoppedByVisitor)
  {
    CompletedKeeps(t, f, vs);
    KeptGoingSnoc(vs, Step(f, t[f.cursor]).0.attr, cont);
  }

  // ----- the machine -----

  class OklAttributeParserFsm {
    var tokenCursor: nat
    var state: State
    var attr: OklAttribute
    var parenDepth: nat

    constructor ()
      ensures Snapshot() == Fsm(0, SearchingAttrStart, EMPTY, 0)
    {
      tokenCursor, state, attr, parenDepth := 0, SearchingAttrStart, EMPTY, 0;
    }

    function Snapshot(): Fsm
      reads this
    {
      Fsm(tokenCursor, state, attr, parenDepth)
    }

    method Remember(spelling: string)
      modifies this`attr
      ensures attr == old(attr).(params := old(attr).params + spelling,
                                 tokIndices := old(attr).tokIndices + [tokenCursor])
    {
      attr := attr.(tokIndices := attr.tokIndices + [tokenCursor]);
      attr := attr.(params := attr.params + spelling);
    }

    method ProcessToken(token: Token) returns (status: Status)
      requires state.ParseAttrParamList? ==> parenDepth > 0
      modifies this
      ensures (Snapshot(), status) == Step(old(Snapshot()), token)
    {
      match state {
        case SearchingAttrStart =>
          if token.kind.At? {
            attr := attr.(tokIndices := attr.tokIndices + [tokenCursor]);
            state := ParseAttrName;
          }
        case ParseAttrName =>
          if !token.kind.Identifier? {
            return Error;
          }
          attr := attr.(name := token.text);
          attr := attr.(tokIndices := attr.tokIndices + [tokenCursor]);
          state := SearchingAttrParamList;
        case SearchingAttrParamList =>
          if !token.kind.LParen? {
            return OklAttrParsed;
          }
          Remember(token.text);
          parenDepth := parenDepth + 1;
          state := ParseAttrParamList;
        case ParseAttrParamList =>
          if token.kind.RParen? {
            Remember(token.text);
            parenDepth := parenDepth - 1;
            if parenDepth == 0 {
              return OklAttrParsed;
            }
          } else if token.kind.LParen? {
            Remember(token.text);
            parenDepth := parenDepth + 1;
          } else if Plain(token.kind) {
            Remember(Spell(token));
          } else {
            return Error;
          }
      }
      return TokenProcessed;
    }

    method ResetAttrState()
      modifies this
      ensures Snapshot() == Reset(old(Snapshot()))
    {
      attr := EMPTY;
      state := SearchingAttrStart;
    }
  }

  /** The pass over a file. A completed attribute does not move the cursor, so what falls is the tokens
    * left and then whether an attribute is open. */
  method VisitOklAttributes(t: seq<Token>, cont: seq<OklAttribute> -> bool)
    returns (visited: seq<OklAttribute>, o: Outcome)
    ensures Legal(t, cont, visited, o)
    ensures o == NoTokens <==> t == []
  {
    visited := [];
    if t == [] {
      return visited, NoTokens;
    }
    var fsm := new OklAttributeParserFsm();
    while true
      invariant Going(t, fsm.Snapshot(), visited, cont)
      decreases |t| - fsm.tokenCursor, if fsm.state.SearchingAttrStart? then 0 else 1
    {
      ghost var f := fsm.Snapshot();
      if fsm.tokenCursor >= |t| {
        EndIsLegal(t, f, visited, cont);
        return visited, Finished;
      }
      OpenInList(t, f, visited);
      var status := fsm.ProcessToken(t[fsm.tokenCursor]);
      if status.Error? {
        ErrorIsLegal(t, f, visited, cont);
        return visited, Malformed(fsm.tokenCursor);
      }
      if status.TokenProcessed? {
        TakenGoesOn(t, f, visited, cont);
        fsm.tokenCursor := fsm.tokenCursor + 1;
        assert fsm.Snapshot() == Advance(Step(f, t[f.cursor]).0);
        continue;
      }
      CompletedGoesOn(t, f, visited, cont);
      visited := visited + [fsm.attr];
      if !cont(visited) {
        return visited, StoppedByVisitor;
      }
      fsm.ResetAttrState();
    }
  }

  // ----- the grammar and the visitor leave no choice -----

  /** Where an attribute that began at i can grow no further. */
  predicate Halts(t: seq<Token>, i: nat, e: nat) {
    InProgress(t, i, e) && !InProgress(t, i, e + 1)
  }

  lemma {:induction false} HaltsOnce(t: seq<Token>, i: nat, d: nat, e: nat)
    requires Halts(t, i, d) && Halts(t, i, e)
    ensures d == e
  {
  }

  /** The last place where a complete attribute was still in progress. */
  function LastOpen(i: nat, j: nat): nat {
    if j <= i + 2 then j else j - 1
  }

  lemma {:induction false} AttributeHalts(t: seq<Token>, i: nat, j: nat)
    requires IsAttribute(t, i, j)
    ensures Halts(t, i, LastOpen(i, j))
    ensures LastOpen(i, j) < |t| && (j > i + 2 ==> LastOpen(i, j) > i + 2)
    ensures !BrokenAt(t, i, LastOpen(i, j))
  {
    if j > i + 2 {
      assert Depth(t, i + 2, i + 2) == 0;
      assert Depth(t, i + 2, i + 3) == 1;
      assert !Held(t, i + 2, j);
    }
  }

  lemma {:induction false} SameFirstAt(t: seq<Token>, vs: seq<OklAttribute>, i: nat, j: nat)
    requires NextAt(t, vs, i) && NextAt(t, vs, j)
    ensures i == j
  {
  }

  lemma {:induction false} OneAttributeAt(t: seq<Token>, i: nat, j: nat, k: nat)
    requires IsAttribute(t, i, j) && IsAttribute(t, i, k)
    ensures j == k
  {
    AttributeHalts(t, i, j);
    AttributeHalts(t, i, k);
    HaltsOnce(t, i, LastOpen(i, j), LastOpen(i, k));
  }

  lemma {:induction false} NextOfTiled(t: seq<Token>, vs: seq<OklAttribute>, k: nat)
    requires Tiled(t, vs) && k < |vs|
    ensures NextAt(t, vs[..k], Begin(vs[k])) && Genuine(t, vs[k])
  {
    assert EndOf(vs[..k], k) == EndOf(vs, k);
    assert Placed(t, vs, k);
  }

  lemma {:induction false} SameNext(t: seq<Token>, vs: seq<OklAttribute>, a: OklAttribute, b: OklAttribute)
    requires NextAt(t, vs, Begin(a)) && NextAt(t, vs, Begin(b)) && Genuine(t, a) && Genuine(t, b)
    ensures a == b
  {
    SameFirstAt(t, vs, Begin(a), Begin(b));
    OneAttributeAt(t, Begin(a), End(a), End(b));
  }

  lemma {:induction false} SamePrefix(t: seq<Token>, vs: seq<OklAttribute>, ws: seq<OklAttribute>, k: nat)
    requires Tiled(t, vs) && Tiled(t, ws) && k <= |vs| <= |ws|
    ensures vs[..k] == ws[..k]
  {
    if k > 0 {
      SamePrefix(t, vs, ws, k - 1);
      NextOfTiled(t, vs, k - 1);
      NextOfTiled(t, ws, k - 1);
      SameNext(t, vs[..k - 1], vs[k - 1], ws[k - 1]);
      PrefixSnoc(vs, k);
      PrefixSnoc(ws, k);
    }
  }

  lemma {:induction false} PrefixSnoc<T>(s: seq<T>, k: nat)
    requires 0 < k <= |s|
    ensures s[..k] == s[..k - 1] + [s[k - 1]]
  {
  }

  lemma {:induction false} BrokenHalts(t: seq<Token>, i: nat, e: nat)
    requires BrokenAt(t, i, e)
    ensures Halts(t, i, e)
  {
    assert e > i + 2 ==> !Held(t, i + 2, e + 1);
  }

  /** An attribute that halts breaks nowhere else, and does not go on to the end. */
  lemma {:induction false} HaltsHere(t: seq<Token>, i: nat, e: nat, d: nat)
    requires Halts(t, i, e)
    ensures BrokenAt(t, i, d) ==> d == e
    ensures e < d <= |t| ==> !InProgress(t, i, d)
  {
    if BrokenAt(t, i, d) {
      BrokenHalts(t, i, d);
      HaltsOnce(t, i, e, d);
    }
  }

  /** A legal pass does not end in front of an attribute that the visitor lets it go on to. */
  lemma {:induction false} GoesOn(t: seq<Token>, cont: seq<OklAttribute> -> bool, vs: seq<OklAttribute>, a: Outcome,
                                  next: OklAttribute)
    requires Continued(vs, cont) && Genuine(t, next) && NextAt(t, vs, Begin(next))
    ensures !Legal(t, cont, vs, a)
  {
    var b, e := Begin(next), LastOpen(Begin(next), End(next));
    AttributeHalts(t, b, End(next));
    forall i | NextAt(t, vs, i) ensures i == b { SameFirstAt(t, vs, i, b); }
    forall d: nat ensures (BrokenAt(t, b, d) ==> d == e) && (e < d <= |t| ==> !InProgress(t, b, d)) {
      HaltsHere(t, b, e, d);
    }
  }

  /** No legal pass stops where another goes on to a further attribute. */
  lemma {:induction false} NoneShorter(t: seq<Token>, cont: seq<OklAttribute> -> bool, vs: seq<OklAttribute>,
                                       a: Outcome, ws: seq<OklAttribute>, b: Outcome)
    requires Legal(t, cont, vs, a) && Legal(t, cont, ws, b) && |vs| <= |ws|
    ensures |vs| == |ws|
  {
    SamePrefix(t, vs, ws, |vs|);
    assert vs[..|vs|] == vs;
    if |vs| < |ws| {
      NextOfTiled(t, ws, |vs|);
      assert Continued(ws[..|vs|], cont);
      GoesOn(t, cont, vs, a, ws[|vs|]);
    }
  }

  /** An attribute behind those that the visitor lets pass is visited next. */
  lemma {:induction false} NextIsVisited(t: seq<Token>, cont: seq<OklAttribute> -> bool, vs: seq<OklAttribute>, i: nat,
                                         j: nat, ws: seq<OklAttribute>, o: Outcome)
    requires Tiled(t, vs) && KeptGoing(vs, cont) && Continued(vs, cont) && NextAt(t, vs, i) && IsAttribute(t, i, j)
    requires Legal(t, cont, ws, o)
    ensures |ws| > |vs| && ws[..|vs|] == vs && ws[|vs|] == Record(t, i, j)
  {
    var a := Record(t, i, j);
    assert Begin(a) == i && End(a) == j && Genuine(t, a);
    if |ws| < |vs| {
      SamePrefix(t, ws, vs, |ws|);
      assert ws[..|ws|] == ws;
      NextOfTiled(t, vs, |ws|);
      assert Continued(vs[..|ws|], cont);
      GoesOn(t, cont, ws, o, vs[|ws|]);
    } else {
      SamePrefix(t, vs, ws, |vs|);
      assert vs[..|vs|] == vs;
      if |ws| == |vs| {
        assert ws[..|ws|] == ws;
        GoesOn(t, cont, ws, o, a);
      } else {
        NextOfTiled(t, ws, |vs|);
        SameNext(t, vs, a, ws[|vs|]);
      }
    }
  }

  lemma {:induction false} SameOutcome(t: seq<Token>, cont: seq<OklAttribute> -> bool, vs: seq<OklAttribute>,
                                       a: Outcome, b: Outcome)
    requires Legal(t, cont, vs, a) && Legal(t, cont, vs, b) && a.Malformed?
    ensures a == b
  {
    var i :| NextAt(t, vs, i) && BrokenAt(t, i, a.at);
    BrokenHalts(t, i, a.at);
    if b.Malformed? {
      var j :| NextAt(t, vs, j) && BrokenAt(t, j, b.at);
      SameFirstAt(t, vs, i, j);
      BrokenHalts(t, i, b.at);
      HaltsOnce(t, i, a.at, b.at);
    } else if exists j :: NextAt(t, vs, j) && InProgress(t, j, |t|) {
      var j :| NextAt(t, vs, j) && InProgress(t, j, |t|);
      SameFirstAt(t, vs, i, j);
      HaltsOnce(t, i, a.at, |t|);
    }
  }

  /** The tokens and the visitor's answers determine what is visited and what is returned. */
  lemma {:induction false} LegalIsUnique(t: seq<Token>, cont: seq<OklAttribute> -> bool, vs: seq<OklAttribute>,
                                         a: Outcome, ws: seq<OklAttribute>, b: Outcome)
    requires t != [] && Legal(t, cont, vs, a) && Legal(t, cont, ws, b)
    ensures vs == ws && a == b
  {
    if |vs| <= |ws| { NoneShorter(t, cont, vs, a, ws, b); } else { NoneShorter(t, cont, ws, b, vs, a); }
    SamePrefix(t, vs, ws, |vs|);
    assert vs[..|vs|] == vs && ws[..|vs|] == ws;
    if a.Malformed? { SameOutcome(t, cont, vs, a, b); } else if b.Malformed? { SameOutcome(t, cont, vs, b, a); }
  }

  // ----- attributes cut off by the end of the file -----

  /** Something in the file begins like an attribute and is neither visited nor reported. */
  predicate Drops(t: seq<Token>, vs: seq<OklAttribute>) {
    exists k :: EndOf(vs, |vs|) <= k < |t| && t[k].kind.At?
  }

  /** From i on the file is a lone `@`, a bare `@ ident`, or `@ ident (` with a list still open at the end. */
  predicate CutOff(t: seq<Token>, i: nat) {
    i < |t| && t[i].kind.At?
    && (i + 1 == |t|
        || (t[i + 1].kind.Identifier? && (i + 2 == |t| || (t[i + 2].kind.LParen? && OpenList(t, i + 2, |t|)))))
  }

  /** A pass that ends well has dropped something exactly when the first `@` it left over is cut off by
    * the end of the file. */
  lemma {:induction false} DroppedExactly(t: seq<Token>, cont: seq<OklAttribute> -> bool, vs: seq<OklAttribute>)
    requires Legal(t, cont, vs, Finished)
    ensures Drops(t, vs) <==> exists i :: NextAt(t, vs, i) && CutOff(t, i)
  {
    if Drops(t, vs) {
      var i :| NextAt(t, vs, i) && InProgress(t, i, |t|);
      assert CutOff(t, i);
    }
  }

  /** The tokens of ws are read and kept, and the next `@` behind them is cut off by the end of the file. */
  ghost predicate CutOffBehind(t: seq<Token>, cont: seq<OklAttribute> -> bool, ws: seq<OklAttribute>, i: nat) {
    Tiled(t, ws) && KeptGoing(ws, cont) && Continued(ws, cont) && NextAt(t, ws, i) && CutOff(t, i)
  }

  /** So, from the tokens alone: the pass succeeds and drops something exactly if somewhere behind attributes that the
    * visitor accepts the next `@` is cut off. */
  lemma {:induction false} DropsFromTokens(t: seq<Token>, cont: seq<OklAttribute> -> bool, vs: seq<OklAttribute>,
                                           o: Outcome)
    requires Legal(t, cont, vs, o)
    ensures o == Finished && Drops(t, vs) <==> exists ws, i :: CutOffBehind(t, cont, ws, i)
  {
    if o == Finished && Drops(t, vs) {
      DroppedExactly(t, cont, vs);
      var i :| NextAt(t, vs, i) && CutOff(t, i);
      assert CutOffBehind(t, cont, vs, i);
    }
    if ws, i :| CutOffBehind(t, cont, ws, i) {
      assert InProgress(t, i, |t|);
      assert Legal(t, cont, ws, Finished);
      LegalIsUnique(t, cont, vs, o, ws, Finished);
    }
  }

  /** In a pass whose visitor never stops it, every `@` outside the visited attributes is cut off by the end of the
    * file, or the pass reports the token behind which it broke. */
  lemma {:induction false} LeftOverIsCutOffOrReported(t: seq<Token>, cont: seq<OklAttribute> -> bool,
                                                      vs: seq<OklAttribute>, o: Outcome)
    requires Legal(t, cont, vs, o) && Continued(vs, cont) && Drops(t, vs)
    ensures exists i :: NextAt(t, vs, i) && if o.Malformed? then BrokenAt(t, i, o.at) else o.Finished? && CutOff(t, i)
  {
    if o.Finished? {
      DroppedExactly(t, cont, vs);
      var i :| NextAt(t, vs, i) && CutOff(t, i);
      assert NextAt(t, vs, i);
    } else {
      var i :| NextAt(t, vs, i) && BrokenAt(t, i, o.at);
      assert NextAt(t, vs, i);
    }
  }

  lemma {:induction false} DepthAppend(t: seq<Token>, s: seq<Token>, i: nat, j: nat)
    requires j <= |t|
    ensures Depth(t + s, i, j) == Depth(t, i, j) && Spelling(t + s, i, j) == Spelling(t, i, j)
  {
    if j > i { DepthAppend(t, s, i, j - 1); }
  }

  lemma {:induction false} DepthShift(t: seq<Token>, s: seq<Token>, i: nat, j: nat)
    requires j <= |s|
    ensures Depth(t + s, |t| + i, |t| + j) == Depth(s, i, j)
  {
    if j > i { DepthShift(t, s, i, j - 1); }
  }

  lemma {:induction false} ListAppend(t: seq<Token>, s: seq<Token>, i: nat, j: nat)
    requires OpenList(t, i, j) && j <= |t|
    ensures OpenList(t + s, i, j)
  {
    forall k | i < k <= j ensures Held(t + s, i, k) {
      assert Held(t, i, k);
      DepthAppend(t, s, i, k);
    }
  }

  /** What follows a file does not change the attributes in it. */
  lemma {:induction false} GenuineAppend(t: seq<Token>, s: seq<Token>, a: OklAttribute)
    requires Genuine(t, a)
    ensures Genuine(t + s, a)
  {
    var i, j := Begin(a), End(a);
    DepthAppend(t, s, i + 2, j);
    if j > i + 2 { ListAppend(t, s, i + 2, j - 1); }
  }

  lemma {:induction false} TiledAppend(t: seq<Token>, s: seq<Token>, vs: seq<OklAttribute>)
    requires Tiled(t, vs)
    ensures Tiled(t + s, vs)
  {
    forall k | 0 <= k < |vs| ensures Placed(t + s, vs, k) {
      assert Placed(t, vs, k);
      GenuineAppend(t, s, vs[k]);
    }
  }

  lemma {:induction false} EndInFile(t: seq<Token>, vs: seq<OklAttribute>)
    requires Tiled(t, vs)
    ensures EndOf(vs, |vs|) <= |t|
  {
    if vs != [] { assert Placed(t, vs, |vs| - 1); }
  }

  lemma {:induction false} CutOffShift(t: seq<Token>, s: seq<Token>)
    requires CutOff(s, 0)
    ensures InProgress(t + s, |t|, |t + s|)
  {
    var u := t + s;
    assert u[|t|] == s[0];
    if |s| > 1 { assert u[|t| + 1] == s[1]; }
    if |s| > 2 { assert u[|t| + 2] == s[2]; }
    var list := |t| + 2;
    forall k | list < k <= |u| ensures Held(u, list, k) {
      assert Held(s, 2, k - |t|);
      DepthShift(t, s, 2, k - |t|);
      assert u[k - 1] == s[k - |t| - 1];
    }
  }

  /** Behind any file that is read to its end with nothing left over, a cut-off attribute is dropped: the pass
    * visits what it visited without it and succeeds. */
  lemma {:induction false} CutOffIsDropped(t: seq<Token>, s: seq<Token>, cont: seq<OklAttribute> -> bool,
                                           vs: seq<OklAttribute>, ws: seq<OklAttribute>, o: Outcome)
    requires Tiled(t, vs) && KeptGoing(vs, cont) && Continued(vs, cont) && !Drops(t, vs)
    requires CutOff(s, 0) && Legal(t + s, cont, ws, o)
    ensures ws == vs && o == Finished && Drops(t + s, ws)
  {
    var u := t + s;
    TiledAppend(t, s, vs);
    EndInFile(t, vs);
    CutOffShift(t, s);
    assert u[|t|] == s[0];
    assert NextAt(u, vs, |t|);
    assert Legal(u, cont, vs, Finished);
    LegalIsUnique(u, cont, ws, o, vs, Finished);
  }

  /** A file that ends in a bare attribute: a cut-off `@` behind it completes that one, and is then dropped itself
    * unless the visitor stops. */
  lemma {:induction false} CutOffCompletes(t: seq<Token>, s: seq<Token>, cont: seq<OklAttribute> -> bool,
                                           vs: seq<OklAttribute>, i: nat, ws: seq<OklAttribute>, o: Outcome)
    requires Tiled(t, vs) && KeptGoing(vs, cont) && Continued(vs, cont)
    requires NextAt(t, vs, i) && CutOff(t, i) && i + 2 == |t|
    requires CutOff(s, 0) && Legal(t + s, cont, ws, o)
    ensures ws == vs + [Record(t, i, |t|)]
    ensures if cont(ws) then o == Finished && Drops(t + s, ws) else o == StoppedByVisitor
  {
    var u, a := t + s, Record(t, i, |t|);
    var us := vs + [a];
    TiledAppend(t, s, vs);
    assert u[i] == t[i] && u[i + 1] == t[i + 1] && u[|t|] == s[0];
    assert IsAttribute(u, i, |t|) && a == Record(u, i, |t|) && Begin(a) == i && End(a) == |t|;
    TiledSnoc(u, vs, a);
    forall k | 0 <= k < |us| ensures Continued(us[..k], cont) {
      assert us[..k] == vs[..k];
    }
    if cont(us) {
      CutOffShift(t, s);
      assert NextAt(u, us, |t|);
      assert Legal(u, cont, us, Finished);
      LegalIsUnique(u, cont, ws, o, us, Finished);
    } else {
      assert Legal(u, cont, us, StoppedByVisitor);
      LegalIsUnique(u, cont, ws, o, us, StoppedByVisitor);
    }
  }

  /** The three shapes that are dropped, after any such file. */
  lemma {:induction false} CutOffShapes(name: string)
    ensures CutOff([Token(At, "@")], 0)
    ensures CutOff([Token(At, "@"), Token(Identifier, name)], 0)
    ensures CutOff([Token(At, "@"), Token(Identifier, name), Token(LParen, "(")], 0)
  {
    var s := [Token(At, "@"), Token(Identifier, name), Token(LParen, "(")];
    assert Depth(s, 2, 2) == 0;
    assert Held(s, 2, 3);
  }
}
