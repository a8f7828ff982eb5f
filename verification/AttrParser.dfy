/** The recursive-descent reader of OKL attributes, on tokens: `@name`, `@name(...)` with positional
  * and keyword arguments, each a raw token run or a nested attribute.
  */
module AttrParser {
  import opened LoopHeader

  datatype Token = At | Ident(name: string) | LParen | RParen | LSquare | RSquare | LBrace | RBrace | Comma | Equal
                 | Other(text: string) | PastEnd

  datatype Arg = Raw(tokens: seq<Token>) | Nested(attr: Parsed)

  datatype Parsed = Parsed(name: string, args: seq<Arg>, kwargs: map<string, Arg>)

  const PREFIX := "okl_"

  // ----- bracket counters, sixteen bits each -----

  datatype Braces = Braces(paren: nat, bracket: nat, brace: nat)

  const NONE := Braces(0, 0, 0)

  function Up(n: nat): nat {
    (n + 1) % 0x1_0000
  }

  function Down(n: nat): nat {
    (n + 0xFFFF) % 0x1_0000
  }

  function Count(c: Braces, t: Token): Braces {
    match t
    case LParen => c.(paren := Up(c.paren))
    case RParen => c.(paren := Down(c.paren))
    case LSquare => c.(bracket := Up(c.bracket))
    case RSquare => c.(bracket := Down(c.bracket))
    case LBrace => c.(brace := Up(c.brace))
    case RBrace => c.(brace := Down(c.brace))
    case _ => c
  }

  // ----- what the reader computes, on the tokens that remain -----

  /** The token under the cursor; the reader looks at it even behind the last token. */
  function Peek(s: seq<Token>): Token {
    if s == [] then PastEnd else s[0]
  }

  predicate Stops(t: Token) {
    t.Comma? || t.RParen?
  }

  /** How many tokens a raw argument takes: at least one, up to a `,` or `)` outside all brackets. */
  function RawLength(s: seq<Token>, c: Braces): (n: nat)
    ensures n <= |s| && (s != [] ==> n > 0)
  {
    if s == [] then 0
    else if Stops(Peek(s[1..])) && Count(c, s[0]) == NONE then 1
    else 1 + RawLength(s[1..], Count(c, s[0]))
  }

  predicate StartsAttr(s: seq<Token>) {
    |s| > 1 && s[0].At? && s[1].Ident?
  }

  predicate StartsKeyword(s: seq<Token>) {
    |s| > 1 && s[0].Ident? && s[1].Equal?
  }

  function ReadArg(s: seq<Token>): (r: (Option<Arg>, seq<Token>))
    ensures r.0.Some? ==> |r.1| < |s|
    ensures r.0.None? ==> r.1 == s == []
    decreases |s|, 1
  {
    if s == [] then (None, s)
    else if StartsAttr(s) then
      var r := ReadAttr(s[2..], PREFIX + s[1].name);
      (Some(Nested(r.0)), r.1)
    else
      var n := RawLength(s, NONE);
      (Some(Raw(s[..n])), s[n..])
  }

  function ReadAttr(s: seq<Token>, name: string): (r: (Parsed, seq<Token>))
    ensures |r.1| <= |s|
    decreases |s|, 0
  {
    if !Peek(s).LParen? then (Parsed(name, [], map[]), s) else ReadItems(s[1..], Parsed(name, [], map[]))
  }

  function ReadItems(s: seq<Token>, acc: Parsed): (r: (Parsed, seq<Token>))
    ensures |r.1| <= |s|
    decreases |s|, 3
  {
    if s == [] then (acc, s)
    else if s[0].RParen? then (acc, s[1..])
    else
      var r := ReadItem(s, acc);
      if r.0.None? then (acc, r.1)
      else if Peek(r.1).Comma? then ReadItems(r.1[1..], r.0.value)
      else if !Peek(r.1).RParen? then (r.0.value, r.1)
      else ReadItems(r.1, r.0.value)
  }

  /** One positional or keyword argument, added to those read so far; None when the tokens end first. */
  function ReadItem(s: seq<Token>, acc: Parsed): (r: (Option<Parsed>, seq<Token>))
    requires s != []
    ensures |r.1| < |s|
    decreases |s|, 2
  {
    if StartsKeyword(s) then
      var v := ReadArg(s[2..]);
      (if v.0.None? then None else Some(Bind(acc, s[0].name, v.0.value)), v.1)
    else
      var v := ReadArg(s);
      (if v.0.None? then None else Some(Append(acc, v.0.value)), v.1)
  }

  function Append(p: Parsed, a: Arg): Parsed {
    p.(args := p.args + [a])
  }

  function Bind(p: Parsed, key: string, a: Arg): Parsed {
    p.(kwargs := p.kwargs[key := a])
  }

  /** One more token of a raw argument. */
  lemma {:induction false} TakeOne(s: seq<Token>, n: nat, c: Braces)
    requires n < |s|
    ensures var c' := Count(c, s[n]);
            RawLength(s[n..], c) == 1 + if n + 1 < |s| && Stops(s[n + 1]) && c' == NONE then 0
                else RawLength(s[n + 1..], c')
    ensures s[..n] + [s[n]] == s[..n + 1]
  {
    assert s[n..][1..] == s[n + 1..];
  }

  // ----- the reader -----

  class AttrParamParser {
    const toks: seq<Token>
    var pos: nat

    constructor (toks: seq<Token>)
      ensures Valid() && this.toks == toks && Rest() == toks
    {
      this.toks := toks;
      pos := 0;
    }

    ghost predicate Valid()
      reads this
    {
      pos <= |toks|
    }

    ghost function Rest(): seq<Token>
      reads this
      requires Valid()
    {
      toks[pos..]
    }

    method PeekToken() returns (t: Token)
      requires Valid()
      ensures t == Peek(Rest())
    {
      t := if pos == |toks| then PastEnd else toks[pos];
    }

    method ParseArg() returns (r: Option<Arg>)
      requires Valid()
      modifies this
      ensures Valid() && old(pos) <= pos && (r.Some? ==> old(pos) < pos)
      ensures (r, Rest()) == ReadArg(old(Rest()))
      decreases |toks| - pos, 2
    {
      if pos == |toks| {
        return None;
      }
      if toks[pos].At? && pos + 1 < |toks| && toks[pos + 1].Ident? {
        r := ParseNestedAttr();
        return;
      }
      var argToks := ParseRaw();
      return Some(Raw(argToks));
    }

    method ParseRaw() returns (argToks: seq<Token>)
      requires Valid() && pos < |toks|
      modifies this
      ensures Valid() && old(pos) < pos
      ensures var n := RawLength(old(Rest()), NONE); argToks == old(Rest())[..n] && Rest() == old(Rest())[n..]
    {
      ghost var s, n := Rest(), 0;
      argToks := [];
      var cnt := NONE;
      while pos < |toks|
        invariant n <= |s| && pos == old(pos) + n && argToks == s[..n] && (n == 0 ==> cnt == NONE)
        invariant RawLength(s, NONE) == n + RawLength(s[n..], cnt)
      {
        TakeOne(s, n, cnt);
        argToks := argToks + [toks[pos]];
        cnt := Count(cnt, toks[pos]);
        pos := pos + 1;
        n := n + 1;
        if pos < |toks| && Stops(toks[pos]) && cnt == NONE {
          break;
        }
      }
      assert s[n..] == Rest();
    }

    method ParseNestedAttr() returns (r: Option<Arg>)
      requires Valid() && StartsAttr(Rest())
      modifies this
      ensures Valid() && old(pos) < pos && r.Some?
      ensures (r, Rest()) == ReadArg(old(Rest()))
      decreases |toks| - pos, 1
    {
      ghost var s := Rest();
      pos := pos + 1;
      var name := PREFIX + toks[pos].name;
      pos := pos + 1;
      assert Rest() == s[2..];
      var attr := ParseAttr(name);
      return Some(Nested(attr));
    }

    method ParseAttr(name: string) returns (r: Parsed)
      requires Valid()
      modifies this
      ensures Valid() && old(pos) <= pos
      ensures (r, Rest()) == ReadAttr(old(Rest()), name)
      decreases |toks| - pos, 0
    {
      r := Parsed(name, [], map[]);
      var t := PeekToken();
      if !t.LParen? {
        return;
      }
      pos := pos + 1;
      ghost var s := toks[pos..];
      assert s == old(Rest())[1..];
      while pos < |toks|
        invariant old(pos) < pos <= |toks|
        invariant ReadItems(toks[pos..], r) == ReadItems(s, Parsed(name, [], map[]))
        decreases |toks| - pos
      {
        ghost var here := toks[pos..];
        if toks[pos].RParen? {
          pos := pos + 1;
          assert toks[pos..] == here[1..];
          return;
        }
        var more := ParseItem(r);
        if more.None? {
          return;
        }
        r := more.value;
        t := PeekToken();
        if t.Comma? {
          ghost var there := toks[pos..];
          pos := pos + 1;
          assert toks[pos..] == there[1..];
          continue;
        }
        if !t.RParen? {
          return;
        }
      }
    }

    method ParseItem(acc: Parsed) returns (r: Option<Parsed>)
      requires Valid() && pos < |toks|
      modifies this
      ensures Valid() && old(pos) < pos
      ensures (r, Rest()) == ReadItem(old(Rest()), acc)
      decreases |toks| - pos, 3
    {
      ghost var here := toks[pos..];
      var v: Option<Arg>;
      if toks[pos].Ident? && pos + 1 < |toks| && toks[pos + 1].Equal? {
        var key := toks[pos].name;
        pos := pos + 2;
        assert toks[pos..] == here[2..];
        v := ParseArg();
        if v.None? {
          return None;
        }
        return Some(Bind(acc, key, v.value));
      }
      v := ParseArg();
      return Some(Append(acc, v.value));
    }
  }

  // ----- surface syntax: what a programmer writes -----

  datatype Written = RawText(tokens: seq<Token>) | Attribute(name: string, parens: bool, items: Items)

  datatype Items = Done | Positional(arg: Written, tail: Items) | Keyword(key: string, arg: Written, tail: Items)

  function PrintArg(a: Written): seq<Token>
    decreases a, 0
  {
    match a
    case RawText(tokens) => tokens
    case Attribute(name, parens, items) => [At, Ident(name)] + PrintList(parens, items)
  }

  /** The argument list, which may be left out when it is empty. */
  function PrintList(parens: bool, items: Items): seq<Token>
    decreases items, 2
  {
    if parens || !items.Done? then [LParen] + PrintItems(items) + [RParen] else []
  }

  function PrintItems(items: Items): seq<Token>
    decreases items, 0
  {
    match items
    case Done => []
    case Positional(a, tail) => PrintArg(a) + PrintTail(tail)
    case Keyword(key, a, tail) => [Ident(key), Equal] + (PrintArg(a) + PrintTail(tail))
  }

  function PrintTail(items: Items): seq<Token>
    decreases items, 1
  {
    if items.Done? then [] else [Comma] + PrintItems(items)
  }

  /** The attribute tree that the written form stands for. */
  function Denote(a: Written): Arg {
    match a
    case RawText(tokens) => Raw(tokens)
    case Attribute(name, _, items) => Nested(Parsed("okl_" + name, Positionals(items), Keywords(items)))
  }

  /** The positional arguments in order. */
  function Positionals(items: Items): seq<Arg> {
    match items
    case Done => []
    case Positional(a, tail) => [Denote(a)] + Positionals(tail)
    case Keyword(_, _, tail) => Positionals(tail)
  }

  /** The keyword arguments, the last of equal keys. */
  function Keywords(items: Items): map<string, Arg> {
    match items
    case Done => map[]
    case Positional(_, tail) => Keywords(tail)
    case Keyword(key, a, tail) => map[key := Denote(a)] + Keywords(tail)
  }

  /** The arguments behind those read so far. */
  function AddItems(acc: Parsed, items: Items): Parsed {
    Parsed(acc.name, acc.args + Positionals(items), acc.kwargs + Keywords(items))
  }

  /** One argument and then the others; without arguments nothing is added. */
  lemma {:induction false} AddFirst(acc: Parsed, items: Items)
    ensures AddItems(acc, items)
            == match items
               case Done => acc
               case Positional(a, tail) => AddItems(Append(acc, Denote(a)), tail)
               case Keyword(key, a, tail) => AddItems(Bind(acc, key, Denote(a)), tail)
  {
    if items.Done? {
      assert acc.args + [] == acc.args && acc.kwargs + map[] == acc.kwargs;
    } else if items.Positional? {
      assert acc.args + ([Denote(items.arg)] + Positionals(items.tail))
             == (acc.args + [Denote(items.arg)]) + Positionals(items.tail);
    } else {
      assert acc.kwargs + (map[items.key := Denote(items.arg)] + Keywords(items.tail))
             == acc.kwargs[items.key := Denote(items.arg)] + Keywords(items.tail);
    }
  }

  /** All brackets closed after the last token, and no `,` or `)` before it where they all are. */
  predicate OneSpan(tokens: seq<Token>, c: Braces) {
    tokens != []
    && var c' := Count(c, tokens[0]);
       if |tokens| == 1 then c' == NONE else !(Stops(tokens[1]) && c' == NONE) && OneSpan(tokens[1..], c')
  }

  predicate RawOk(tokens: seq<Token>) {
    OneSpan(tokens, NONE) && !StartsAttr(tokens)
  }

  predicate WrittenOk(a: Written) {
    match a
    case RawText(tokens) => RawOk(tokens)
    case Attribute(_, _, items) => ItemsOk(items)
  }

  predicate ItemsOk(items: Items) {
    match items
    case Done => true
    case Positional(a, tail) =>
      WrittenOk(a) && ItemsOk(tail) && (a.RawText? ==> !a.tokens[0].RParen? && !StartsKeyword(a.tokens))
    case Keyword(_, a, tail) => WrittenOk(a) && ItemsOk(tail)
  }

  // ----- printing and reading undo each other -----

  lemma {:induction false} SpanLength(tokens: seq<Token>, rest: seq<Token>, c: Braces)
    requires Stops(Peek(rest))
    ensures tokens != [] ==> (RawLength(tokens + rest, c) == |tokens| <==> OneSpan(tokens, c))
  {
    if |tokens| > 1 {
      assert (tokens + rest)[1..] == tokens[1..] + rest;
      SpanLength(tokens[1..], rest, Count(c, tokens[0]));
    } else if |tokens| == 1 {
      assert (tokens + rest)[1..] == rest;
    }
  }

  /** In front of a `,` or `)`, a token run is read back as one raw argument exactly when it is one span
    * and does not begin like an attribute. */
  lemma {:induction false} RawReadsBack(tokens: seq<Token>, rest: seq<Token>)
    requires Stops(Peek(rest))
    ensures ReadArg(tokens + rest) == (Some(Raw(tokens)), rest) <==> RawOk(tokens)
  {
    var s := tokens + rest;
    SpanLength(tokens, rest, NONE);
    var n := RawLength(s, NONE);
    if n == |tokens| {
      assert s[..n] == tokens && s[n..] == rest;
    } else {
      assert |s[..n]| != |tokens|;
    }
    assert StartsAttr(s) <==> StartsAttr(tokens);
  }

  lemma {:induction false} NestedIsRead(name: string, t: seq<Token>)
    ensures var r := ReadAttr(t, PREFIX + name); ReadArg([At, Ident(name)] + t) == (Some(Nested(r.0)), r.1)
  {
    var s := [At, Ident(name)] + t;
    assert s[0] == At && s[1] == Ident(name) && s[2..] == t;
  }

  /** What the reader does behind an argument. */
  function Continue(next: Parsed, after: seq<Token>): (Parsed, seq<Token>) {
    if Peek(after).Comma? then ReadItems(after[1..], next)
    else if Peek(after).RParen? then ReadItems(after, next) else (next, after)
  }

  lemma {:induction false} KeywordIsRead(key: string, t: seq<Token>, acc: Parsed, v: Arg, after: seq<Token>)
    requires ReadArg(t) == (Some(v), after)
    ensures ReadItems([Ident(key), Equal] + t, acc) == Continue(Bind(acc, key, v), after)
  {
    var s := [Ident(key), Equal] + t;
    assert s[0] == Ident(key) && s[1] == Equal && s[2..] == t;
  }

  lemma {:induction false} PositionalIsRead(t: seq<Token>, acc: Parsed, v: Arg, after: seq<Token>)
    requires t != [] && !t[0].RParen? && !StartsKeyword(t) && ReadArg(t) == (Some(v), after)
    ensures ReadItems(t, acc) == Continue(Append(acc, v), after)
  {
  }

  lemma {:induction false} Assoc<T>(a: seq<T>, b: seq<T>, c: seq<T>)
    ensures a + (b + c) == (a + b) + c
  {
  }

  lemma {:induction false} ArgReadsBack(a: Written, rest: seq<Token>)
    requires WrittenOk(a) && Stops(Peek(rest))
    ensures ReadArg(PrintArg(a) + rest) == (Some(Denote(a)), rest)
    decreases a
  {
    match a
    case RawText(tokens) => RawReadsBack(tokens, rest);
    case Attribute(name, parens, items) =>
      AttributeReadsBack(PREFIX + name, parens, items, rest);
      NestedIsRead(name, PrintList(parens, items) + rest);
      Assoc([At, Ident(name)], PrintList(parens, items), rest);
  }

  /** Reading a printed attribute gives its tree and leaves what follows untouched; an attribute written
    * without a list must not be followed by `(`. */
  lemma {:induction false} AttributeReadsBack(name: string, parens: bool, items: Items, rest: seq<Token>)
    requires ItemsOk(items) && (parens || !items.Done? || !Peek(rest).LParen?)
    ensures ReadAttr(PrintList(parens, items) + rest, name) == (Parsed(name, Positionals(items), Keywords(items)), rest)
    decreases items, 1
  {
    var s := PrintList(parens, items) + rest;
    if parens || !items.Done? {
      assert s[0] == LParen && s[1..] == PrintItems(items) + ([RParen] + rest);
      ItemsReadBack(items, Parsed(name, [], map[]), rest);
      assert [] + Positionals(items) == Positionals(items) && map[] + Keywords(items) == Keywords(items);
    } else {
      assert s == rest;
    }
  }

  lemma {:induction false} ItemsReadBack(items: Items, acc: Parsed, rest: seq<Token>)
    requires ItemsOk(items)
    ensures ReadItems(PrintItems(items) + ([RParen] + rest), acc) == (AddItems(acc, items), rest)
    decreases items, 0
  {
    AddFirst(acc, items);
    if items.Done? {
      assert [] + ([RParen] + rest) == [RParen] + rest;
      assert ([RParen] + rest)[1..] == rest;
    } else {
      var arg, tail, after := PrintArg(items.arg), PrintTail(items.tail), PrintTail(items.tail) + ([RParen] + rest);
      ArgReadsBack(items.arg, after);
      Assoc(arg, tail, [RParen] + rest);
      if items.Positional? {
        FirstOfPositional(items, after);
        PositionalIsRead(arg + after, acc, Denote(items.arg), after);
        TailReadsBack(items.tail, Append(acc, Denote(items.arg)), rest);
      } else {
        Assoc([Ident(items.key), Equal], arg + tail, [RParen] + rest);
        KeywordIsRead(items.key, arg + after, acc, Denote(items.arg), after);
        TailReadsBack(items.tail, Bind(acc, items.key, Denote(items.arg)), rest);
      }
    }
  }

  lemma {:induction false} FirstOfPositional(items: Items, after: seq<Token>)
    requires items.Positional? && ItemsOk(items) && Stops(Peek(after))
    ensures var s := PrintArg(items.arg) + after; s != [] && !s[0].RParen? && !StartsKeyword(s)
  {
  }

  lemma {:induction false} TailReadsBack(items: Items, acc: Parsed, rest: seq<Token>)
    requires ItemsOk(items)
    ensures var after := PrintTail(items) + ([RParen] + rest);
            Stops(Peek(after))
            && ReadItems(if Peek(after).Comma? then after[1..] else after, acc) == (AddItems(acc, items), rest)
    decreases items, 1
  {
    AddFirst(acc, items);
    var after := PrintTail(items) + ([RParen] + rest);
    if items.Done? {
      assert after == [RParen] + rest;
      assert after[1..] == rest;
    } else {
      assert after[0] == Comma && after[1..] == PrintItems(items) + ([RParen] + rest);
      ItemsReadBack(items, acc, rest);
    }
  }

  /** Two written forms with the same tokens stand for the same tree. */
  lemma {:induction false} SameTokensSameTree(a: Written, b: Written)
    requires WrittenOk(a) && WrittenOk(b) && PrintArg(a) == PrintArg(b)
    ensures Denote(a) == Denote(b)
  {
    ArgReadsBack(a, [Comma]);
    ArgReadsBack(b, [Comma]);
  }
}
