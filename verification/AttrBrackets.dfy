/** Brackets in raw attribute arguments, told by how they nest and not by counting. */
module AttrBrackets {
  import opened LoopHeader
  import opened AttrParser

  // ----- bracketed text -----

  /** A token that is no bracket, two texts side by side, or a text in `( )`, `[ ]` or `{ }`. */
  datatype Text = Empty | Single(token: Token) | Beside(left: Text, right: Text) | Within(kind: Kind, inner: Text)

  datatype Kind = Round | Square | Curly

  function Opening(k: Kind): Token {
    match k
    case Round => LParen
    case Square => LSquare
    case Curly => LBrace
  }

  function Closing(k: Kind): Token {
    match k
    case Round => RParen
    case Square => RSquare
    case Curly => RBrace
  }

  predicate IsBracket(t: Token) {
    t.LParen? || t.RParen? || t.LSquare? || t.RSquare? || t.LBrace? || t.RBrace?
  }

  predicate TextOk(x: Text) {
    match x
    case Empty => true
    case Single(t) => !IsBracket(t)
    case Beside(l, r) => TextOk(l) && TextOk(r)
    case Within(_, y) => TextOk(y)
  }

  function Flat(x: Text): seq<Token> {
    match x
    case Empty => []
    case Single(t) => [t]
    case Beside(l, r) => Flat(l) + Flat(r)
    case Within(k, y) => [Opening(k)] + Flat(y) + [Closing(k)]
  }

  /** How deep brackets nest. */
  function Depth(x: Text): nat {
    match x
    case Empty => 0
    case Single(_) => 0
    case Beside(l, r) => if Depth(l) > Depth(r) then Depth(l) else Depth(r)
    case Within(_, y) => 1 + Depth(y)
  }

  /** Some `,` stands outside all brackets. */
  predicate TopComma(x: Text) {
    match x
    case Empty => false
    case Single(t) => t.Comma?
    case Beside(l, r) => TopComma(l) || TopComma(r)
    case Within(_, _) => false
  }

  // ----- the counters over a text -----

  function Counted(c: Braces, s: seq<Token>): Braces
    decreases s
  {
    if s == [] then c else Counted(Count(c, s[0]), s[1..])
  }

  lemma {:induction false} CountedConcat(c: Braces, a: seq<Token>, b: seq<Token>)
    ensures Counted(c, a + b) == Counted(Counted(c, a), b)
    decreases a
  {
    if a == [] {
      assert a + b == b;
    } else {
      assert (a + b)[1..] == a[1..] + b;
      CountedConcat(Count(c, a[0]), a[1..], b);
    }
  }

  /** There is room for `d` more brackets of each kind. */
  predicate Room(c: Braces, d: nat) {
    c.paren + d < 0x1_0000 && c.bracket + d < 0x1_0000 && c.brace + d < 0x1_0000
  }

  lemma {:induction false} OneBracket(c: Braces, k: Kind, d: nat)
    requires Room(c, d + 1)
    ensures var e := Count(c, Opening(k)); Room(e, d) && e != NONE && Count(e, Closing(k)) == c
  {
  }

  /** Behind a text the counters are where they were. */
  lemma {:induction false} TextCloses(x: Text, c: Braces)
    requires TextOk(x) && Room(c, Depth(x))
    ensures Counted(c, Flat(x)) == c
    decreases x
  {
    match x
    case Empty =>
    case Single(t) =>
      assert [t][1..] == [];
    case Beside(l, r) =>
      TextCloses(l, c);
      TextCloses(r, c);
      CountedConcat(c, Flat(l), Flat(r));
    case Within(k, y) =>
      OneBracket(c, k, Depth(y));
      TextCloses(y, Count(c, Opening(k)));
      WithinCounted(k, y, c, |Flat(y)|);
      assert Flat(y)[..|Flat(y)|] == Flat(y);
      var s := [Opening(k)] + Flat(y);
      CountedConcat(c, s, [Closing(k)]);
      assert s == Flat(x)[..1 + |Flat(y)|] && [Closing(k)][1..] == [];
  }

  /** The counters in the middle of a bracket. */
  lemma {:induction false} WithinCounted(k: Kind, y: Text, c: Braces, n: nat)
    requires n <= |Flat(y)|
    ensures Flat(Within(k, y))[..1 + n] == [Opening(k)] + Flat(y)[..n]
    ensures Counted(c, Flat(Within(k, y))[..1 + n]) == Counted(Count(c, Opening(k)), Flat(y)[..n])
  {
    var s := [Opening(k)] + Flat(y)[..n];
    assert Flat(Within(k, y))[..1 + n] == s;
    assert s[1..] == Flat(y)[..n];
  }

  /** Position n is a `,` or `)` in front of which all counters are zero. */
  predicate StopsAt(s: seq<Token>, c: Braces, n: nat)
    requires n < |s|
  {
    Stops(s[n]) && Counted(c, s[..n]) == NONE
  }

  predicate NoStop(s: seq<Token>, c: Braces) {
    forall n :: 0 <= n < |s| ==> !StopsAt(s, c, n)
  }

  lemma {:induction false} NoStopConcat(a: seq<Token>, b: seq<Token>, c: Braces)
    ensures NoStop(a + b, c) <==> NoStop(a, c) && NoStop(b, Counted(c, a))
  {
    var s := a + b;
    forall n | 0 <= n < |a| ensures StopsAt(s, c, n) <==> StopsAt(a, c, n) { assert s[..n] == a[..n]; }
    forall n | 0 <= n < |b| ensures StopsAt(s, c, |a| + n) <==> StopsAt(b, Counted(c, a), n) {
      assert s[..|a| + n] == a + b[..n];
      CountedConcat(c, a, b[..n]);
    }
    if NoStop(s, c) {
      forall n | 0 <= n < |b| ensures !StopsAt(b, Counted(c, a), n) { assert !StopsAt(s, c, |a| + n); }
      forall n | 0 <= n < |a| ensures !StopsAt(a, c, n) { assert !StopsAt(s, c, n); }
    }
    if NoStop(a, c) && NoStop(b, Counted(c, a)) {
      forall n | 0 <= n < |s| ensures !StopsAt(s, c, n) {
        if n >= |a| { assert !StopsAt(b, Counted(c, a), n - |a|); }
      }
    }
  }

  lemma {:induction false} OneToken(t: Token, c: Braces)
    ensures NoStop([t], c) <==> !(Stops(t) && c == NONE)
  {
    assert [t][..0] == [];
    assert StopsAt([t], c, 0) <==> Stops(t) && c == NONE;
  }

  /** A text stops the reader exactly at a `,` outside all brackets, and only if nothing is open around it. */
  lemma {:induction false} TextStops(x: Text, c: Braces)
    requires TextOk(x) && Room(c, Depth(x))
    ensures NoStop(Flat(x), c) <==> c != NONE || !TopComma(x)
    decreases x
  {
    match x
    case Empty =>
    case Single(t) => OneToken(t, c);
    case Beside(l, r) =>
      TextCloses(l, c);
      TextStops(l, c);
      TextStops(r, c);
      NoStopConcat(Flat(l), Flat(r), c);
    case Within(k, y) =>
      OneBracket(c, k, Depth(y));
      var e, s := Count(c, Opening(k)), [Opening(k)] + Flat(y);
      TextStops(y, e);
      TextCloses(y, e);
      assert [Opening(k)][1..] == [] && Counted(c, [Opening(k)]) == e;
      OneToken(Opening(k), c);
      OneToken(Closing(k), e);
      NoStopConcat([Opening(k)], Flat(y), c);
      CountedConcat(c, [Opening(k)], Flat(y));
      NoStopConcat(s, [Closing(k)], c);
  }

  // ----- raw arguments -----

  /** A span is a run of tokens that closes what it opens and is stopped nowhere behind its first token. */
  lemma {:induction false} SpanMeans(s: seq<Token>, c: Braces)
    requires s != []
    ensures OneSpan(s, c) <==> Counted(c, s) == NONE && NoStop(s[1..], Count(c, s[0]))
    decreases s
  {
    var c', t := Count(c, s[0]), s[1..];
    if |s| == 1 {
      assert t == [];
    } else {
      SpanMeans(t, c');
      assert t == [t[0]] + t[1..];
      NoStopConcat([t[0]], t[1..], c');
      OneToken(t[0], c');
      assert [t[0]][1..] == [];
    }
  }

  /** Any text that is not empty, nests less than 2^16 deep and does not begin with a `,` is one raw argument exactly if
    * no `,` stands outside its brackets. */
  lemma {:induction false} TextIsSpan(x: Text)
    requires TextOk(x) && Flat(x) != [] && Depth(x) < 0x1_0000 && !Flat(x)[0].Comma?
    ensures OneSpan(Flat(x), NONE) <==> !TopComma(x)
  {
    var s := Flat(x);
    SpanMeans(s, NONE);
    TextCloses(x, NONE);
    TextStops(x, NONE);
    assert s == [s[0]] + s[1..];
    NoStopConcat([s[0]], s[1..], NONE);
    OneToken(s[0], NONE);
    FirstToken(x);
    assert [s[0]][1..] == [];
  }

  lemma {:induction false} FirstToken(x: Text)
    requires TextOk(x) && Flat(x) != []
    ensures !Flat(x)[0].RParen?
    decreases x
  {
    if x.Beside? { if Flat(x.left) != [] { FirstToken(x.left); } else { FirstToken(x.right); } }
  }

  /** In front of a `,` or `)`, such a text that does not begin like an attribute is read back as one raw argument. */
  lemma {:induction false} BracketsReadBack(x: Text, rest: seq<Token>)
    requires TextOk(x) && Flat(x) != [] && Depth(x) < 0x1_0000 && !TopComma(x)
    requires !StartsAttr(Flat(x)) && Stops(Peek(rest))
    ensures ReadArg(Flat(x) + rest) == (Some(Raw(Flat(x))), rest)
  {
    NoLeadingComma(x);
    TextIsSpan(x);
    RawReadsBack(Flat(x), rest);
  }

  lemma {:induction false} NoLeadingComma(x: Text)
    requires !TopComma(x) && Flat(x) != []
    ensures !Flat(x)[0].Comma?
    decreases x
  {
    if x.Beside? { if Flat(x.left) != [] { NoLeadingComma(x.left); } else { NoLeadingComma(x.right); } }
  }

  /** A `,` outside all brackets ends the argument, whatever follows it: the argument is the text in front of it. */
  lemma {:induction false} CommaEnds(x: Text, more: seq<Token>)
    requires TextOk(x) && Flat(x) != [] && Depth(x) < 0x1_0000 && !TopComma(x) && !StartsAttr(Flat(x))
    ensures ReadArg(Flat(x) + ([Comma] + more)) == (Some(Raw(Flat(x))), [Comma] + more)
  {
    BracketsReadBack(x, [Comma] + more);
  }

  // ----- sixteen bits are not enough -----

  function Parens(n: nat): (s: seq<Token>)
    ensures |s| == n && forall k :: 0 <= k < n ==> s[k] == LParen
  {
    seq(n, _ => LParen)
  }

  lemma {:induction false} ParensCounted(n: nat)
    ensures Counted(NONE, Parens(n)) == Braces(n % 0x1_0000, 0, 0)
  {
    if n > 0 {
      ParensCounted(n - 1);
      assert Parens(n) == Parens(n - 1) + [LParen];
      CountedConcat(NONE, Parens(n - 1), [LParen]);
      assert [LParen][1..] == [];
    }
  }

  /** With 2^16 brackets open the counter is back at zero, and a `,` inside them ends the argument. */
  lemma {:induction false} DeepCommaEnds(more: seq<Token>)
    ensures ReadArg(Parens(0x1_0000) + ([Comma] + more)) == (Some(Raw(Parens(0x1_0000))), [Comma] + more)
  {
    var s := Parens(0x1_0000);
    ParensCounted(0x1_0000);
    SpanMeans(s, NONE);
    forall n | 0 <= n < |s[1..]| ensures !StopsAt(s[1..], Count(NONE, s[0]), n) { assert s[1..][n] == LParen; }
    RawReadsBack(s, [Comma] + more);
  }

  // ----- lists that are not closed -----

  /** The last argument is an attribute, with a list if `(` comes next. */
  predicate EndsInAttribute(items: Items, rest: seq<Token>) {
    match items
    case Done => false
    case Positional(a, tail) => if tail.Done? then Closes(a, rest) else EndsInAttribute(tail, rest)
    case Keyword(_, a, tail) => if tail.Done? then Closes(a, rest) else EndsInAttribute(tail, rest)
  }

  predicate Closes(a: Written, rest: seq<Token>) {
    a.Attribute? && (a.parens || !a.items.Done? || !Peek(rest).LParen?)
  }

  lemma {:induction false} AttributeBefore(a: Written, rest: seq<Token>)
    requires WrittenOk(a) && Closes(a, rest)
    ensures ReadArg(PrintArg(a) + rest) == (Some(Denote(a)), rest)
  {
    var list := PrintList(a.parens, a.items);
    AttributeReadsBack(PREFIX + a.name, a.parens, a.items, rest);
    NestedIsRead(a.name, list + rest);
    assert PrintArg(a) + rest == [At, Ident(a.name)] + (list + rest);
  }

  function WithFirst(acc: Parsed, items: Items): Parsed
    requires !items.Done?
  {
    if items.Positional? then Append(acc, Denote(items.arg)) else Bind(acc, items.key, Denote(items.arg))
  }

  function FirstTokens(items: Items): seq<Token>
    requires !items.Done?
  {
    if items.Positional? then PrintArg(items.arg) else [Ident(items.key), Equal] + PrintArg(items.arg)
  }

  /** The first argument of a list is read, and then it depends on what follows it. */
  lemma {:induction false} FirstIsRead(items: Items, acc: Parsed, after: seq<Token>)
    requires ItemsOk(items) && !items.Done? && (items.arg.RawText? ==> Stops(Peek(after)))
    requires ReadArg(PrintArg(items.arg) + after) == (Some(Denote(items.arg)), after)
    ensures ReadItems(FirstTokens(items) + after, acc) == Continue(WithFirst(acc, items), after)
  {
    var t, v := PrintArg(items.arg) + after, Denote(items.arg);
    if items.Positional? {
      FirstOfArgument(items, after);
      PositionalIsRead(t, acc, v, after);
    } else {
      KeywordIsRead(items.key, t, acc, v, after);
      Assoc([Ident(items.key), Equal], PrintArg(items.arg), after);
    }
  }

  lemma {:induction false} PrintSplit(items: Items, rest: seq<Token>)
    requires !items.Done?
    ensures PrintItems(items) + rest == FirstTokens(items) + (PrintTail(items.tail) + rest)
  {
    var arg, tail := PrintArg(items.arg), PrintTail(items.tail);
    if items.Keyword? { Assoc([Ident(items.key), Equal], arg, tail); }
    Assoc(FirstTokens(items), tail, rest);
  }

  lemma {:induction false} TailSplit(items: Items, rest: seq<Token>)
    ensures var after := PrintTail(items) + rest;
            if items.Done? then after == rest else after[0] == Comma && after[1..] == PrintItems(items) + rest
  {
    if items.Done? { assert [] + rest == rest; } else { Assoc([Comma], PrintItems(items), rest); }
  }

  /** Anything but `,` or `)` behind an attribute in a list ends the list there, the arguments so far are kept and
    * nothing more is read; so does the end of the tokens. */
  lemma {:induction false} OpenListEnds(items: Items, acc: Parsed, rest: seq<Token>)
    requires ItemsOk(items) && EndsInAttribute(items, rest) && !Stops(Peek(rest))
    ensures ReadItems(PrintItems(items) + rest, acc) == (AddItems(acc, items), rest)
    decreases items
  {
    var next, after := WithFirst(acc, items), PrintTail(items.tail) + rest;
    AddFirst(acc, items);
    PrintSplit(items, rest);
    TailSplit(items.tail, rest);
    if items.tail.Done? {
      AttributeBefore(items.arg, rest);
      AddFirst(next, items.tail);
    } else {
      ArgReadsBack(items.arg, after);
      OpenListEnds(items.tail, next, rest);
    }
    FirstIsRead(items, acc, after);
  }

  lemma {:induction false} FirstOfArgument(items: Items, after: seq<Token>)
    requires items.Positional? && ItemsOk(items) && (items.arg.RawText? ==> Stops(Peek(after)))
    ensures var s := PrintArg(items.arg) + after; s != [] && !s[0].RParen? && !StartsKeyword(s)
  {
  }

  /** A keyword without a value at the end of the tokens is dropped, and what was read before it is kept. */
  lemma {:induction false} MissingValue(key: string, acc: Parsed)
    ensures ReadItems([Ident(key), Equal], acc) == (acc, [])
  {
    var s := [Ident(key), Equal];
    assert s[2..] == [];
  }

  /** A raw argument that is stopped nowhere goes to the end of the tokens, whatever brackets it leaves open. */
  lemma {:induction false} RawToEnd(s: seq<Token>)
    requires s != [] && !StartsAttr(s) && NoStop(s[1..], Count(NONE, s[0]))
    ensures ReadArg(s) == (Some(Raw(s)), [])
  {
    LengthToEnd(s, NONE);
    assert s[..|s|] == s && s[|s|..] == [];
  }

  lemma {:induction false} LengthToEnd(s: seq<Token>, c: Braces)
    requires s != [] && NoStop(s[1..], Count(c, s[0]))
    ensures RawLength(s, c) == |s|
    decreases s
  {
    var c', t := Count(c, s[0]), s[1..];
    if t != [] {
      assert t == [t[0]] + t[1..] && [t[0]][1..] == [];
      NoStopConcat([t[0]], t[1..], c');
      OneToken(t[0], c');
      LengthToEnd(t, c');
    }
  }
}
