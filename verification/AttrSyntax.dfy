/** The two readers of attributes together: what the token machine finds in a file is what the argument reader reads. */
module AttrSyntax {
  import F = AttrFsm
  import P = AttrParser

  // ----- the tokens of a payload -----

  /** How the second reader sees a token of the file; to it the truth values are words. */
  function Reread(t: F.Token): P.Token {
    match t.kind
    case At => P.At
    case Identifier => P.Ident(t.text)
    case True => P.Ident(t.text)
    case False => P.Ident(t.text)
    case LParen => P.LParen
    case RParen => P.RParen
    case Equal => P.Equal
    case Comma => P.Comma
    case _ => P.Other(t.text)
  }

  function RereadAll(ts: seq<F.Token>): (r: seq<P.Token>)
    ensures |r| == |ts| && forall k :: 0 <= k < |ts| ==> r[k] == Reread(ts[k])
  {
    seq(|ts|, k requires 0 <= k < |ts| => Reread(ts[k]))
  }

  /** A word, a number, a string, a truth value, `+ - * /`, a parenthesis, or one of `@ = ,`. */
  predicate Admitted(k: F.Kind) {
    k in {F.Identifier, F.Numeric, F.StringLiteral, F.True, F.False, F.Plus, F.Minus, F.Star, F.Slash, F.LParen,
          F.RParen, F.At, F.Equal, F.Comma}
  }

  /** From `i` on the file reads these tokens, all of them admitted; the name behind an `@` is an identifier. */
  predicate Spelled(u: seq<F.Token>, i: nat, toks: seq<P.Token>) {
    i + |toks| <= |u| && forall k :: 0 <= k < |toks| ==> Reread(u[i + k]) == toks[k] && Admitted(u[i + k].kind)
  }

  // ----- parentheses -----

  /** How many more parentheses are opened than closed. */
  function Level(s: seq<P.Token>): int {
    if s == [] then 0
    else Level(s[..|s| - 1]) + (if s[|s| - 1].LParen? then 1 else if s[|s| - 1].RParen? then -1 else 0)
  }

  /** Every parenthesis is closed, and none before it is opened. */
  predicate ClosedRun(s: seq<P.Token>) {
    Level(s) == 0 && forall k :: 0 <= k <= |s| ==> Level(s[..k]) >= 0
  }

  /** A parenthesis that is closed by the last token. */
  predicate ParenRun(s: seq<P.Token>) {
    s != [] && s[0].LParen? && ClosedRun(s) && forall k :: 0 < k < |s| ==> Level(s[..k]) > 0
  }

  lemma {:induction false} LevelConcat(a: seq<P.Token>, b: seq<P.Token>)
    ensures Level(a + b) == Level(a) + Level(b)
    decreases |b|
  {
    if b == [] {
      assert a + b == a;
    } else {
      var s, b' := a + b, b[..|b| - 1];
      assert s[..|s| - 1] == a + b' && s[|s| - 1] == b[|b| - 1];
      LevelConcat(a, b');
    }
  }

  lemma {:induction false} ClosedConcat(a: seq<P.Token>, b: seq<P.Token>)
    requires ClosedRun(a) && ClosedRun(b)
    ensures ClosedRun(a + b)
  {
    LevelConcat(a, b);
    forall k | 0 <= k <= |a + b| ensures Level((a + b)[..k]) >= 0 {
      if k <= |a| {
        assert (a + b)[..k] == a[..k];
      } else {
        assert (a + b)[..k] == a + b[..k - |a|];
        LevelConcat(a, b[..k - |a|]);
      }
    }
  }

  lemma {:induction false} FlatIsClosed(s: seq<P.Token>)
    requires forall k :: 0 <= k < |s| ==> !s[k].LParen? && !s[k].RParen?
    ensures ClosedRun(s)
    decreases |s|
  {
    if s != [] {
      var r := s[..|s| - 1];
      FlatIsClosed(r);
      forall k | 0 <= k <= |s| ensures Level(s[..k]) >= 0 {
        if k < |s| { assert s[..k] == r[..k]; } else { assert s[..k] == s; }
      }
    }
  }

  /** A parenthesis around a closed run stays open up to its end. */
  lemma {:induction false} Wrapped(s: seq<P.Token>)
    requires ClosedRun(s)
    ensures ParenRun([P.LParen] + s + [P.RParen])
  {
    var w := [P.LParen] + s + [P.RParen];
    assert Level([P.LParen]) == 1 + Level([]) by { assert [P.LParen][..0] == []; }
    assert Level([P.RParen]) == Level([]) - 1 by { assert [P.RParen][..0] == []; }
    LevelConcat([P.LParen], s);
    LevelConcat([P.LParen] + s, [P.RParen]);
    forall k | 0 < k < |w| ensures Level(w[..k]) > 0 {
      assert w[..k] == [P.LParen] + s[..k - 1];
      LevelConcat([P.LParen], s[..k - 1]);
    }
    assert w[..0] == [] && w[..|w|] == w;
  }

  // ----- written attributes -----

  /** The parentheses of every raw argument are closed in it. */
  predicate RawsClosed(a: P.Written) {
    match a
    case RawText(tokens) => ClosedRun(tokens)
    case Attribute(_, _, items) => ItemsClosed(items)
  }

  predicate ItemsClosed(items: P.Items) {
    match items
    case Done => true
    case Positional(a, tail) => RawsClosed(a) && ItemsClosed(tail)
    case Keyword(_, a, tail) => RawsClosed(a) && ItemsClosed(tail)
  }

  lemma {:induction false} PrintedArgCloses(a: P.Written)
    requires RawsClosed(a)
    ensures ClosedRun(P.PrintArg(a))
    decreases a, 0
  {
    if a.Attribute? {
      FlatIsClosed([P.At, P.Ident(a.name)]);
      PrintedListCloses(a.parens, a.items);
      ClosedConcat([P.At, P.Ident(a.name)], P.PrintList(a.parens, a.items));
    }
  }

  lemma {:induction false} PrintedListCloses(parens: bool, items: P.Items)
    requires ItemsClosed(items)
    ensures P.PrintList(parens, items) == [] || ParenRun(P.PrintList(parens, items))
    ensures ClosedRun(P.PrintList(parens, items))
    decreases items, 2
  {
    PrintedItemsClose(items);
    Wrapped(P.PrintItems(items));
    FlatIsClosed([]);
  }

  lemma {:induction false} PrintedItemsClose(items: P.Items)
    requires ItemsClosed(items)
    ensures ClosedRun(P.PrintItems(items))
    decreases items, 0
  {
    match items
    case Done => FlatIsClosed([]);
    case Positional(a, tail) =>
      PrintedArgCloses(a);
      PrintedTailCloses(tail);
      ClosedConcat(P.PrintArg(a), P.PrintTail(tail));
    case Keyword(key, a, tail) =>
      PrintedArgCloses(a);
      PrintedTailCloses(tail);
      ClosedConcat(P.PrintArg(a), P.PrintTail(tail));
      FlatIsClosed([P.Ident(key), P.Equal]);
      ClosedConcat([P.Ident(key), P.Equal], P.PrintArg(a) + P.PrintTail(tail));
  }

  lemma {:induction false} PrintedTailCloses(items: P.Items)
    requires ItemsClosed(items)
    ensures ClosedRun(P.PrintTail(items))
    decreases items, 1
  {
    FlatIsClosed([]);
    if !items.Done? {
      PrintedItemsClose(items);
      FlatIsClosed([P.Comma]);
      ClosedConcat([P.Comma], P.PrintItems(items));
    }
  }

  // ----- the machine finds them -----

  lemma {:induction false} DepthIsLevel(u: seq<F.Token>, i: nat, toks: seq<P.Token>, k: nat)
    requires Spelled(u, i, toks) && k <= |toks|
    ensures F.Depth(u, i, i + k) == Level(toks[..k])
    decreases k
  {
    if k > 0 {
      DepthIsLevel(u, i, toks, k - 1);
      assert toks[..k][..k - 1] == toks[..k - 1] && toks[..k][k - 1] == toks[k - 1];
      assert Reread(u[i + (k - 1)]) == toks[k - 1];
    }
  }

  lemma {:induction false} ListIsBalanced(u: seq<F.Token>, i: nat, toks: seq<P.Token>)
    requires Spelled(u, i, toks) && ParenRun(toks)
    ensures F.Balanced(u, i, i + |toks|)
  {
    assert Reread(u[i + 0]) == toks[0] && Reread(u[i + (|toks| - 1)]) == toks[|toks| - 1];
    DepthIsLevel(u, i, toks, |toks|);
    assert toks[..|toks|] == toks;
    forall k | i < k <= i + |toks| - 1 ensures F.Held(u, i, k) {
      DepthIsLevel(u, i, toks, k - i);
      assert Admitted(u[i + (k - i - 1)].kind);
    }
  }

  /** The attribute stands in the file from i on, its name an identifier; without a list no `(` follows it, but some
    * token does. */
  predicate StandsAt(u: seq<F.Token>, i: nat, w: P.Written) {
    && w.Attribute? && Spelled(u, i, P.PrintArg(w)) && i + 1 < |u| && u[i + 1].kind.Identifier?
    && (P.PrintList(w.parens, w.items) == [] ==> i + 2 < |u| && !u[i + 2].kind.LParen?)
  }

  lemma {:induction false} ListSpelled(u: seq<F.Token>, i: nat, name: string, list: seq<P.Token>)
    requires Spelled(u, i, [P.At, P.Ident(name)] + list)
    ensures u[i].kind.At? && Reread(u[i + 1]) == P.Ident(name) && Spelled(u, i + 2, list)
  {
    var toks := [P.At, P.Ident(name)] + list;
    assert Reread(u[i + 0]) == toks[0] && Reread(u[i + 1]) == toks[1];
    forall k | 0 <= k < |list| ensures Reread(u[i + 2 + k]) == list[k] && Admitted(u[i + 2 + k].kind) {
      assert Reread(u[i + (k + 2)]) == toks[k + 2] && Admitted(u[i + (k + 2)].kind);
    }
  }

  lemma {:induction false} PartsAreAttribute(u: seq<F.Token>, i: nat, name: string, list: seq<P.Token>)
    requires Spelled(u, i, [P.At, P.Ident(name)] + list) && i + 1 < |u| && u[i + 1].kind.Identifier?
    requires if list == [] then i + 2 < |u| && !u[i + 2].kind.LParen? else ParenRun(list)
    ensures F.IsAttribute(u, i, i + 2 + |list|)
  {
    ListSpelled(u, i, name, list);
    if list != [] { ListIsBalanced(u, i + 2, list); }
  }

  lemma {:induction false} WrittenIsAttribute(u: seq<F.Token>, i: nat, w: P.Written)
    requires StandsAt(u, i, w) && RawsClosed(w)
    ensures F.IsAttribute(u, i, i + |P.PrintArg(w)|)
  {
    PrintedListCloses(w.parens, w.items);
    PartsAreAttribute(u, i, w.name, P.PrintList(w.parens, w.items));
  }

  /** Any written attribute, its arguments nested to any depth, whose raw arguments close their parentheses is visited
    * as one attribute that ends at its last token, behind whatever the visitor lets pass. */
  lemma {:induction false} WrittenIsVisited(u: seq<F.Token>, cont: seq<F.OklAttribute> -> bool,
                                            vs: seq<F.OklAttribute>, i: nat, w: P.Written,
                                            ws: seq<F.OklAttribute>, o: F.Outcome)
    requires F.Tiled(u, vs) && F.KeptGoing(vs, cont) && F.Continued(vs, cont) && F.NextAt(u, vs, i)
    requires StandsAt(u, i, w) && RawsClosed(w) && F.Legal(u, cont, ws, o)
    ensures |ws| > |vs| && ws[..|vs|] == vs && ws[|vs|] == F.Record(u, i, i + |P.PrintArg(w)|)
  {
    WrittenIsAttribute(u, i, w);
    F.NextIsVisited(u, cont, vs, i, i + |P.PrintArg(w)|, ws, o);
  }

  /** The tokens recorded for it are read back as the same attribute tree. */
  lemma {:induction false} VisitedReadsBack(u: seq<F.Token>, i: nat, w: P.Written)
    requires StandsAt(u, i, w) && P.WrittenOk(w)
    ensures var j := i + |P.PrintArg(w)|;
            && F.Record(u, i, j).name == w.name
            && P.Denote(w).Nested?
            && P.ReadAttr(RereadAll(u[i + 2..j]), "okl_" + F.Record(u, i, j).name) == (P.Denote(w).attr, [])
  {
    var toks, list := P.PrintArg(w), P.PrintList(w.parens, w.items);
    var j := i + |toks|;
    ListSpelled(u, i, w.name, list);
    var payload := RereadAll(u[i + 2..j]);
    assert payload == list == list + [];
    P.AttributeReadsBack("okl_" + w.name, w.parens, w.items, []);
  }

  // ----- the payload as text -----

  /** A string escaped once, read as the contents of a string literal. */
  function Unescape(s: string): string {
    if s == "" then ""
    else if s[0] == '\\' && |s| > 1 then [s[1]] + Unescape(s[2..])
    else [s[0]] + Unescape(s[1..])
  }

  predicate PlainChars(s: string) {
    forall k :: 0 <= k < |s| ==> s[k] != '\"' && s[k] != '\\'
  }

  lemma {:induction false} UnescapePlain(s: string, rest: string)
    requires PlainChars(s)
    ensures Unescape(s + rest) == s + Unescape(rest)
  {
    if s == "" {
      assert s + rest == rest;
    } else {
      assert (s + rest)[1..] == s[1..] + rest;
      UnescapePlain(s[1..], rest);
    }
  }

  lemma {:induction false} TrimPlain(body: string)
    requires PlainChars(body)
    ensures F.TrimQuotes("\"" + body + "\"") == body
  {
    var s := body + "\"";
    assert ("\"" + body + "\"")[1..] == s;
    if body == "" {
      assert s[1..] == "" && F.TrimFront(s) == F.TrimFront(s[1..]) == "";
    } else {
      assert s[0] == body[0] && F.TrimFront(s) == s;
      assert s[..|s| - 1] == body && F.TrimBack(s) == F.TrimBack(body) == body;
    }
  }

  /** A string argument comes out of the payload as it was written, if it has no escapes. */
  lemma {:induction false} StringKept(body: string)
    requires PlainChars(body)
    ensures Unescape(F.Spell(F.Token(F.StringLiteral, "\"" + body + "\""))) == "\"" + body + "\""
  {
    TrimPlain(body);
    var e := "\\\"";
    assert Unescape(e) == ['\"'] + Unescape(e[2..]);
    assert e[2..] == "";
    UnescapePlain(body, e);
    var s := e + body + e;
    assert s[0] == '\\' && s[1] == '\"' && s[2..] == body + e;
  }

  /** The payload has no blanks: two words side by side become one. */
  lemma {:induction false} WordsMerge(a: string, b: string)
    ensures F.Spelling([F.Token(F.Identifier, a), F.Token(F.Identifier, b)], 0, 2)
            == F.Spelling([F.Token(F.Identifier, a + b)], 0, 1)
  {
    var s := [F.Token(F.Identifier, a), F.Token(F.Identifier, b)];
    assert F.Spelling(s, 0, 1) == "" + a == a;
    assert F.Spelling(s, 0, 2) == F.Spelling(s, 0, 1) + b;
    assert F.Spelling([F.Token(F.Identifier, a + b)], 0, 1) == "" + (a + b);
  }
}
