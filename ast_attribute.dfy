/**
 * Attributes, `#[path input]` and `#![path input]`, whose input is either
 * `= literal` or a delimited token tree kept as raw tokens.
 *
 * The token-tree parser is given twice: as mutually recursive functions
 * (`ParseDelim`, `ParseTrees`, `ParseTokenTree`) that state what is
 * parsed, and as methods over a `Parser` cursor that follow the source's
 * loop and are proved equal to them. Printing (`into_tokens`) likewise has
 * a function, `DelimTokens`, and methods that append to a `TokenStream`.
 */
module Attributes {
  import opened Wrappers
  import opened Tokens
  import opened AstPaths

  // ---------------------------------------------------------------- peeks

  predicate PeekOpenDelim(t1: Option<Token>) {
    t1.Some? && t1.value.kind.Open?
  }

  predicate PeekCloseDelim(t1: Option<Token>) {
    t1.Some? && t1.value.kind.Close?
  }

  /** `NonDelimiter::peek`: some token that is neither an open nor a close delimiter. */
  predicate PeekNonDelimiter(t1: Option<Token>) {
    t1.Some? && !(PeekOpenDelim(t1) || PeekCloseDelim(t1))
  }

  /** `DelimTokenTree::peek`: an open delimiter followed by some token. */
  predicate PeekDelimTokenTree(t1: Option<Token>, t2: Option<Token>) {
    PeekOpenDelim(t1) && t2.Some?
  }

  predicate PeekTokenTree(t1: Option<Token>, t2: Option<Token>) {
    PeekNonDelimiter(t1) || PeekDelimTokenTree(t1, t2)
  }

  /** `AssignLit::peek`: `=` followed by some token. */
  predicate PeekAssignLit(t1: Option<Token>, t2: Option<Token>) {
    t1.Some? && t1.value.kind == Eq && t2.Some?
  }

  predicate PeekAttrInput(t1: Option<Token>, t2: Option<Token>) {
    PeekAssignLit(t1, t2) || PeekDelimTokenTree(t1, t2)
  }

  /** `Attribute::peek`: `#` followed by `!` or `[`. */
  predicate PeekAttribute(t1: Option<Token>, t2: Option<Token>) {
    && t1.Some? && t1.value.kind == Pound
    && t2.Some? && (t2.value.kind == Bang || t2.value.kind == Open(Bracket))
  }

  /** The peeks at a cursor position. */
  predicate TreeAhead(inp: Input, pos: nat) {
    PeekTokenTree(TokenAt(inp, pos), TokenAt(inp, pos + 1))
  }

  // ---------------------------------------------------------- token trees

  datatype TokenTree = Leaf(token: Token) | Nested(tree: DelimTokenTree)

  datatype DelimTokenTree = DelimTokenTree(open: Token, trees: seq<TokenTree>, close: Token)

  /** A token tree as the parser builds it: leaves are not delimiters, brackets pair up. */
  predicate WellFormedTree(t: TokenTree) {
    match t
    case Leaf(tok) => !tok.kind.Open? && !tok.kind.Close?
    case Nested(d) => WellFormedDelim(d)
  }

  predicate WellFormedDelim(d: DelimTokenTree) {
    && d.open.kind.Open? && d.close.kind.Close?
    && d.open.kind.openDelim == d.close.kind.closeDelim
    && WellFormedTrees(d.trees)
  }

  predicate WellFormedTrees(ts: seq<TokenTree>) {
    forall t :: t in ts ==> WellFormedTree(t)
  }

  /** `DelimTokenTree::span`: from the open token's start to the close token's end. */
  function DelimSpan(d: DelimTokenTree): Span {
    Span(d.open.span.start, d.close.span.end)
  }

  /** What `into_tokens` emits for a tree: its tokens in order. */
  function TreeTokens(t: TokenTree): seq<Token> {
    match t
    case Leaf(tok) => [tok]
    case Nested(d) => DelimTokens(d)
  }

  /** The open token, each inner tree's tokens in order, then the close token. */
  function DelimTokens(d: DelimTokenTree): seq<Token> {
    [d.open] + TreesTokens(d.trees) + [d.close]
  }

  function TreesTokens(ts: seq<TokenTree>): seq<Token> {
    if ts == [] then [] else TreeTokens(ts[0]) + TreesTokens(ts[1..])
  }

  lemma {:induction false} TreesTokensAppend(a: seq<TokenTree>, b: seq<TokenTree>)
    ensures TreesTokens(a + b) == TreesTokens(a) + TreesTokens(b)
    decreases |a|
  {
    if a == [] {
      assert a + b == b;
    } else {
      assert (a + b)[1..] == a[1..] + b;
      TreesTokensAppend(a[1..], b);
    }
  }

  lemma TreesTokensSnoc(ts: seq<TokenTree>, i: nat)
    requires i < |ts|
    ensures TreesTokens(ts[..i + 1]) == TreesTokens(ts[..i]) + TreeTokens(ts[i])
  {
    assert ts[..i + 1] == ts[..i] + [ts[i]];
    TreesTokensAppend(ts[..i], [ts[i]]);
  }

  // ------------------------------------------------------------- parsing

  /** `OpenDelim::parse`: one of `(`, `[`, `{`; anything else is an unexpected token. */
  function ParseOpen(inp: Input, pos: nat): (r: Result<Parsed<Token>, ParseError>)
    ensures r.Ok? <==> PeekOpenDelim(TokenAt(inp, pos))
    ensures r.Ok? ==> r.value == Parsed(inp.tokens[pos], pos + 1)
    ensures r.Err? ==> r.error == ParseError(PeekEof(inp, pos).span, UnexpectedToken(PeekEof(inp, pos).kind))
  {
    if pos < |inp.tokens| && inp.tokens[pos].kind.Open? then Ok(Parsed(inp.tokens[pos], pos + 1))
    else Err(ParseError(PeekEof(inp, pos).span, UnexpectedToken(PeekEof(inp, pos).kind)))
  }

  /** `CloseDelim::parse`: one of `)`, `]`, `}`; anything else is an unexpected token. */
  function ParseClose(inp: Input, pos: nat): (r: Result<Parsed<Token>, ParseError>)
    ensures r.Ok? <==> PeekCloseDelim(TokenAt(inp, pos))
    ensures r.Ok? ==> r.value == Parsed(inp.tokens[pos], pos + 1)
    ensures r.Err? ==> r.error == ParseError(PeekEof(inp, pos).span, UnexpectedToken(PeekEof(inp, pos).kind))
  {
    if pos < |inp.tokens| && inp.tokens[pos].kind.Close? then Ok(Parsed(inp.tokens[pos], pos + 1))
    else Err(ParseError(PeekEof(inp, pos).span, UnexpectedToken(PeekEof(inp, pos).kind)))
  }

  /**
   * `NonDelimiter::parse`: the next token when it is no delimiter, else an
   * unexpected delimiter. At the end of input the source unwraps a missing
   * token, so a token must be there.
   */
  function ParseNonDelimiter(inp: Input, pos: nat): (r: Result<Parsed<Token>, ParseError>)
    requires pos < |inp.tokens|
    ensures r.Ok? <==> PeekNonDelimiter(TokenAt(inp, pos))
    ensures r.Ok? ==> r.value == Parsed(inp.tokens[pos], pos + 1)
    ensures r.Err? ==> r.error == ParseError(inp.tokens[pos].span, UnexpectedDelimiter(inp.tokens[pos].kind))
  {
    if PeekNonDelimiter(TokenAt(inp, pos)) then Ok(Parsed(inp.tokens[pos], pos + 1))
    else Err(ParseError(inp.tokens[pos].span, UnexpectedDelimiter(inp.tokens[pos].kind)))
  }

  /**
   * `DelimTokenTree::parse`: an open delimiter, token trees while one is
   * ahead, a close delimiter, which must be of the open one's kind;
   * otherwise an unexpected delimiter carrying the close token's kind.
   * What is parsed is well formed and prints back to the tokens consumed
   * (`DelimConsumed`).
   */
  function ParseDelim(inp: Input, pos: nat): (r: Result<Parsed<DelimTokenTree>, ParseError>)
    requires pos <= |inp.tokens|
    ensures r.Ok? ==> pos < r.value.next <= |inp.tokens|
    decreases |inp.tokens| - pos, 0
  {
    match ParseOpen(inp, pos)
    case Err(e) => Err(e)
    case Ok(open) =>
      match ParseTrees(inp, open.next)
      case Err(e) => Err(e)
      case Ok(trees) =>
        match ParseClose(inp, trees.next)
        case Err(e) => Err(e)
        case Ok(close) =>
          var d := DelimTokenTree(open.value, trees.value, close.value);
          if open.value.kind.openDelim == close.value.kind.closeDelim then
            Ok(Parsed(d, close.next))
          else
            Err(ParseError(DelimSpan(d), UnexpectedDelimiter(close.value.kind)))
  }

  /**
   * The loop of `DelimTokenTree::parse`: token trees while one is ahead.
   * It stops where no token tree starts.
   */
  function ParseTrees(inp: Input, pos: nat): (r: Result<Parsed<seq<TokenTree>>, ParseError>)
    requires pos <= |inp.tokens|
    ensures r.Ok? ==> pos <= r.value.next <= |inp.tokens|
    ensures r.Ok? ==> !TreeAhead(inp, r.value.next)
    decreases |inp.tokens| - pos, 2
  {
    if TreeAhead(inp, pos) then
      match ParseTokenTree(inp, pos)
      case Err(e) => Err(e)
      case Ok(t) =>
        match ParseTrees(inp, t.next)
        case Err(e) => Err(e)
        case Ok(ts) => Ok(Parsed([t.value] + ts.value, ts.next))
    else
      Ok(Parsed([], pos))
  }

  /** `TokenTree::parse`: a non-delimiter token, else a delimited tree, else an unexpected token. */
  function ParseTokenTree(inp: Input, pos: nat): (r: Result<Parsed<TokenTree>, ParseError>)
    requires pos <= |inp.tokens|
    ensures r.Ok? ==> pos < r.value.next <= |inp.tokens|
    ensures r.Err? && !TreeAhead(inp, pos) ==> r.error.kind == UnexpectedToken(PeekEof(inp, pos).kind)
    decreases |inp.tokens| - pos, 1
  {
    if PeekNonDelimiter(TokenAt(inp, pos)) then
      match ParseNonDelimiter(inp, pos)
      case Err(e) => Err(e)
      case Ok(t) => Ok(Parsed(Leaf(t.value), t.next))
    else if PeekDelimTokenTree(TokenAt(inp, pos), TokenAt(inp, pos + 1)) then
      match ParseDelim(inp, pos)
      case Err(e) => Err(e)
      case Ok(d) => Ok(Parsed(Nested(d.value), d.next))
    else
      Err(ParseError(PeekEof(inp, pos).span, UnexpectedToken(PeekEof(inp, pos).kind)))
  }

  // --------------------------------------------- parsing, then printing

  /** A parsed delimited tree is well formed and prints back to the tokens consumed. */
  lemma {:induction false} DelimConsumed(inp: Input, pos: nat)
    requires pos <= |inp.tokens|
    ensures var r := ParseDelim(inp, pos);
      r.Ok? ==> WellFormedDelim(r.value.value) && DelimTokens(r.value.value) == inp.tokens[pos..r.value.next]
    decreases |inp.tokens| - pos, 0
  {
    var r := ParseDelim(inp, pos);
    if r.Ok? {
      var open := ParseOpen(inp, pos).value;
      TreesConsumed(inp, open.next);
      var trees := ParseTrees(inp, open.next).value;
      assert inp.tokens[pos..trees.next + 1]
        == [inp.tokens[pos]] + inp.tokens[pos + 1..trees.next] + [inp.tokens[trees.next]];
    }
  }

  /** Parsed token trees are well formed and print back to the tokens consumed. */
  lemma {:induction false} TreesConsumed(inp: Input, pos: nat)
    requires pos <= |inp.tokens|
    ensures var r := ParseTrees(inp, pos);
      r.Ok? ==> WellFormedTrees(r.value.value) && TreesTokens(r.value.value) == inp.tokens[pos..r.value.next]
    decreases |inp.tokens| - pos, 2
  {
    var r := ParseTrees(inp, pos);
    if r.Ok? && TreeAhead(inp, pos) {
      TreeConsumed(inp, pos);
      var t := ParseTokenTree(inp, pos).value;
      TreesConsumed(inp, t.next);
      var ts := ParseTrees(inp, t.next).value;
      assert r.value.value == [t.value] + ts.value;
      assert ([t.value] + ts.value)[1..] == ts.value;
      assert inp.tokens[pos..ts.next] == inp.tokens[pos..t.next] + inp.tokens[t.next..ts.next];
    }
  }

  /** A parsed token tree is well formed and prints back to the tokens consumed. */
  lemma {:induction false} TreeConsumed(inp: Input, pos: nat)
    requires pos <= |inp.tokens|
    ensures var r := ParseTokenTree(inp, pos);
      r.Ok? ==> WellFormedTree(r.value.value) && TreeTokens(r.value.value) == inp.tokens[pos..r.value.next]
    decreases |inp.tokens| - pos, 1
  {
    if !PeekNonDelimiter(TokenAt(inp, pos)) && PeekDelimTokenTree(TokenAt(inp, pos), TokenAt(inp, pos + 1)) {
      DelimConsumed(inp, pos);
    }
  }

  // ---------------------------------------------------- printing, parsing

  /** The tokens at `pos..pos + |xs|` of the input are `xs`. */
  predicate TokensAt(inp: Input, pos: nat, xs: seq<Token>) {
    pos + |xs| <= |inp.tokens| && inp.tokens[pos..pos + |xs|] == xs
  }

  lemma TokensAtSplit(inp: Input, pos: nat, a: seq<Token>, b: seq<Token>)
    requires TokensAt(inp, pos, a + b)
    ensures TokensAt(inp, pos, a) && TokensAt(inp, pos + |a|, b)
  {
    assert inp.tokens[pos..pos + |a|] == (a + b)[..|a|];
    assert inp.tokens[pos + |a|..pos + |a| + |b|] == (a + b)[|a|..];
  }

  /**
   * Printing then parsing gives the tree back: on the tokens of a well
   * formed tree, `DelimTokenTree::parse` returns that tree and consumes
   * exactly its tokens, whatever follows.
   */
  lemma {:induction false} ParsePrintedDelim(inp: Input, pos: nat, d: DelimTokenTree)
    requires WellFormedDelim(d) && TokensAt(inp, pos, DelimTokens(d))
    ensures ParseDelim(inp, pos) == Ok(Parsed(d, pos + |DelimTokens(d)|))
    decreases d, 1
  {
    ParsePrintedInner(inp, pos, d);
  }

  /** The open token, the inner trees and the close token of a printed tree are read back in turn. */
  lemma {:induction false} ParsePrintedInner(inp: Input, pos: nat, d: DelimTokenTree)
    requires d.open.kind.Open? && d.close.kind.Close? && WellFormedTrees(d.trees)
    requires TokensAt(inp, pos, DelimTokens(d))
    ensures ParseOpen(inp, pos) == Ok(Parsed(d.open, pos + 1))
    ensures ParseTrees(inp, pos + 1) == Ok(Parsed(d.trees, pos + 1 + |TreesTokens(d.trees)|))
    ensures ParseClose(inp, pos + 1 + |TreesTokens(d.trees)|) == Ok(Parsed(d.close, pos + |DelimTokens(d)|))
    decreases d, 0
  {
    var inner := TreesTokens(d.trees);
    TokensAtSplit(inp, pos, [d.open] + inner, [d.close]);
    TokensAtSplit(inp, pos, [d.open], inner);
    assert inp.tokens[pos] == d.open by {
      assert inp.tokens[pos] == inp.tokens[pos..pos + 1][0];
    }
    assert inp.tokens[pos + 1 + |inner|] == d.close by {
      assert inp.tokens[pos + 1 + |inner|] == inp.tokens[pos + 1 + |inner|..pos + 1 + |inner| + 1][0];
    }
    ParsePrintedTrees(inp, pos + 1, d.trees);
  }

  lemma {:induction false} ParsePrintedTrees(inp: Input, pos: nat, ts: seq<TokenTree>)
    requires WellFormedTrees(ts) && TokensAt(inp, pos, TreesTokens(ts))
    requires PeekCloseDelim(TokenAt(inp, pos + |TreesTokens(ts)|))
    ensures ParseTrees(inp, pos) == Ok(Parsed(ts, pos + |TreesTokens(ts)|))
    decreases ts, 2
  {
    if ts == [] {
      assert !TreeAhead(inp, pos);
    } else {
      ParsePrintedTreesCons(inp, pos, ts);
    }
  }

  /** The non-empty case of `ParsePrintedTrees`: the first tree, then the others. */
  lemma {:induction false} ParsePrintedTreesCons(inp: Input, pos: nat, ts: seq<TokenTree>)
    requires ts != [] && WellFormedTrees(ts) && TokensAt(inp, pos, TreesTokens(ts))
    requires PeekCloseDelim(TokenAt(inp, pos + |TreesTokens(ts)|))
    ensures ParseTrees(inp, pos) == Ok(Parsed(ts, pos + |TreesTokens(ts)|))
    decreases ts, 1
  {
    var next := ParsePrintedFirst(inp, pos, ts);
    ParsePrintedTrees(inp, next, ts[1..]);
    ParseTreesStep(inp, pos, ts, next, pos + |TreesTokens(ts)|);
  }

  /**
   * The first of several printed trees is read back, and the others are
   * printed right after it.
   */
  lemma {:induction false} ParsePrintedFirst(inp: Input, pos: nat, ts: seq<TokenTree>) returns (next: nat)
    requires ts != [] && WellFormedTrees(ts) && TokensAt(inp, pos, TreesTokens(ts))
    ensures next == pos + |TreeTokens(ts[0])|
    ensures TreeAhead(inp, pos) && ParseTokenTree(inp, pos) == Ok(Parsed(ts[0], next))
    ensures WellFormedTrees(ts[1..]) && TokensAt(inp, next, TreesTokens(ts[1..]))
    ensures next + |TreesTokens(ts[1..])| == pos + |TreesTokens(ts)|
    decreases ts, 0
  {
    var head := TreeTokens(ts[0]);
    var tail := TreesTokens(ts[1..]);
    assert TreesTokens(ts) == head + tail;
    TokensAtSplit(inp, pos, head, tail);
    assert ts[0] in ts;
    ParsePrintedTree(inp, pos, ts[0]);
    assert WellFormedTrees(ts[1..]) by {
      forall t | t in ts[1..] ensures WellFormedTree(t) {
        assert t in ts;
      }
    }
    next := pos + |head|;
  }

  /** One pass of the loop of `DelimTokenTree::parse`: a tree, then the rest of the trees. */
  lemma ParseTreesStep(inp: Input, pos: nat, ts: seq<TokenTree>, mid: nat, next: nat)
    requires pos <= |inp.tokens| && ts != [] && TreeAhead(inp, pos)
    requires ParseTokenTree(inp, pos) == Ok(Parsed(ts[0], mid))
    requires ParseTrees(inp, mid) == Ok(Parsed(ts[1..], next))
    ensures ParseTrees(inp, pos) == Ok(Parsed(ts, next))
  {
    assert [ts[0]] + ts[1..] == ts;
  }

  lemma {:induction false} ParsePrintedTree(inp: Input, pos: nat, t: TokenTree)
    requires WellFormedTree(t) && TokensAt(inp, pos, TreeTokens(t))
    ensures TreeAhead(inp, pos)
    ensures ParseTokenTree(inp, pos) == Ok(Parsed(t, pos + |TreeTokens(t)|))
    decreases t
  {
    assert inp.tokens[pos] == TreeTokens(t)[0] by {
      assert inp.tokens[pos] == inp.tokens[pos..pos + |TreeTokens(t)|][0];
    }
    match t
    case Leaf(tok) =>
    case Nested(d) =>
      ParsePrintedDelim(inp, pos, d);
  }

  /**
   * A tree whose close delimiter is of another kind than its open one is
   * rejected, with an unexpected delimiter carrying the close token's kind
   * at the tree's span.
   */
  lemma MismatchedCloseIsRejected(inp: Input, pos: nat, d: DelimTokenTree)
    requires d.open.kind.Open? && d.close.kind.Close? && WellFormedTrees(d.trees)
    requires d.open.kind.openDelim != d.close.kind.closeDelim
    requires TokensAt(inp, pos, DelimTokens(d))
    ensures ParseDelim(inp, pos) == Err(ParseError(DelimSpan(d), UnexpectedDelimiter(d.close.kind)))
  {
    ParsePrintedInner(inp, pos, d);
  }

  // ------------------------------------------------- the parser's cursor

  /** The accumulated trees in front of the rest of the loop's result. */
  function Prepend(acc: seq<TokenTree>, r: Result<Parsed<seq<TokenTree>>, ParseError>): Result<Parsed<seq<TokenTree>>, ParseError> {
    if r.Ok? then Ok(Parsed(acc + r.value.value, r.value.next)) else r
  }

  /** Parsing one more tree moves it from the rest of the result to the parsed ones. */
  lemma PrependOneMore(acc: seq<TokenTree>, t: TokenTree, r: Result<Parsed<seq<TokenTree>>, ParseError>)
    ensures Prepend(acc, Prepend([t], r)) == Prepend(acc + [t], r)
  {
    if r.Ok? {
      assert acc + ([t] + r.value.value) == (acc + [t]) + r.value.value;
    }
  }

  /** `DelimTokenTree::parse` on the cursor, with the source's loop. */
  method ParseDelimAt(p: Parser) returns (r: Result<DelimTokenTree, ParseError>)
    requires p.pos <= |p.input.tokens|
    modifies p
    ensures Agrees(r, ParseDelim(p.input, old(p.pos)), p.pos)
    decreases |p.input.tokens| - p.pos, 0
  {
    ghost var start := p.pos;
    var open := p.Parse(ParseOpen);
    if open.Err? {
      return Err(open.error);
    }
    ghost var first := p.pos;
    var trees: seq<TokenTree> := [];
    if ParseTrees(p.input, first).Ok? {
      assert [] + ParseTrees(p.input, first).value.value == ParseTrees(p.input, first).value.value;
    }
    while TreeAhead(p.input, p.pos)
      invariant first <= p.pos <= |p.input.tokens|
      invariant ParseTrees(p.input, first) == Prepend(trees, ParseTrees(p.input, p.pos))
      decreases |p.input.tokens| - p.pos
    {
      ghost var here := p.pos;
      var t := ParseTokenTreeAt(p);
      if t.Err? {
        return Err(t.error);
      }
      assert ParseTrees(p.input, here) == Prepend([t.value], ParseTrees(p.input, p.pos));
      PrependOneMore(trees, t.value, ParseTrees(p.input, p.pos));
      trees := trees + [t.value];
    }
    assert ParseTrees(p.input, p.pos) == Ok(Parsed([], p.pos));
    assert trees + [] == trees;
    assert ParseTrees(p.input, first) == Ok(Parsed(trees, p.pos));
    var close := p.Parse(ParseClose);
    if close.Err? {
      return Err(close.error);
    }
    var d := DelimTokenTree(open.value, trees, close.value);
    if open.value.kind.openDelim == close.value.kind.closeDelim {
      r := Ok(d);
    } else {
      r := Err(ParseError(DelimSpan(d), UnexpectedDelimiter(close.value.kind)));
    }
  }

  /** `TokenTree::parse` on the cursor. */
  method ParseTokenTreeAt(p: Parser) returns (r: Result<TokenTree, ParseError>)
    requires p.pos <= |p.input.tokens|
    modifies p
    ensures Agrees(r, ParseTokenTree(p.input, old(p.pos)), p.pos)
    decreases |p.input.tokens| - p.pos, 1
  {
    if PeekNonDelimiter(p.Peek1()) {
      r := Ok(Leaf(p.input.tokens[p.pos]));
      p.pos := p.pos + 1;
    } else if PeekDelimTokenTree(p.Peek1(), p.Peek2()) {
      var d := ParseDelimAt(p);
      r := if d.Ok? then Ok(Nested(d.value)) else Err(d.error);
    } else {
      var t := PeekEof(p.input, p.pos);
      r := Err(ParseError(t.span, UnexpectedToken(t.kind)));
    }
  }

  // ------------------------------------------------------- token streams

  /** The stream that `into_tokens` appends to. */
  class TokenStream {
    var tokens: seq<Token>

    constructor ()
      ensures tokens == []
    {
      tokens := [];
    }

    method Push(t: Token)
      modifies this
      ensures tokens == old(tokens) + [t]
    {
      tokens := tokens + [t];
    }

    /** Push each of `ts` in order. */
    method Append(ts: seq<Token>)
      modifies this
      ensures tokens == old(tokens) + ts
    {
      for i := 0 to |ts|
        invariant tokens == old(tokens) + ts[..i]
      {
        assert ts[..i + 1] == ts[..i] + [ts[i]];
        Push(ts[i]);
      }
      assert ts[..|ts|] == ts;
    }
  }

  /** `DelimTokenTree::into_tokens`: appends the open token, each inner tree, the close token. */
  method DelimIntoTokens(d: DelimTokenTree, stream: TokenStream)
    modifies stream
    ensures stream.tokens == old(stream.tokens) + DelimTokens(d)
    decreases d, 0
  {
    stream.Push(d.open);
    for i := 0 to |d.trees|
      invariant stream.tokens == old(stream.tokens) + [d.open] + TreesTokens(d.trees[..i])
    {
      TreeIntoTokens(d.trees[i], stream);
      TreesTokensSnoc(d.trees, i);
    }
    assert d.trees[..|d.trees|] == d.trees;
    stream.Push(d.close);
  }

  /** `TokenTree::into_tokens`. */
  method TreeIntoTokens(t: TokenTree, stream: TokenStream)
    modifies stream
    ensures stream.tokens == old(stream.tokens) + TreeTokens(t)
    decreases t, 1
  {
    match t
    case Leaf(tok) => stream.Push(tok);
    case Nested(d) => DelimIntoTokens(d, stream);
  }

  // ------------------------------------------------------ attribute input

  /** A literal, parsed by the literal grammar that callers supply; kept as its tokens and span. */
  datatype Lit = Lit(tokens: seq<Token>, span: Span)

  datatype AttrInput = InputTree(tree: DelimTokenTree) | InputAssign(equal: Token, lit: Lit)

  /** `AttrInput::into_tokens`. */
  function AttrInputTokens(i: AttrInput): seq<Token> {
    match i
    case InputTree(d) => DelimTokens(d)
    case InputAssign(equal, lit) => [equal] + lit.tokens
  }

  /** `AttrInput::span`: the tree's span, or from `=` to the literal's end. */
  function AttrInputSpan(i: AttrInput): Span {
    match i
    case InputTree(d) => DelimSpan(d)
    case InputAssign(equal, lit) => Join(equal.span, lit.span)
  }

  /** `AssignLit::parse`: `=` then a literal. */
  function ParseAssignLit(inp: Input, pos: nat, parseLit: ParseFn<Lit>): (r: Result<Parsed<AttrInput>, ParseError>)
    ensures r.Ok? ==> IsAt(inp, pos, Eq) && r.value.value.InputAssign?
    ensures r.Ok? ==> r.value.value.equal == inp.tokens[pos] && parseLit(inp, pos + 1).Ok?
    ensures r.Ok? ==> r.value == Parsed(InputAssign(inp.tokens[pos], parseLit(inp, pos + 1).value.value), parseLit(inp, pos + 1).value.next)
  {
    match Expect(inp, pos, Eq)
    case Err(e) => Err(e)
    case Ok(eq) =>
      match parseLit(inp, eq.next)
      case Err(e) => Err(e)
      case Ok(lit) => Ok(Parsed(InputAssign(eq.value, lit.value), lit.next))
  }

  /**
   * `AttrInput::parse`: an assignment when `=` and a further token are
   * ahead, else a delimited tree when one is ahead, else an unexpected
   * token naming what was found.
   */
  function ParseAttrInput(inp: Input, pos: nat, parseLit: ParseFn<Lit>): (r: Result<Parsed<AttrInput>, ParseError>)
    ensures PeekAssignLit(TokenAt(inp, pos), TokenAt(inp, pos + 1)) ==> r == ParseAssignLit(inp, pos, parseLit)
    ensures r.Ok? && r.value.value.InputTree? <==>
      !PeekAssignLit(TokenAt(inp, pos), TokenAt(inp, pos + 1)) && PeekDelimTokenTree(TokenAt(inp, pos), TokenAt(inp, pos + 1))
      && ParseDelim(inp, pos).Ok?
    ensures !PeekAttrInput(TokenAt(inp, pos), TokenAt(inp, pos + 1)) ==>
      r == Err(ParseError(PeekEof(inp, pos).span, UnexpectedToken(PeekEof(inp, pos).kind)))
  {
    if PeekAssignLit(TokenAt(inp, pos), TokenAt(inp, pos + 1)) then
      ParseAssignLit(inp, pos, parseLit)
    else if PeekDelimTokenTree(TokenAt(inp, pos), TokenAt(inp, pos + 1)) then
      match ParseDelim(inp, pos)
      case Err(e) => Err(e)
      case Ok(d) => Ok(Parsed(InputTree(d.value), d.next))
    else
      Err(ParseError(PeekEof(inp, pos).span, UnexpectedToken(PeekEof(inp, pos).kind)))
  }

  /** `Option<AttrInput>`: an input when one is ahead, else none and nothing consumed. */
  function OptionalAttrInput(inp: Input, pos: nat, parseLit: ParseFn<Lit>): (r: Result<Parsed<Option<AttrInput>>, ParseError>)
    ensures !PeekAttrInput(TokenAt(inp, pos), TokenAt(inp, pos + 1)) ==> r == Ok(Parsed(None, pos))
    ensures r.Ok? && r.value.value.None? ==> r.value.next == pos
    ensures r.Ok? && r.value.value.Some? ==> ParseAttrInput(inp, pos, parseLit) == Ok(Parsed(r.value.value.value, r.value.next))
  {
    if PeekAttrInput(TokenAt(inp, pos), TokenAt(inp, pos + 1)) then
      match ParseAttrInput(inp, pos, parseLit)
      case Err(e) => Err(e)
      case Ok(i) => Ok(Parsed(Some(i.value), i.next))
    else
      Ok(Parsed(None, pos))
  }

  /** A literal parser that prints back the tokens it consumed, on this input. */
  ghost predicate LitPrintsParsed(parseLit: ParseFn<Lit>, inp: Input) {
    forall q: nat :: parseLit(inp, q).Ok? ==>
      q <= parseLit(inp, q).value.next <= |inp.tokens|
      && parseLit(inp, q).value.value.tokens == inp.tokens[q..parseLit(inp, q).value.next]
  }

  /** The parsed input prints back to the tokens consumed. */
  lemma AttrInputPrintsConsumed(inp: Input, pos: nat, parseLit: ParseFn<Lit>)
    requires LitPrintsParsed(parseLit, inp)
    requires pos <= |inp.tokens|
    ensures var r := ParseAttrInput(inp, pos, parseLit);
      r.Ok? ==> pos < r.value.next <= |inp.tokens| && AttrInputTokens(r.value.value) == inp.tokens[pos..r.value.next]
  {
    var r := ParseAttrInput(inp, pos, parseLit);
    if r.Ok? && r.value.value.InputTree? {
      DelimConsumed(inp, pos);
    }
    if r.Ok? && r.value.value.InputAssign? {
      var lit := parseLit(inp, pos + 1);
      assert inp.tokens[pos..lit.value.next] == [inp.tokens[pos]] + inp.tokens[pos + 1..lit.value.next];
    }
  }

  // ------------------------------------------------------------ attributes

  /** `#!` marks an outer attribute; a bare `#` an inner one. */
  datatype AttrStyle = Inner | Outer(bang: Token)

  /** `From<Option<Bang>> for AttrStyle`. */
  function StyleFrom(bang: Option<Token>): (s: AttrStyle)
    ensures s.Outer? <==> bang.Some?
    ensures s.Outer? ==> s.bang == bang.value
  {
    match bang
    case Some(b) => Outer(b)
    case None => Inner
  }

  /** `AttrStyle::into_tokens`: the bang for `Outer`, nothing for `Inner`. */
  function StyleTokens(s: AttrStyle): seq<Token> {
    match s
    case Inner => []
    case Outer(b) => [b]
  }

  /** Converting the optional bang to a style and printing the style gives back the optional bang. */
  lemma StyleRoundTrip(bang: Option<Token>)
    ensures StyleTokens(StyleFrom(bang)) == OptionTokens(bang)
  {
  }

  /** An attribute; its input is kept as the token stream it printed to. */
  datatype Attribute = Attribute(
    hash: Token,
    style: AttrStyle,
    open: Token,
    path: AstPath,
    input: seq<Token>,
    inputSpan: Span,
    close: Token)

  /** The token stream an optional input prints to. */
  function InputStream(input: Option<AttrInput>): seq<Token> {
    if input.Some? then AttrInputTokens(input.value) else []
  }

  function InputStreamSpan(input: Option<AttrInput>): Span {
    if input.Some? then AttrInputSpan(input.value) else Span(0, 0)
  }

  /** `Attribute::span`: from `#` to `]`. */
  function AttributeSpan(a: Attribute): Span {
    Join(a.hash.span, a.close.span)
  }

  /** `Attribute::into_tokens`: each field's tokens in order. */
  function AttributeTokens(a: Attribute): seq<Token> {
    [a.hash] + StyleTokens(a.style) + [a.open] + PathTokens(a.path) + a.input + [a.close]
  }

  /** The head of an attribute: `#`, an optional `!`, `[`. */
  function ParseAttrHead(inp: Input, pos: nat): (r: Result<Parsed<(Token, AttrStyle, Token)>, ParseError>)
    ensures r.Ok? ==> IsAt(inp, pos, Pound) && pos < r.value.next <= |inp.tokens|
    ensures r.Ok? ==> (r.value.value.1.Outer? <==> IsAt(inp, pos + 1, Bang))
    ensures r.Ok? ==> r.value.value.2.kind == Open(Bracket)
    ensures r.Ok? ==> [r.value.value.0] + StyleTokens(r.value.value.1) + [r.value.value.2] == inp.tokens[pos..r.value.next]
  {
    match Expect(inp, pos, Pound)
    case Err(e) => Err(e)
    case Ok(hash) =>
      var bang := Optional(inp, hash.next, Bang);
      match Expect(inp, bang.next, Open(Bracket))
      case Err(e) => Err(e)
      case Ok(open) =>
        HeadTokens(inp, pos, bang);
        Ok(Parsed((hash.value, StyleFrom(bang.value), open.value), open.next))
  }

  /** The tokens of a head are `#`, the optional `!` and the token after them. */
  lemma HeadTokens(inp: Input, pos: nat, bang: Parsed<Option<Token>>)
    requires bang == Optional(inp, pos + 1, Bang)
    requires pos < |inp.tokens| && bang.next < |inp.tokens|
    ensures inp.tokens[pos..bang.next + 1] == [inp.tokens[pos]] + StyleTokens(StyleFrom(bang.value)) + [inp.tokens[bang.next]]
  {
    if bang.value.Some? {
      assert inp.tokens[pos..bang.next + 1] == [inp.tokens[pos], inp.tokens[pos + 1], inp.tokens[pos + 2]];
    } else {
      assert inp.tokens[pos..bang.next + 1] == [inp.tokens[pos], inp.tokens[pos + 1]];
    }
  }

  /** The tail of an attribute: an optional input, `]`. */
  function ParseAttrTail(inp: Input, pos: nat, parseLit: ParseFn<Lit>): (r: Result<Parsed<(Option<AttrInput>, Token)>, ParseError>)
    ensures r.Ok? ==> OptionalAttrInput(inp, pos, parseLit).Ok?
    ensures r.Ok? ==> var input := OptionalAttrInput(inp, pos, parseLit).value;
      && r.value.value.0 == input.value
      && input.next < |inp.tokens|
      && r.value == Parsed((input.value, inp.tokens[input.next]), input.next + 1)
    ensures r.Ok? ==> r.value.value.1.kind == Close(Bracket)
  {
    match OptionalAttrInput(inp, pos, parseLit)
    case Err(e) => Err(e)
    case Ok(input) =>
      match Expect(inp, input.next, Close(Bracket))
      case Err(e) => Err(e)
      case Ok(close) => Ok(Parsed((input.value, close.value), close.next))
  }

  /**
   * `Attribute::parse`: `#`, an optional `!`, `[`, a path (by the path
   * grammar that callers supply), an optional input printed to tokens,
   * `]`. Without an input the stream is empty with a default span.
   */
  function ParseAttribute(inp: Input, pos: nat, parsePath: ParseFn<AstPath>, parseLit: ParseFn<Lit>): (r: Result<Parsed<Attribute>, ParseError>)
    ensures r.Ok? ==> IsAt(inp, pos, Pound) && r.value.value.hash == inp.tokens[pos]
    ensures r.Ok? ==> r.value.value.open.kind == Open(Bracket) && r.value.value.close.kind == Close(Bracket)
  {
    match ParseAttrHead(inp, pos)
    case Err(e) => Err(e)
    case Ok(head) =>
      match parsePath(inp, head.next)
      case Err(e) => Err(e)
      case Ok(path) =>
        match ParseAttrTail(inp, path.next, parseLit)
        case Err(e) => Err(e)
        case Ok(tail) =>
          var (hash, style, open) := head.value;
          var (input, close) := tail.value;
          Ok(Parsed(Attribute(hash, style, open, path.value, InputStream(input), InputStreamSpan(input), close), tail.next))
  }

  /**
   * A parsed attribute started where the attribute peek holds: `#` then
   * `!` or `[`; and its style is outer exactly when the `!` was there.
   */
  lemma ParsedAttributeWasPeeked(inp: Input, pos: nat, parsePath: ParseFn<AstPath>, parseLit: ParseFn<Lit>)
    ensures var r := ParseAttribute(inp, pos, parsePath, parseLit);
      r.Ok? ==> (PeekAttribute(TokenAt(inp, pos), TokenAt(inp, pos + 1))
                 && (r.value.value.style.Outer? <==> IsAt(inp, pos + 1, Bang)))
  {
    var r := ParseAttribute(inp, pos, parsePath, parseLit);
    if r.Ok? {
      var head := ParseAttrHead(inp, pos).value;
      assert inp.tokens[pos + 1] == inp.tokens[pos..head.next][1];
    }
  }

  /** A path parser that prints back the tokens it consumed, on this input. */
  ghost predicate PathPrintsParsed(parsePath: ParseFn<AstPath>, inp: Input) {
    forall q: nat :: parsePath(inp, q).Ok? ==>
      q <= parsePath(inp, q).value.next <= |inp.tokens|
      && PathTokens(parsePath(inp, q).value.value) == inp.tokens[q..parsePath(inp, q).value.next]
  }

  /**
   * When the path and literal grammars print back what they consume, so
   * does the attribute parse: printing the attribute gives exactly the
   * tokens it was parsed from.
   */
  lemma AttributePrintsConsumed(inp: Input, pos: nat, parsePath: ParseFn<AstPath>, parseLit: ParseFn<Lit>)
    requires PathPrintsParsed(parsePath, inp) && LitPrintsParsed(parseLit, inp)
    ensures var r := ParseAttribute(inp, pos, parsePath, parseLit);
      r.Ok? ==> pos < r.value.next <= |inp.tokens| && AttributeTokens(r.value.value) == inp.tokens[pos..r.value.next]
  {
    var r := ParseAttribute(inp, pos, parsePath, parseLit);
    if r.Ok? {
      var head, path, input := ParseAttributeParts(inp, pos, parsePath, parseLit);
      var a := r.value.value;
      InputStreamPrintsConsumed(inp, path.next, parseLit);
      AttributeTokensAt(a, inp.tokens, pos, head.next, path.next, input.next);
    }
  }

  /** The head, path and optional input that a successful attribute parse is made of. */
  lemma ParseAttributeParts(inp: Input, pos: nat, parsePath: ParseFn<AstPath>, parseLit: ParseFn<Lit>)
    returns (head: Parsed<(Token, AttrStyle, Token)>, path: Parsed<AstPath>, input: Parsed<Option<AttrInput>>)
    requires ParseAttribute(inp, pos, parsePath, parseLit).Ok?
    ensures ParseAttrHead(inp, pos) == Ok(head) && parsePath(inp, head.next) == Ok(path)
    ensures OptionalAttrInput(inp, path.next, parseLit) == Ok(input) && input.next < |inp.tokens|
    ensures ParseAttribute(inp, pos, parsePath, parseLit).value
      == Parsed(Attribute(head.value.0, head.value.1, head.value.2, path.value,
                          InputStream(input.value), InputStreamSpan(input.value), inp.tokens[input.next]),
                input.next + 1)
  {
    head := ParseAttrHead(inp, pos).value;
    path := parsePath(inp, head.next).value;
    input := OptionalAttrInput(inp, path.next, parseLit).value;
  }

  /** An attribute whose parts were read from consecutive slices prints as the whole slice. */
  lemma AttributeTokensAt(a: Attribute, s: seq<Token>, i: nat, j: nat, k: nat, l: nat)
    requires i <= j <= k <= l < |s|
    requires [a.hash] + StyleTokens(a.style) + [a.open] == s[i..j]
    requires PathTokens(a.path) == s[j..k] && a.input == s[k..l] && a.close == s[l]
    ensures AttributeTokens(a) == s[i..l + 1]
  {
    SliceChain(s, i, j, k, l);
  }

  lemma InputStreamPrintsConsumed(inp: Input, pos: nat, parseLit: ParseFn<Lit>)
    requires LitPrintsParsed(parseLit, inp)
    requires pos <= |inp.tokens|
    ensures var r := OptionalAttrInput(inp, pos, parseLit);
      r.Ok? ==> pos <= r.value.next <= |inp.tokens| && InputStream(r.value.value) == inp.tokens[pos..r.value.next]
  {
    AttrInputPrintsConsumed(inp, pos, parseLit);
  }

  lemma SliceChain(s: seq<Token>, a: nat, b: nat, c: nat, d: nat)
    requires a <= b <= c <= d < |s|
    ensures s[a..d + 1] == s[a..b] + s[b..c] + s[c..d] + [s[d]]
  {
  }

  /** `Attribute::into_tokens` on a stream. */
  method AttributeIntoTokens(a: Attribute, stream: TokenStream)
    modifies stream
    ensures stream.tokens == old(stream.tokens) + AttributeTokens(a)
  {
    stream.Push(a.hash);
    if a.style.Outer? {
      stream.Push(a.style.bang);
    }
    stream.Push(a.open);
    stream.Append(PathTokens(a.path));
    stream.Append(a.input);
    stream.Push(a.close);
  }
}
