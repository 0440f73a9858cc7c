/** `fn` items: `#[attr] pub async fn name(args) -> Type { body }`. */
module ItemFns {
  import opened Wrappers
  import opened Tokens
  import opened AstPaths
  import opened AstTypes
  import opened Attributes
  import opened FnArguments

  /** A visibility marker, parsed by the visibility grammar that callers supply. */
  datatype Visibility = Visibility(span: Span)

  /** A body block, parsed by the block grammar that callers supply. */
  datatype Block = Block(span: Span)

  /** `(arg, arg, ...)`, parsed by the parenthesized-list grammar that callers supply. */
  datatype FnArgs = FnArgs(open: Token, items: seq<(FnArg, Option<Token>)>, close: Token)

  datatype ReturnType = ReturnType(arrow: Token, ty: AstType)

  datatype ItemFn = ItemFn(
    attributes: seq<Attribute>,
    visibility: Option<Visibility>,
    asyncToken: Option<Token>,
    fnToken: Token,
    name: Token,
    args: FnArgs,
    output: Option<ReturnType>,
    body: Block)

  /** The span of an argument list: from `(` to `)`. */
  function ArgsSpan(a: FnArgs): Span {
    Join(a.open.span, a.close.span)
  }

  /** `ItemFn::item_span`: from `async` when present, else from `fn`, to the end of the arguments. */
  function ItemSpan(f: ItemFn): (s: Span)
    ensures s.start == (if f.asyncToken.Some? then f.asyncToken.value.span.start else f.fnToken.span.start)
    ensures s.end == f.args.close.span.end
  {
    match f.asyncToken
    case Some(a) => Join(a.span, ArgsSpan(f.args))
    case None => Join(f.fnToken.span, ArgsSpan(f.args))
  }

  /** `ItemFn::is_instance`: the first argument is `self`. */
  predicate IsInstance(f: ItemFn) {
    |f.args.items| > 0 && f.args.items[0].0.ident.ArgSelf?
  }

  /** `ItemFn::peek`: `fn` or `async`. */
  predicate PeekItemFn(t1: Option<Token>) {
    t1.Some? && t1.value.kind in {Fn, Async}
  }

  /** `ReturnType::peek`: `->` followed by a token that starts a type. */
  predicate PeekReturnType(t1: Option<Token>, t2: Option<Token>) {
    t1.Some? && t1.value.kind == RArrow && PeekType(t2, None)
  }

  /** `Option<ReturnType>`: `->` and a type when the peek holds, else none and nothing consumed. */
  function OptionalReturnType(inp: Input, pos: nat, parsePath: ParseFn<AstPath>): (r: Result<Parsed<Option<ReturnType>>, ParseError>)
    ensures r.Ok? ==> (r.value.value.Some? <==> PeekReturnType(TokenAt(inp, pos), TokenAt(inp, pos + 1)))
    ensures r.Ok? && r.value.value.None? ==> r.value.next == pos
  {
    if PeekReturnType(TokenAt(inp, pos), TokenAt(inp, pos + 1)) then
      match Expect(inp, pos, RArrow)
      case Err(e) => Err(e)
      case Ok(arrow) =>
        match ParseType(inp, arrow.next, parsePath)
        case Err(e) => Err(e)
        case Ok(ty) => Ok(Parsed(Some(ReturnType(arrow.value, ty.value)), ty.next))
    else
      Ok(Parsed(None, pos))
  }

  /** The grammars an `fn` item delegates to. */
  datatype FnGrammar = FnGrammar(
    parseVisibility: ParseFn<Option<Visibility>>,
    parseArgs: ParseFn<FnArgs>,
    parsePath: ParseFn<AstPath>,
    parseBlock: ParseFn<Block>)

  /** The part up to the name: visibility, optional `async`, `fn`, the name. */
  function ParseFnHead(inp: Input, pos: nat, g: FnGrammar): (r: Result<Parsed<(Option<Visibility>, Option<Token>, Token, Token)>, ParseError>)
    ensures r.Ok? ==> g.parseVisibility(inp, pos).Ok? && r.value.value.0 == g.parseVisibility(inp, pos).value.value
    ensures r.Ok? ==> var v := g.parseVisibility(inp, pos).value.next;
      && (r.value.value.1.Some? <==> IsAt(inp, v, Async))
      && r.value.next >= 2
      && r.value.value.2.kind == Fn && IsAt(inp, r.value.next - 2, Fn) && r.value.value.2 == inp.tokens[r.value.next - 2]
      && r.value.value.3.kind == Ident && IsAt(inp, r.value.next - 1, Ident) && r.value.value.3 == inp.tokens[r.value.next - 1]
      && r.value.next == v + (if r.value.value.1.Some? then 3 else 2)
  {
    match g.parseVisibility(inp, pos)
    case Err(e) => Err(e)
    case Ok(vis) =>
      var async_ := Optional(inp, vis.next, Async);
      match Expect(inp, async_.next, Fn)
      case Err(e) => Err(e)
      case Ok(fn_) =>
        match Expect(inp, fn_.next, Ident)
        case Err(e) => Err(e)
        case Ok(name) => Ok(Parsed((vis.value, async_.value, fn_.value, name.value), name.next))
  }

  /**
   * `ItemFn::parse_with_attributes`: the given attributes, then
   * visibility, `async`, `fn`, name, arguments, return type and body, in
   * that fixed order.
   */
  function ParseItemFnWithAttributes(inp: Input, pos: nat, attributes: seq<Attribute>, g: FnGrammar): (r: Result<Parsed<ItemFn>, ParseError>)
    ensures r.Ok? ==> r.value.value.attributes == attributes
    ensures r.Ok? ==> ParseFnHead(inp, pos, g).Ok?
    ensures r.Ok? ==> var head := ParseFnHead(inp, pos, g).value;
      && (r.value.value.visibility, r.value.value.asyncToken, r.value.value.fnToken, r.value.value.name) == head.value
      && g.parseArgs(inp, head.next).Ok? && g.parseArgs(inp, head.next).value.value == r.value.value.args
  {
    match ParseFnHead(inp, pos, g)
    case Err(e) => Err(e)
    case Ok(head) =>
      match g.parseArgs(inp, head.next)
      case Err(e) => Err(e)
      case Ok(args) =>
        match OptionalReturnType(inp, args.next, g.parsePath)
        case Err(e) => Err(e)
        case Ok(output) =>
          match g.parseBlock(inp, output.next)
          case Err(e) => Err(e)
          case Ok(body) =>
            var (vis, async_, fn_, name) := head.value;
            Ok(Parsed(ItemFn(attributes, vis, async_, fn_, name, args.value, output.value, body.value), body.next))
  }

  /**
   * `fn async hello() {}` is rejected: after `fn` the name must be an
   * identifier, and `async` is not one (when no visibility was taken).
   */
  lemma AsyncAfterFnRejected(inp: Input, pos: nat, attributes: seq<Attribute>, g: FnGrammar)
    requires g.parseVisibility(inp, pos) == Ok(Parsed(None, pos))
    requires pos + 1 < |inp.tokens| && inp.tokens[pos].kind == Fn && inp.tokens[pos + 1].kind == Async
    ensures ParseItemFnWithAttributes(inp, pos, attributes, g)
      == Err(ParseError(inp.tokens[pos + 1].span, TokenMismatch(Ident, Async)))
  {
  }

  /**
   * `async fn hello() {}` is accepted when the argument list and body are:
   * the item is async, and its span starts at the `async` token.
   */
  lemma AsyncFnAccepted(inp: Input, pos: nat, attributes: seq<Attribute>, g: FnGrammar)
    requires g.parseVisibility(inp, pos) == Ok(Parsed(None, pos))
    requires pos + 2 < |inp.tokens|
    requires inp.tokens[pos].kind == Async && inp.tokens[pos + 1].kind == Fn && inp.tokens[pos + 2].kind == Ident
    requires g.parseArgs(inp, pos + 3).Ok?
    requires !PeekReturnType(TokenAt(inp, g.parseArgs(inp, pos + 3).value.next), TokenAt(inp, g.parseArgs(inp, pos + 3).value.next + 1))
    requires g.parseBlock(inp, g.parseArgs(inp, pos + 3).value.next).Ok?
    ensures var r := ParseItemFnWithAttributes(inp, pos, attributes, g);
      && r.Ok? && r.value.value.asyncToken == Some(inp.tokens[pos])
      && ItemSpan(r.value.value).start == inp.tokens[pos].span.start
  {
  }

  /** A parsed item starts with a token the `fn` peek accepts, when no visibility was taken. */
  lemma ParsedFnWasPeeked(inp: Input, pos: nat, attributes: seq<Attribute>, g: FnGrammar)
    requires g.parseVisibility(inp, pos).Ok? && g.parseVisibility(inp, pos).value.next == pos
    requires ParseItemFnWithAttributes(inp, pos, attributes, g).Ok?
    ensures PeekItemFn(TokenAt(inp, pos))
  {
  }

  /**
   * An `fn` is an instance function exactly when its first argument was
   * parsed from a `self` token; with no arguments it is not one.
   */
  lemma InstanceIffSelfToken(f: ItemFn, inp: Input, q: nat, attributes: seq<Attribute>, parsePath: ParseFn<AstPath>)
    requires ParseFnArgWithAttributes(inp, q, attributes, parsePath).Ok?
    requires |f.args.items| > 0 ==> f.args.items[0].0 == ParseFnArgWithAttributes(inp, q, attributes, parsePath).value.value
    ensures IsInstance(f) <==> |f.args.items| > 0 && IsAt(inp, q, SelfValue)
  {
  }
}
