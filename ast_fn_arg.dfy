/** Function arguments: `self`, `_` or a name, with an optional `: Type`. */
module FnArguments {
  import opened Wrappers
  import opened Tokens
  import opened AstPaths
  import opened AstTypes
  import opened Attributes

  datatype FnArgIdent = ArgSelf(token: Token) | ArgIgnore(token: Token) | ArgIdent(token: Token)

  datatype FnArgType = FnArgType(colon: Token, ty: AstType)

  datatype FnArg = FnArg(attributes: seq<Attribute>, ident: FnArgIdent, ty: Option<FnArgType>)

  /**
   * `FnArgIdent::parse`: `self`, `_` and an identifier each give their
   * variant; any other token is `ExpectedFunctionArgument` at that token.
   */
  function ParseFnArgIdent(inp: Input, pos: nat): (r: Result<Parsed<FnArgIdent>, ParseError>)
    ensures r.Ok? <==> pos < |inp.tokens| && inp.tokens[pos].kind in {SelfValue, Underscore, Ident}
    ensures r.Ok? ==> r.value.next == pos + 1 && r.value.value.token == inp.tokens[pos]
    ensures r.Ok? ==> (r.value.value.ArgSelf? <==> inp.tokens[pos].kind == SelfValue)
    ensures r.Ok? ==> (r.value.value.ArgIgnore? <==> inp.tokens[pos].kind == Underscore)
    ensures r.Err? ==> r.error == ParseError(PeekEof(inp, pos).span, ExpectedFunctionArgument)
  {
    var t := PeekEof(inp, pos);
    match t.kind
    case SelfValue => Ok(Parsed(ArgSelf(t), pos + 1))
    case Underscore => Ok(Parsed(ArgIgnore(t), pos + 1))
    case Ident => Ok(Parsed(ArgIdent(t), pos + 1))
    case _ => Err(ParseError(t.span, ExpectedFunctionArgument))
  }

  /** `FnArgType::peek`: `:` followed by a token that starts a type. */
  predicate PeekFnArgType(t1: Option<Token>, t2: Option<Token>) {
    t1.Some? && t1.value.kind == Colon && PeekType(t2, None)
  }

  /** The derived `FnArgType::parse`: `:` then a type. */
  function ParseFnArgType(inp: Input, pos: nat, parsePath: ParseFn<AstPath>): (r: Result<Parsed<FnArgType>, ParseError>)
    ensures r.Ok? ==> IsAt(inp, pos, Colon) && r.value.value.colon == inp.tokens[pos]
    ensures r.Ok? ==> ParseType(inp, pos + 1, parsePath) == Ok(Parsed(r.value.value.ty, r.value.next))
  {
    match Expect(inp, pos, Colon)
    case Err(e) => Err(e)
    case Ok(colon) =>
      match ParseType(inp, colon.next, parsePath)
      case Err(e) => Err(e)
      case Ok(ty) => Ok(Parsed(FnArgType(colon.value, ty.value), ty.next))
  }

  /**
   * `FnArg::parse_with_attributes`: the given attributes, the argument's
   * identifier, then a type when the type peek holds.
   */
  function ParseFnArgWithAttributes(inp: Input, pos: nat, attributes: seq<Attribute>, parsePath: ParseFn<AstPath>): (r: Result<Parsed<FnArg>, ParseError>)
    ensures r.Ok? ==> r.value.value.attributes == attributes
    ensures r.Ok? ==> ParseFnArgIdent(inp, pos) == Ok(Parsed(r.value.value.ident, pos + 1))
    ensures r.Ok? ==> (r.value.value.ty.Some? <==> PeekFnArgType(TokenAt(inp, pos + 1), TokenAt(inp, pos + 2)))
    ensures r.Ok? && r.value.value.ty.None? ==> r.value.next == pos + 1
  {
    match ParseFnArgIdent(inp, pos)
    case Err(e) => Err(e)
    case Ok(ident) =>
      if PeekFnArgType(TokenAt(inp, ident.next), TokenAt(inp, ident.next + 1)) then
        match ParseFnArgType(inp, ident.next, parsePath)
        case Err(e) => Err(e)
        case Ok(ty) => Ok(Parsed(FnArg(attributes, ident.value, Some(ty.value)), ty.next))
      else
        Ok(Parsed(FnArg(attributes, ident.value, None), ident.next))
  }

  /** `self` on its own parses to a `self` argument without a type. */
  lemma SelfArgument(inp: Input, parsePath: ParseFn<AstPath>)
    requires |inp.tokens| == 1 && inp.tokens[0].kind == SelfValue
    ensures var r := ParseFnArgWithAttributes(inp, 0, [], parsePath);
      r.Ok? && r.value.value.ident.ArgSelf? && r.value.value.ty.None? && r.value.next == 1
  {
  }

  /**
   * `x: i32` (a name, `:`, a path) parses to an argument with a type,
   * given that the path grammar accepts the type name.
   */
  lemma TypedArgument(inp: Input, pos: nat, parsePath: ParseFn<AstPath>)
    requires pos + 2 < |inp.tokens|
    requires inp.tokens[pos].kind == Ident && inp.tokens[pos + 1].kind == Colon && inp.tokens[pos + 2].kind == Ident
    requires parsePath(inp, pos + 2).Ok?
    ensures var r := ParseFnArgWithAttributes(inp, pos, [], parsePath);
      r.Ok? && r.value.value.ident.ArgIdent? && r.value.value.ty.Some?
  {
  }
}
