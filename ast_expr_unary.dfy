/** Unary expressions: `!x`, `&x`, `*x`. */
module ExprUnaries {
  import opened Wrappers
  import opened Tokens

  datatype UnaryOp = Not | BorrowRef | Deref

  /** An operand, parsed by the primary-expression grammar that callers supply. */
  datatype Expr = Expr(span: Span)

  datatype ExprUnary = ExprUnary(token: Token, expr: Expr, op: UnaryOp)

  /** `UnaryOp::from_token`: `!`, `&` and `*`; anything else expected a unary operator. */
  function FromToken(t: Token): (r: Result<UnaryOp, ParseError>)
    ensures r.Ok? <==> t.kind in {Bang, Amp, Star}
    ensures r.Err? ==> r.error == ParseError(t.span, Expected(t.kind, "unary operator `!`"))
  {
    match t.kind
    case Bang => Ok(Not)
    case Amp => Ok(BorrowRef)
    case Star => Ok(Deref)
    case _ => Err(ParseError(t.span, Expected(t.kind, "unary operator `!`")))
  }

  /** `Display for UnaryOp`. */
  function OpSymbol(op: UnaryOp): string {
    match op
    case Not => "!"
    case BorrowRef => "&"
    case Deref => "*"
  }

  /** The lexer's token kind for a punctuation symbol of the modelled kinds. */
  function SymbolKind(s: string): Option<Kind> {
    if s == "#" then Some(Pound)
    else if s == "!" then Some(Bang)
    else if s == "=" then Some(Eq)
    else if s == ":" then Some(Colon)
    else if s == "::" then Some(ColonColon)
    else if s == "," then Some(Comma)
    else if s == ".." then Some(DotDot)
    else if s == "..." then Some(Ellipsis)
    else if s == "*" then Some(Star)
    else if s == "&" then Some(Amp)
    else if s == "_" then Some(Underscore)
    else if s == "->" then Some(RArrow)
    else None
  }

  /** Printing an operator and reading the printed symbol's token gives the operator back. */
  lemma DisplayRoundTrip(op: UnaryOp, span: Span)
    ensures SymbolKind(OpSymbol(op)).Some?
    ensures FromToken(Token(span, SymbolKind(OpSymbol(op)).value)) == Ok(op)
  {
  }

  /** And the other way: an operator read from a token prints as that token's symbol. */
  lemma FromTokenThenDisplay(t: Token)
    requires FromToken(t).Ok?
    ensures SymbolKind(OpSymbol(FromToken(t).value)) == Some(t.kind)
  {
  }

  /**
   * `ExprUnary::parse`: the next token, which must be a unary operator,
   * then one primary expression.
   */
  function ParseExprUnary(inp: Input, pos: nat, parsePrimary: ParseFn<Expr>): (r: Result<Parsed<ExprUnary>, ParseError>)
    ensures r.Ok? ==> pos < |inp.tokens| && r.value.value.token == inp.tokens[pos]
    ensures r.Ok? ==> FromToken(inp.tokens[pos]) == Ok(r.value.value.op)
    ensures r.Ok? ==> parsePrimary(inp, pos + 1) == Ok(Parsed(r.value.value.expr, r.value.next))
    ensures pos >= |inp.tokens| ==> r == Err(ParseError(inp.end, UnexpectedEof))
    ensures pos < |inp.tokens| && FromToken(inp.tokens[pos]).Err? ==> r == Err(FromToken(inp.tokens[pos]).error)
  {
    match NextToken(inp, pos)
    case Err(e) => Err(e)
    case Ok(token) =>
      match FromToken(token.value)
      case Err(e) => Err(e)
      case Ok(op) =>
        match parsePrimary(inp, token.next)
        case Err(e) => Err(e)
        case Ok(expr) => Ok(Parsed(ExprUnary(token.value, expr.value, op), expr.next))
  }
}
