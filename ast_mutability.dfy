/** The `const` / `mut` qualifier of a pointer type. */
module Mutabilities {
  import opened Wrappers
  import opened Tokens

  datatype Mutability = MutConst(token: Token) | MutMut(token: Token)

  predicate IsMut(m: Mutability) {
    m.MutMut?
  }

  predicate IsConst(m: Mutability) {
    m.MutConst?
  }

  /** Every qualifier is either `mut` or `const`, never both. */
  lemma ExactlyOneQualifier(m: Mutability)
    ensures IsMut(m) != IsConst(m)
  {
  }

  /** `Mutability::peek`: the next token is `const` or `mut`. */
  predicate PeekMutability(t1: Option<Token>) {
    t1.Some? && (t1.value.kind == Const || t1.value.kind == Mut)
  }

  /**
   * `Mutability::parse`: `const` gives `Const`, `mut` gives `Mut`, any
   * other token (or the end of input) is `ExpectedMutability` with its kind.
   */
  function ParseMutability(inp: Input, pos: nat): (r: Result<Parsed<Mutability>, ParseError>)
    ensures r.Ok? ==> pos < |inp.tokens| && r.value.next == pos + 1 && r.value.value.token == inp.tokens[pos]
    ensures r.Ok? ==> (IsConst(r.value.value) <==> inp.tokens[pos].kind == Const)
    ensures r.Err? ==> r.error == ParseError(PeekEof(inp, pos).span, ExpectedMutability(PeekEof(inp, pos).kind))
  {
    var t := PeekEof(inp, pos);
    match t.kind
    case Const => Ok(Parsed(MutConst(t), pos + 1))
    case Mut => Ok(Parsed(MutMut(t), pos + 1))
    case _ => Err(ParseError(t.span, ExpectedMutability(t.kind)))
  }

  /** The peek and the parse agree. */
  lemma MutabilityPeekMatchesParse(inp: Input, pos: nat)
    ensures ParseMutability(inp, pos).Ok? <==> PeekMutability(TokenAt(inp, pos))
  {
  }
}
