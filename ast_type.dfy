/**
 * Types in the syntax tree. Five variants exist, but the parser only ever
 * produces a path type, while the peek accepts the starts of all five.
 */
module AstTypes {
  import opened Wrappers
  import opened Tokens
  import opened AstPaths
  import opened Mutabilities

  datatype AstType =
    | TypeInfer(underscore: Token)
    | TypeNever(bang: Token)
    | TypePath(path: AstPath)
    | TypePointer(star: Token, mutability: Option<Mutability>, elem: AstType)
    | TypeVariadic(ellipsis: Token)

  /**
   * `Type::parse`: a path type, whatever the next token is. Parsing the
   * path itself is given as `parsePath`.
   */
  function ParseType(inp: Input, pos: nat, parsePath: ParseFn<AstPath>): (r: Result<Parsed<AstType>, ParseError>)
    ensures r.Ok? ==> r.value.value.TypePath?
    ensures r.Ok? <==> parsePath(inp, pos).Ok?
    ensures r.Ok? ==> r.value == Parsed(TypePath(parsePath(inp, pos).value.value), parsePath(inp, pos).value.next)
    ensures r.Err? ==> r.error == parsePath(inp, pos).error
  {
    match parsePath(inp, pos)
    case Ok(p) => Ok(Parsed(TypePath(p.value), p.next))
    case Err(e) => Err(e)
  }

  /** Number of present tokens in a peek window, which bounds the peek recursion. */
  function Present(t1: Option<Token>, t2: Option<Token>): nat {
    (if t1.Some? then 1 else 0) + (if t2.Some? then 1 else 0)
  }

  predicate PeekNever(t1: Option<Token>) {
    t1.Some? && t1.value.kind == Bang
  }

  predicate PeekInfer(t1: Option<Token>) {
    t1.Some? && t1.value.kind == Underscore
  }

  predicate PeekVariadic(t1: Option<Token>) {
    t1.Some? && t1.value.kind == Ellipsis
  }

  /** The path-type peek is the path peek. */
  predicate PeekTypePath(t1: Option<Token>, t2: Option<Token>) {
    PeekPath(t1, t2)
  }

  /** The pointer peek: `*` then a qualifier or (looking at that one token alone) a type start. */
  predicate PeekTypePtr(t1: Option<Token>, t2: Option<Token>)
    decreases Present(t1, t2), 0
  {
    t1.Some? && t1.value.kind == Star && (PeekMutability(t2) || PeekType(t2, None))
  }

  /** `Type::peek`: the disjunction of the five variant peeks. */
  predicate PeekType(t1: Option<Token>, t2: Option<Token>)
    decreases Present(t1, t2), 1
  {
    PeekTypePath(t1, t2) || PeekTypePtr(t1, t2) || PeekNever(t1) || PeekInfer(t1) || PeekVariadic(t1)
  }

  /**
   * The type peek on a token pair: its first token is `!`, `_`, `...`, a
   * path start, or a `*` followed by `const`, `mut`, `!`, `_`, `...` or a
   * path start other than `*`. In particular a `*` needs a second token.
   */
  lemma PeekTypeCases(t1: Option<Token>, t2: Option<Token>)
    ensures PeekType(t1, t2) <==>
      PeekPath(t1, t2) || PeekNever(t1) || PeekInfer(t1) || PeekVariadic(t1)
      || (t1.Some? && t1.value.kind == Star && t2.Some?
          && (PeekMutability(t2) || PeekPath(t2, None) || PeekNever(t2) || PeekInfer(t2) || PeekVariadic(t2)))
  {
    assert PeekTypePtr(t1, t2) <==> t1.Some? && t1.value.kind == Star && (PeekMutability(t2) || PeekType(t2, None));
    assert !PeekType(None, None);
    assert !PeekTypePtr(t2, None);
    assert PeekType(t2, None) <==> PeekPath(t2, None) || PeekNever(t2) || PeekInfer(t2) || PeekVariadic(t2);
  }

  /** A `*` with nothing after it does not start a type. */
  lemma LoneStarIsNoType(t1: Option<Token>)
    requires t1.Some? && t1.value.kind == Star
    ensures !PeekType(t1, None)
  {
    assert !PeekType(None, None);
  }

  /**
   * The peek is wider than the parse: on a `!`, `_`, `...` or `*` start the
   * type peek holds while the path peek, which the path parse follows,
   * does not; whatever such a start parses to, it is never a never, infer,
   * variadic or pointer type.
   */
  lemma PeekAcceptsWhatParseDoesNot(inp: Input, pos: nat, parsePath: ParseFn<AstPath>)
    requires pos + 1 < |inp.tokens|
    requires inp.tokens[pos].kind in {Bang, Underscore, Ellipsis} || (inp.tokens[pos].kind == Star && inp.tokens[pos + 1].kind == Mut)
    ensures PeekType(TokenAt(inp, pos), TokenAt(inp, pos + 1))
    ensures !PeekPath(TokenAt(inp, pos), TokenAt(inp, pos + 1))
    ensures ParseType(inp, pos, parsePath).Ok? ==> ParseType(inp, pos, parsePath).value.value.TypePath?
  {
  }
}
