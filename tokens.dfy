/**
 * The parser's view of the input: a lexed token sequence read through a
 * cursor. Token kinds are abstracted to the ones the modelled grammar
 * decisions look at; everything else is `Other`.
 *
 * A parse function takes the input and the cursor position and returns the
 * parsed value with the position after it (`Parsed`), or a `ParseError`.
 * The class `Parser` holds the same cursor as a mutable field for the
 * parsers whose source advances it in a loop.
 */
module Tokens {
  import opened Wrappers

  /** A byte range of the source. */
  datatype Span = Span(start: nat, end: nat)

  /**
   * `Span::join`, for spans given in source order: from the first span's
   * start to the second span's end.
   */
  function Join(a: Span, b: Span): Span {
    Span(a.start, b.end)
  }

  datatype Delimiter = Parenthesis | Bracket | Brace

  datatype Kind =
    | Pound | Bang | Eq | Colon | ColonColon | Comma | DotDot | Ellipsis
    | Star | Amp | Underscore | RArrow
    | Open(openDelim: Delimiter) | Close(closeDelim: Delimiter)
    | Ident | SelfValue | Crate | Super
    | Use | Enum | Struct | Impl | Async | Fn | Mod | Const | Mut
    | Literal
    | EOF
    | Other(code: nat)

  datatype Token = Token(span: Span, kind: Kind)

  /** The lexed tokens and the span that an end-of-input token reports. */
  datatype Input = Input(tokens: seq<Token>, end: Span)

  datatype ParseErrorKind =
    | UnexpectedEof
    | UnexpectedToken(actual: Kind)
    | UnexpectedDelimiter(actual: Kind)
    | TokenMismatch(expected: Kind, actual: Kind)
    | ExpectedItem(actual: Kind)
    | ExpectedFunctionArgument
    | ExpectedMutability(actual: Kind)
    | Expected(actual: Kind, what: string)

  datatype ParseError = ParseError(span: Span, kind: ParseErrorKind)

  /** A parsed value and the cursor position just after it. */
  datatype Parsed<T> = Parsed(value: T, next: nat)

  /** `token_peek` at `pos`: the token there, if any. */
  function TokenAt(inp: Input, pos: nat): (r: Option<Token>)
    ensures r.Some? <==> pos < |inp.tokens|
  {
    if pos < |inp.tokens| then Some(inp.tokens[pos]) else None
  }

  /** The token that stands for the end of the input. */
  function EofToken(inp: Input): Token {
    Token(inp.end, EOF)
  }

  /** `token_peek_eof`: the token at `pos`, or the end-of-input token. */
  function PeekEof(inp: Input, pos: nat): (t: Token)
    ensures pos < |inp.tokens| ==> t == inp.tokens[pos]
    ensures pos >= |inp.tokens| ==> t == EofToken(inp)
  {
    if pos < |inp.tokens| then inp.tokens[pos] else EofToken(inp)
  }

  /** The kind of the token at `pos` is `k`. */
  predicate IsAt(inp: Input, pos: nat, k: Kind) {
    pos < |inp.tokens| && inp.tokens[pos].kind == k
  }

  /** `token_next`: consume one token; at the end of the input, `UnexpectedEof`. */
  function NextToken(inp: Input, pos: nat): (r: Result<Parsed<Token>, ParseError>)
    ensures r.Ok? <==> pos < |inp.tokens|
    ensures r.Ok? ==> r.value == Parsed(inp.tokens[pos], pos + 1)
  {
    if pos < |inp.tokens| then Ok(Parsed(inp.tokens[pos], pos + 1))
    else Err(ParseError(inp.end, UnexpectedEof))
  }

  /**
   * Parsing a single-token node such as `#`, `[` or an identifier: the next
   * token must have kind `k`; otherwise a mismatch naming what was found.
   */
  function Expect(inp: Input, pos: nat, k: Kind): (r: Result<Parsed<Token>, ParseError>)
    ensures r.Ok? <==> IsAt(inp, pos, k)
    ensures r.Ok? ==> r.value == Parsed(inp.tokens[pos], pos + 1)
    ensures r.Err? && pos < |inp.tokens| ==> r.error == ParseError(inp.tokens[pos].span, TokenMismatch(k, inp.tokens[pos].kind))
  {
    if pos >= |inp.tokens| then Err(ParseError(inp.end, UnexpectedEof))
    else if inp.tokens[pos].kind == k then Ok(Parsed(inp.tokens[pos], pos + 1))
    else Err(ParseError(inp.tokens[pos].span, TokenMismatch(k, inp.tokens[pos].kind)))
  }

  /** `Option<T>` for a single-token `T`: taken when the next token has kind `k`. */
  function Optional(inp: Input, pos: nat, k: Kind): (r: Parsed<Option<Token>>)
    ensures r.value.Some? <==> IsAt(inp, pos, k)
    ensures r.value.Some? ==> r == Parsed(Some(inp.tokens[pos]), pos + 1)
    ensures r.value.None? ==> r.next == pos
  {
    if IsAt(inp, pos, k) then Parsed(Some(inp.tokens[pos]), pos + 1) else Parsed(None, pos)
  }

  /** A parse function over the token input. */
  type ParseFn<T> = (Input, nat) -> Result<Parsed<T>, ParseError>

  /**
   * A parse on the mutable cursor agrees with a parse function: the same
   * value with the cursor moved to its end, or the same error.
   */
  predicate Agrees<T(==)>(r: Result<T, ParseError>, spec: Result<Parsed<T>, ParseError>, pos: nat) {
    && (spec.Ok? ==> r == Ok(spec.value.value) && pos == spec.value.next)
    && (spec.Err? ==> r == Err(spec.error))
  }

  /** The mutable cursor of a parse in progress. */
  class Parser {
    const input: Input
    var pos: nat

    constructor (input: Input)
      ensures this.input == input && pos == 0
    {
      this.input := input;
      pos := 0;
    }

    /** The two tokens a `peek` looks at. */
    function Peek1(): Option<Token>
      reads this
    {
      TokenAt(input, pos)
    }

    function Peek2(): Option<Token>
      reads this
    {
      TokenAt(input, pos + 1)
    }

    /** Run a parse function at the cursor, moving the cursor past what it parsed. */
    method Parse<T(==)>(f: ParseFn<T>) returns (r: Result<T, ParseError>)
      modifies this
      ensures Agrees(r, f(input, old(pos)), pos)
      ensures r.Err? ==> pos == old(pos)
    {
      var out := f(input, pos);
      match out {
        case Ok(p) =>
          pos := p.next;
          r := Ok(p.value);
        case Err(e) =>
          r := Err(e);
      }
    }

    /** Consume one token of kind `k`. */
    method ExpectKind(k: Kind) returns (r: Result<Token, ParseError>)
      modifies this
      ensures Agrees(r, Expect(input, old(pos), k), pos)
      ensures r.Err? ==> pos == old(pos)
    {
      if pos < |input.tokens| && input.tokens[pos].kind == k {
        r := Ok(input.tokens[pos]);
        pos := pos + 1;
      } else if pos >= |input.tokens| {
        r := Err(ParseError(input.end, UnexpectedEof));
      } else {
        r := Err(ParseError(input.tokens[pos].span, TokenMismatch(k, input.tokens[pos].kind)));
      }
    }
  }
}
