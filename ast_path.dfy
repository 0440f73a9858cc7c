/**
 * Paths in the syntax tree: `a::b::c`, `crate::x`, `super::y`, with an
 * optional leading and trailing `::` (`Scope`).
 */
module AstPaths {
  import opened Wrappers
  import opened Tokens

  /** One segment: an identifier, `crate` or `super`, with its token. */
  datatype PathSegment =
    | SegIdent(token: Token)
    | SegCrate(token: Token)
    | SegSuper(token: Token)

  /** A path: optional leading `::`, a first segment, `::`-separated further segments, optional trailing `::`. */
  datatype AstPath = AstPath(
    leadingColon: Option<Token>,
    first: PathSegment,
    rest: seq<(Token, PathSegment)>,
    trailing: Option<Token>)

  /** `PathSegment::try_as_ident`. */
  function SegmentIdent(s: PathSegment): (r: Option<Token>)
    ensures r.Some? <==> s.SegIdent?
    ensures r.Some? ==> r.value == s.token
  {
    if s.SegIdent? then Some(s.token) else None
  }

  /** `Path::try_as_ident`: the path is a lone identifier. */
  function PathIdent(p: AstPath): (r: Option<Token>)
    ensures r.Some? <==> p.rest == [] && p.trailing.None? && p.first.SegIdent?
    ensures r.Some? ==> r.value == p.first.token
  {
    if p.rest == [] && p.trailing.None? then SegmentIdent(p.first) else None
  }

  /** `Path::iter`: the first segment, then the segment of each `rest` pair. */
  function Segments(p: AstPath): (r: seq<PathSegment>)
    ensures |r| == 1 + |p.rest|
    ensures r[0] == p.first
    ensures forall i :: 0 <= i < |p.rest| ==> r[i + 1] == p.rest[i].1
  {
    [p.first] + SecondComponents(p.rest)
  }

  function SecondComponents(rest: seq<(Token, PathSegment)>): (r: seq<PathSegment>)
    ensures |r| == |rest|
    ensures forall i :: 0 <= i < |rest| ==> r[i] == rest[i].1
  {
    if rest == [] then [] else [rest[0].1] + SecondComponents(rest[1..])
  }

  /** What the derived `into_tokens` of a path emits: its fields' tokens in order. */
  function PathTokens(p: AstPath): seq<Token> {
    OptionTokens(p.leadingColon) + [p.first.token] + RestTokens(p.rest) + OptionTokens(p.trailing)
  }

  function OptionTokens(t: Option<Token>): seq<Token> {
    if t.Some? then [t.value] else []
  }

  function RestTokens(rest: seq<(Token, PathSegment)>): seq<Token> {
    if rest == [] then [] else [rest[0].0, rest[0].1.token] + RestTokens(rest[1..])
  }

  /** A path that is a lone identifier has that identifier as its only segment. */
  lemma IdentPathHasOneSegment(p: AstPath)
    requires PathIdent(p).Some?
    ensures Segments(p) == [PathSegment.SegIdent(PathIdent(p).value)]
  {
  }

  /** `PathSegment::peek`: an identifier, `crate` or `super`. */
  predicate PeekSegment(t1: Option<Token>) {
    t1.Some? && (t1.value.kind == Ident || t1.value.kind == Crate || t1.value.kind == Super)
  }

  /** `Path::peek`: a leading `::`, or a segment start. */
  predicate PeekPath(t1: Option<Token>, t2: Option<Token>) {
    t1.Some? && (t1.value.kind == ColonColon || PeekSegment(t1))
  }

  /**
   * `PathSegment::parse`: the kind of the next token picks the segment;
   * anything else is a mismatch that expected an identifier.
   */
  function ParseSegment(inp: Input, pos: nat): (r: Result<Parsed<PathSegment>, ParseError>)
    ensures r.Ok? ==> pos < |inp.tokens| && r.value.next == pos + 1
    ensures r.Ok? ==> r.value.value.token == inp.tokens[pos]
  {
    var t := PeekEof(inp, pos);
    match t.kind
    case Ident => Ok(Parsed(SegIdent(t), pos + 1))
    case Crate => Ok(Parsed(SegCrate(t), pos + 1))
    case Super => Ok(Parsed(SegSuper(t), pos + 1))
    case _ => Err(ParseError(t.span, TokenMismatch(Ident, t.kind)))
  }

  /** The segment peek and the segment parse agree: the parse succeeds exactly when the peek holds. */
  lemma SegmentPeekMatchesParse(inp: Input, pos: nat)
    ensures ParseSegment(inp, pos).Ok? <==> PeekSegment(TokenAt(inp, pos))
  {
  }

  /** Each accepted token kind gives its own segment variant; a rejected one is reported with its kind. */
  lemma SegmentVariantByKind(inp: Input, pos: nat)
    ensures var r := ParseSegment(inp, pos);
      && (IsAt(inp, pos, Ident) <==> r.Ok? && r.value.value.SegIdent?)
      && (IsAt(inp, pos, Crate) <==> r.Ok? && r.value.value.SegCrate?)
      && (IsAt(inp, pos, Super) <==> r.Ok? && r.value.value.SegSuper?)
      && (r.Err? ==> r.error.kind == TokenMismatch(Ident, PeekEof(inp, pos).kind))
  {
  }

  /** Every path that starts like a segment also starts like a path; `::` starts only a path. */
  lemma PathPeekExtendsSegmentPeek(t1: Option<Token>, t2: Option<Token>)
    ensures PeekSegment(t1) ==> PeekPath(t1, t2)
    ensures PeekPath(t1, t2) && !PeekSegment(t1) <==> t1.Some? && t1.value.kind == ColonColon
  {
  }
}
