/**
 * Object patterns, `Ident { a, b: pat, .. }`: items separated by commas,
 * an optional `..` rest marker, and a closing brace.
 *
 * `ParseObjectItems` states what the item loop accepts;
 * `ParseWithIdentAt` runs the source's loop on a `Parser` cursor and is
 * proved to agree with `ParseWithIdent`.
 */
module PatObjects {
  import opened Wrappers
  import opened Tokens

  /** The object's identifier, parsed by the literal grammar that callers supply. */
  datatype ObjectIdent = ObjectIdent(span: Span)

  /** An object key, parsed by the literal grammar that callers supply. */
  datatype ObjectKey = ObjectKey(span: Span)

  /** A sub-pattern, parsed by the pattern grammar that callers supply. */
  datatype Pat = Pat(span: Span)

  datatype PatObjectItem = PatObjectItem(key: ObjectKey, binding: Option<(Token, Pat)>)

  datatype PatObject = PatObject(
    ident: ObjectIdent,
    open: Token,
    items: seq<(PatObjectItem, Option<Token>)>,
    openPattern: Option<Token>,
    close: Token)

  /** The grammars an object pattern delegates to. */
  datatype PatGrammar = PatGrammar(parseKey: ParseFn<ObjectKey>, parsePat: ParseFn<Pat>)

  /** A parse function never moves the cursor backwards nor past the end of the input. */
  ghost predicate Forward<T>(f: ParseFn<T>, inp: Input) {
    forall q: nat :: f(inp, q).Ok? ==> q <= f(inp, q).value.next <= |inp.tokens|
  }

  ghost predicate ForwardGrammar(g: PatGrammar, inp: Input) {
    Forward(g.parseKey, inp) && Forward(g.parsePat, inp)
  }

  /** `PatObject::span`: from the identifier to the closing brace. */
  function PatObjectSpan(p: PatObject): Span {
    Join(p.ident.span, p.close.span)
  }

  /** `PatObjectItem::span`: to the end of the binding's pattern when there is one, else the key's span. */
  function ItemSpan(item: PatObjectItem): (s: Span)
    ensures s.start == item.key.span.start
    ensures s.end == if item.binding.Some? then item.binding.value.1.span.end else item.key.span.end
  {
    match item.binding
    case Some((_, pat)) => Join(item.key.span, pat.span)
    case None => item.key.span
  }

  /** `PatObjectItem::parse`: a key, then `:` and a pattern when a `:` follows. */
  function ParseObjectItem(inp: Input, pos: nat, g: PatGrammar): (r: Result<Parsed<PatObjectItem>, ParseError>)
    ensures r.Ok? ==> g.parseKey(inp, pos).Ok? && r.value.value.key == g.parseKey(inp, pos).value.value
    ensures r.Ok? ==> (r.value.value.binding.Some? <==> IsAt(inp, g.parseKey(inp, pos).value.next, Colon))
    ensures r.Ok? && r.value.value.binding.None? ==> r.value.next == g.parseKey(inp, pos).value.next
  {
    match g.parseKey(inp, pos)
    case Err(e) => Err(e)
    case Ok(key) =>
      if IsAt(inp, key.next, Colon) then
        match g.parsePat(inp, key.next + 1)
        case Err(e) => Err(e)
        case Ok(pat) => Ok(Parsed(PatObjectItem(key.value, Some((inp.tokens[key.next], pat.value))), pat.next))
      else
        Ok(Parsed(PatObjectItem(key.value, None), key.next))
  }

  lemma ObjectItemForward(inp: Input, pos: nat, g: PatGrammar)
    requires ForwardGrammar(g, inp)
    ensures ParseObjectItem(inp, pos, g).Ok? ==> pos <= ParseObjectItem(inp, pos, g).value.next <= |inp.tokens|
  {
    var key := g.parseKey(inp, pos);
    if key.Ok? && IsAt(inp, key.value.next, Colon) {
      var pat := g.parsePat(inp, key.value.next + 1);
    }
  }

  /** The loop is entered while the next token is neither `}` nor `..`. */
  predicate ItemAhead(inp: Input, pos: nat) {
    !IsAt(inp, pos, Close(Brace)) && !IsAt(inp, pos, DotDot)
  }

  /**
   * The item loop: while an item is ahead, an item and an optional comma;
   * after an item without a comma, stop. The flag is `is_open`: whether
   * the last item had a comma (true when there were none).
   */
  function ParseObjectItems(inp: Input, pos: nat, g: PatGrammar): (r: Result<Parsed<(seq<(PatObjectItem, Option<Token>)>, bool)>, ParseError>)
    requires ForwardGrammar(g, inp)
    requires pos <= |inp.tokens|
    ensures r.Ok? ==> pos <= r.value.next <= |inp.tokens|
    ensures r.Ok? ==> var (items, isOpen) := r.value.value;
      && (forall i :: 0 <= i < |items| - 1 ==> items[i].1.Some?)
      && (isOpen <==> items == [] || items[|items| - 1].1.Some?)
      && (isOpen ==> !ItemAhead(inp, r.value.next))
    decreases |inp.tokens| - pos
  {
    if !ItemAhead(inp, pos) then
      Ok(Parsed(([], true), pos))
    else
      ObjectItemForward(inp, pos, g);
      match ParseObjectItem(inp, pos, g)
      case Err(e) => Err(e)
      case Ok(item) =>
        if IsAt(inp, item.next, Comma) then
          match ParseObjectItems(inp, item.next + 1, g)
          case Err(e) => Err(e)
          case Ok(rest) =>
            var (items, isOpen) := rest.value;
            var all := [(item.value, Some(inp.tokens[item.next]))] + items;
            assert forall i :: 0 < i < |all| ==> all[i] == items[i - 1];
            Ok(Parsed((all, isOpen), rest.next))
        else
          Ok(Parsed(([(item.value, None)], false), item.next))
  }

  /**
   * `PatObject::parse_with_ident`: `{`, the items, a `..` when the last
   * item had a comma (or there were none) and one is ahead, then `}`.
   */
  function ParseWithIdent(inp: Input, pos: nat, ident: ObjectIdent, g: PatGrammar): (r: Result<Parsed<PatObject>, ParseError>)
    requires ForwardGrammar(g, inp)
    ensures r.Ok? ==> var p := r.value.value;
      && p.ident == ident
      && p.open.kind == Open(Brace) && p.close.kind == Close(Brace)
      && (forall i :: 0 <= i < |p.items| - 1 ==> p.items[i].1.Some?)
      && (p.openPattern.Some? ==> p.items == [] || p.items[|p.items| - 1].1.Some?)
      && (p.openPattern.Some? ==> p.openPattern.value.kind == DotDot)
  {
    match Expect(inp, pos, Open(Brace))
    case Err(e) => Err(e)
    case Ok(open) =>
      match ParseObjectItems(inp, open.next, g)
      case Err(e) => Err(e)
      case Ok(loop) =>
        var (items, isOpen) := loop.value;
        assert isOpen ==> items == [] || items[|items| - 1].1.Some?;
        ParseRestAndClose(inp, loop.next, ident, open.value, items, isOpen)
  }

  /** After the items: `..` when the items left the pattern open and one is ahead, then `}`. */
  function ParseRestAndClose(inp: Input, pos: nat, ident: ObjectIdent, open: Token,
                             items: seq<(PatObjectItem, Option<Token>)>, isOpen: bool): (r: Result<Parsed<PatObject>, ParseError>)
    ensures r.Ok? ==> var p := r.value.value;
      && p.ident == ident && p.open == open && p.items == items
      && p.close.kind == Close(Brace)
      && (p.openPattern.Some? <==> isOpen && IsAt(inp, pos, DotDot))
      && (p.openPattern.Some? ==> p.openPattern.value.kind == DotDot)
  {
    var rest := if isOpen && IsAt(inp, pos, DotDot) then Parsed(Some(inp.tokens[pos]), pos + 1) else Parsed(None, pos);
    match Expect(inp, rest.next, Close(Brace))
    case Err(e) => Err(e)
    case Ok(close) => Ok(Parsed(PatObject(ident, open, items, rest.value, close.value), close.next))
  }

  /** `PatObject::parse`: the object's identifier, then the rest as `parse_with_ident`. */
  function ParsePatObject(inp: Input, pos: nat, parseIdent: ParseFn<ObjectIdent>, g: PatGrammar): (r: Result<Parsed<PatObject>, ParseError>)
    requires ForwardGrammar(g, inp)
    ensures parseIdent(inp, pos).Err? ==> r == Err(parseIdent(inp, pos).error)
    ensures parseIdent(inp, pos).Ok? ==>
      var id := parseIdent(inp, pos).value;
      r == ParseWithIdent(inp, id.next, id.value, g)
    ensures r.Ok? ==> r.value.value.ident == parseIdent(inp, pos).value.value
  {
    match parseIdent(inp, pos)
    case Err(e) => Err(e)
    case Ok(id) => ParseWithIdent(inp, id.next, id.value, g)
  }

  /**
   * `}` right after `{` gives no items and no rest marker; `..` right
   * after `{` gives no items and a rest marker.
   */
  lemma EmptyPatterns(inp: Input, pos: nat, ident: ObjectIdent, g: PatGrammar)
    requires ForwardGrammar(g, inp)
    requires pos + 1 < |inp.tokens| && inp.tokens[pos].kind == Open(Brace)
    requires inp.tokens[pos + 1].kind in {Close(Brace), DotDot}
    ensures var r := ParseWithIdent(inp, pos, ident, g);
      && (inp.tokens[pos + 1].kind == Close(Brace) ==> r.Ok? && r.value.value.items == [] && r.value.value.openPattern.None?)
      && (r.Ok? && inp.tokens[pos + 1].kind == DotDot ==> r.value.value.items == [] && r.value.value.openPattern.Some?)
  {
  }

  // ------------------------------------------------- the parser's cursor

  /** The items gathered so far in front of the rest of the loop's result. */
  function Prepend(acc: seq<(PatObjectItem, Option<Token>)>, r: Result<Parsed<(seq<(PatObjectItem, Option<Token>)>, bool)>, ParseError>)
    : Result<Parsed<(seq<(PatObjectItem, Option<Token>)>, bool)>, ParseError>
  {
    if r.Ok? then Ok(Parsed((acc + r.value.value.0, r.value.value.1), r.value.next)) else r
  }

  /** Gathering one more item moves it from the rest of the result to the gathered ones. */
  lemma PrependOneMore(acc: seq<(PatObjectItem, Option<Token>)>, x: (PatObjectItem, Option<Token>),
                       r: Result<Parsed<(seq<(PatObjectItem, Option<Token>)>, bool)>, ParseError>)
    ensures Prepend(acc, Prepend([x], r)) == Prepend(acc + [x], r)
  {
    if r.Ok? {
      assert acc + ([x] + r.value.value.0) == (acc + [x]) + r.value.value.0;
    }
  }

  /** One pass of the loop body: an item and an optional comma. */
  method ParseItemAndComma(p: Parser, g: PatGrammar) returns (r: Result<(PatObjectItem, Option<Token>), ParseError>)
    requires ForwardGrammar(g, p.input)
    requires p.pos <= |p.input.tokens| && ItemAhead(p.input, p.pos)
    modifies p
    ensures p.pos <= |p.input.tokens|
    ensures var spec := ParseObjectItems(p.input, old(p.pos), g);
      && (r.Err? ==> spec == Err(r.error))
      && (r.Ok? ==> old(p.pos) < p.pos || r.value.1.None?)
      && (r.Ok? && r.value.1.Some? ==> spec == Prepend([r.value], ParseObjectItems(p.input, p.pos, g)))
      && (r.Ok? && r.value.1.None? ==> spec == Ok(Parsed(([r.value], false), p.pos)))
  {
    ghost var start := p.pos;
    ObjectItemForward(p.input, p.pos, g);
    var item := p.Parse((i: Input, q: nat) => ParseObjectItem(i, q, g));
    if item.Err? {
      return Err(item.error);
    }
    var comma: Option<Token> := None;
    if IsAt(p.input, p.pos, Comma) {
      var c := p.ExpectKind(Comma);
      comma := Some(c.value);
    }
    r := Ok((item.value, comma));
    ghost var rest := ParseObjectItems(p.input, p.pos, g);
    if comma.Some? && rest.Ok? {
      assert [r.value] + rest.value.value.0 == [r.value] + rest.value.value.0;
    }
  }

  /** The end of `PatObject::parse_with_ident` on the cursor: the rest marker and the closing brace. */
  method ParseRestAndCloseAt(p: Parser, ident: ObjectIdent, open: Token,
                             items: seq<(PatObjectItem, Option<Token>)>, isOpen: bool) returns (r: Result<PatObject, ParseError>)
    modifies p
    ensures Agrees(r, ParseRestAndClose(p.input, old(p.pos), ident, open, items, isOpen), p.pos)
  {
    var openPattern: Option<Token> := None;
    if isOpen && IsAt(p.input, p.pos, DotDot) {
      var dots := p.ExpectKind(DotDot);
      openPattern := Some(dots.value);
    }
    var close := p.ExpectKind(Close(Brace));
    if close.Err? {
      return Err(close.error);
    }
    r := Ok(PatObject(ident, open, items, openPattern, close.value));
  }

  /** The item loop of `PatObject::parse_with_ident` on the cursor, with the source's `break`. */
  method ParseObjectItemsAt(p: Parser, g: PatGrammar) returns (r: Result<(seq<(PatObjectItem, Option<Token>)>, bool), ParseError>)
    requires ForwardGrammar(g, p.input)
    requires p.pos <= |p.input.tokens|
    modifies p
    ensures Agrees(r, ParseObjectItems(p.input, old(p.pos), g), p.pos)
  {
    ghost var first := p.pos;
    var items: seq<(PatObjectItem, Option<Token>)> := [];
    var isOpen := true;
    if ParseObjectItems(p.input, first, g).Ok? {
      assert [] + ParseObjectItems(p.input, first, g).value.value.0 == ParseObjectItems(p.input, first, g).value.value.0;
    }
    while ItemAhead(p.input, p.pos)
      invariant p.pos <= |p.input.tokens|
      invariant isOpen
      invariant ParseObjectItems(p.input, first, g) == Prepend(items, ParseObjectItems(p.input, p.pos, g))
      decreases |p.input.tokens| - p.pos
    {
      var entry := ParseItemAndComma(p, g);
      if entry.Err? {
        return Err(entry.error);
      }
      isOpen := entry.value.1.Some?;
      PrependOneMore(items, entry.value, ParseObjectItems(p.input, p.pos, g));
      items := items + [entry.value];
      if !isOpen {
        assert ParseObjectItems(p.input, first, g) == Ok(Parsed((items, false), p.pos));
        break;
      }
    }
    if isOpen {
      assert items + [] == items;
      assert ParseObjectItems(p.input, first, g) == Ok(Parsed((items, true), p.pos));
    }
    r := Ok((items, isOpen));
  }

  /** `PatObject::parse_with_ident` on the cursor. */
  method ParseWithIdentAt(p: Parser, ident: ObjectIdent, g: PatGrammar) returns (r: Result<PatObject, ParseError>)
    requires ForwardGrammar(g, p.input)
    requires p.pos <= |p.input.tokens|
    modifies p
    ensures Agrees(r, ParseWithIdent(p.input, old(p.pos), ident, g), p.pos)
  {
    var open := p.ExpectKind(Open(Brace));
    if open.Err? {
      return Err(open.error);
    }
    var loop := ParseObjectItemsAt(p, g);
    if loop.Err? {
      return Err(loop.error);
    }
    r := ParseRestAndCloseAt(p, ident, open.value, loop.value.0, loop.value.1);
  }
}
