/** Declarations: the choice of item kind from the first token. */
module ItemDecls {
  import opened Wrappers
  import opened Tokens
  import opened AstPaths
  import opened Attributes

  /** The item kinds other than attributes, each parsed by its own grammar. */
  datatype DeclKind = ItemUse | ItemFn | ItemEnum | ItemStruct | ItemImpl | ItemMod | MacroCall

  datatype Item = ItemAttribute(attribute: Attribute) | Decl(kind: DeclKind)

  /** `Item::needs_semi_colon`: only a macro call needs one. */
  predicate NeedsSemiColon(item: Item) {
    item.Decl? && item.kind == MacroCall
  }

  /** The declaration kind a first token selects, if any. */
  function DeclKindOf(k: Kind): (r: Option<DeclKind>)
    ensures r.Some? <==> k in {Use, Enum, Struct, Impl, Async, Fn, Mod, Ident}
    ensures r == Some(MacroCall) <==> k == Ident
    ensures r == Some(ItemFn) <==> k in {Async, Fn}
  {
    match k
    case Use => Some(ItemUse)
    case Enum => Some(ItemEnum)
    case Struct => Some(ItemStruct)
    case Impl => Some(ItemImpl)
    case Async => Some(ItemFn)
    case Fn => Some(ItemFn)
    case Mod => Some(ItemMod)
    case Ident => Some(MacroCall)
    case _ => None
  }

  /** `Item::peek`: a declaration keyword or identifier, else the attribute peek; false at the end. */
  predicate PeekItem(t1: Option<Token>, t2: Option<Token>) {
    t1.Some? && (t1.value.kind in {Use, Enum, Struct, Impl, Async, Fn, Mod, Ident} || PeekAttribute(t1, t2))
  }

  /** `Item::peek_as_stmt`: the same keywords but not an identifier, else the attribute peek; false at the end. */
  predicate PeekAsStmt(inp: Input, pos: nat) {
    var t1 := TokenAt(inp, pos);
    var t2 := TokenAt(inp, pos + 1);
    t1.Some? && (t1.value.kind in {Use, Enum, Struct, Impl, Async, Fn, Mod} || PeekAttribute(t1, t2))
  }

  /** As a statement, an item is peeked exactly as by `Item::peek`, except that a macro call is not. */
  lemma StmtPeekIsItemPeekWithoutMacros(inp: Input, pos: nat)
    ensures PeekAsStmt(inp, pos) <==> PeekItem(TokenAt(inp, pos), TokenAt(inp, pos + 1)) && !IsAt(inp, pos, Ident)
  {
  }

  /**
   * `Item::parse`: the first token's kind picks the declaration, whose
   * own grammar `parseDecl` gives the position after it; any other token
   * is tried as an attribute, whose failure becomes `ExpectedItem` naming
   * the first token.
   */
  function ParseItem(inp: Input, pos: nat, parseDecl: (DeclKind, Input, nat) -> Result<nat, ParseError>,
                     parsePath: ParseFn<AstPath>, parseLit: ParseFn<Lit>): (r: Result<Parsed<Item>, ParseError>)
    ensures var t := PeekEof(inp, pos);
      DeclKindOf(t.kind).None? && ParseAttribute(inp, pos, parsePath, parseLit).Err? ==>
        r == Err(ParseError(t.span, ExpectedItem(t.kind)))
  {
    var t := PeekEof(inp, pos);
    if DeclKindOf(t.kind).Some? then
      var kind := DeclKindOf(t.kind).value;
      match parseDecl(kind, inp, pos)
      case Err(e) => Err(e)
      case Ok(next) => Ok(Parsed(Decl(kind), next))
    else
      match ParseAttribute(inp, pos, parsePath, parseLit)
      case Err(_) => Err(ParseError(t.span, ExpectedItem(t.kind)))
      case Ok(a) => Ok(Parsed(ItemAttribute(a.value), a.next))
  }

  /**
   * The variant follows the first token: a declaration keyword gives that
   * declaration, an identifier a macro call, anything else an attribute.
   * So the parsed item needs a semicolon exactly when it starts with an
   * identifier.
   */
  lemma ItemVariantByFirstToken(inp: Input, pos: nat, parseDecl: (DeclKind, Input, nat) -> Result<nat, ParseError>,
                                parsePath: ParseFn<AstPath>, parseLit: ParseFn<Lit>)
    requires ParseItem(inp, pos, parseDecl, parsePath, parseLit).Ok?
    ensures var item := ParseItem(inp, pos, parseDecl, parsePath, parseLit).value.value;
      && pos < |inp.tokens|
      && (item.Decl? <==> DeclKindOf(inp.tokens[pos].kind).Some?)
      && (item.Decl? ==> Some(item.kind) == DeclKindOf(inp.tokens[pos].kind))
      && (NeedsSemiColon(item) <==> inp.tokens[pos].kind == Ident)
  {
    var item := ParseItem(inp, pos, parseDecl, parsePath, parseLit).value.value;
    if item.ItemAttribute? {
      assert ParseAttribute(inp, pos, parsePath, parseLit).Ok?;
    }
  }

  /** Whatever parses as an item was accepted by the item peek. */
  lemma ParsedItemWasPeeked(inp: Input, pos: nat, parseDecl: (DeclKind, Input, nat) -> Result<nat, ParseError>,
                            parsePath: ParseFn<AstPath>, parseLit: ParseFn<Lit>)
    requires ParseItem(inp, pos, parseDecl, parsePath, parseLit).Ok?
    ensures PeekItem(TokenAt(inp, pos), TokenAt(inp, pos + 1))
  {
    if DeclKindOf(PeekEof(inp, pos).kind).None? {
      ParsedAttributeWasPeeked(inp, pos, parsePath, parseLit);
    }
  }
}
