/// What the reader sees: every text of the output with the tags that are open around it, told by the lines
/// the output was made from. Together with the nesting laws this fixes the output.
module MarkdownTexts {
  import opened Wrappers
  import opened Sequences
  import opened Markdown
  import opened MarkdownLaws

  /// A text and the tags it stands in, outermost first
  datatype Piece = Piece(path: seq<Tag>, text: string)

  // ---------------------------------------------------------------- the texts of a token stream

  /// The tags that are open after the token
  function Next(stack: seq<Tag>, t: Token): seq<Tag> {
    match t
    case Open(tag) => stack + [tag]
    case Close(_) => if stack == [] then [] else stack[..|stack| - 1]
    case _ => stack
  }

  function After(stack: seq<Tag>, ts: seq<Token>): seq<Tag>
    decreases |ts|
  {
    if ts == [] then stack else After(Next(stack, ts[0]), ts[1..])
  }

  function TextsOf(stack: seq<Tag>, t: Token): seq<Piece> {
    match t
    case Content(text) => [Piece(stack, text)]
    case CodeText(lines) => InPath(stack, lines)
    case _ => []
  }

  function Pieces(stack: seq<Tag>, ts: seq<Token>): seq<Piece>
    decreases |ts|
  {
    if ts == [] then [] else TextsOf(stack, ts[0]) + Pieces(Next(stack, ts[0]), ts[1..])
  }

  function InPath(path: seq<Tag>, texts: seq<string>): (ps: seq<Piece>)
    ensures |ps| == |texts| && forall i | 0 <= i < |texts| :: ps[i] == Piece(path, texts[i])
  {
    seq(|texts|, i requires 0 <= i < |texts| => Piece(path, texts[i]))
  }

  /// Inside these tags the tokens show these pieces and leave the tags open.
  predicate Gives(stack: seq<Tag>, ts: seq<Token>, ps: seq<Piece>) {
    Pieces(stack, ts) == ps && After(stack, ts) == stack
  }

  lemma {:induction false} PiecesConcat(stack: seq<Tag>, a: seq<Token>, b: seq<Token>)
    ensures Pieces(stack, a + b) == Pieces(stack, a) + Pieces(After(stack, a), b)
    ensures After(stack, a + b) == After(After(stack, a), b)
    decreases |a|
  {
    if a == [] {
      assert a + b == b;
    } else {
      FirstAndRest(a, b);
      PiecesConcat(Next(stack, a[0]), a[1..], b);
      var rest := Next(stack, a[0]);
      Assoc(TextsOf(stack, a[0]), Pieces(rest, a[1..]), Pieces(After(rest, a[1..]), b));
    }
  }

  lemma FirstAndRest(a: seq<Token>, b: seq<Token>)
    requires a != []
    ensures a + b != [] && (a + b)[0] == a[0] && (a + b)[1..] == a[1..] + b
  {
  }

  lemma ConcatGives(stack: seq<Tag>, a: seq<Token>, ps: seq<Piece>, b: seq<Token>, qs: seq<Piece>)
    requires Gives(stack, a, ps) && Gives(stack, b, qs)
    ensures Gives(stack, a + b, ps + qs)
  {
    PiecesConcat(stack, a, b);
  }

  lemma CloseGives(stack: seq<Tag>, tag: Tag)
    ensures Pieces(stack + [tag], [Close(tag)]) == [] && After(stack + [tag], [Close(tag)]) == stack
  {
    assert (stack + [tag])[..|stack|] == stack;
  }

  lemma ElementGives(stack: seq<Tag>, tag: Tag, inner: seq<Token>, ps: seq<Piece>)
    requires Gives(stack + [tag], inner, ps)
    ensures Gives(stack, Element(tag, inner), ps)
  {
    PiecesConcat(stack + [tag], inner, [Close(tag)]);
    CloseGives(stack, tag);
    var all := Element(tag, inner);
    assert all[0] == Open(tag) && all[1..] == inner + [Close(tag)];
    assert [] + Pieces(stack + [tag], all[1..]) == ps;
  }

  lemma LeafGives(stack: seq<Tag>, tag: Tag, text: string)
    ensures Gives(stack, Element(tag, [Content(text)]), [Piece(stack + [tag], text)])
  {
    assert [Content(text)][1..] == [];
    ElementGives(stack, tag, [Content(text)], [Piece(stack + [tag], text)]);
  }

  // ---------------------------------------------------------------- the texts of a block

  /// The lines of the block have the texts that its kind shows.
  predicate Carries(b: Block) {
    match b
    case CodeBlock(open, _, _) => open.fence.Some?
    case TableBlock(_, _, _) => true
    case ListBlock(ordered, items) =>
      forall i | 0 <= i < |items| :: if ordered then items[i].numbered.Some? else items[i].bullet.Some?
    case Single(kind, l) =>
      && kind in {Gap, Heading, Quoted, Paragraph}
      && (kind == Heading ==> l.heading.Some?) && (kind == Quoted ==> l.quote.Some?)
  }

  /// The header cells in order, each with the alignment of its column, left if the rule gives none
  function HeaderPieces(h: Line, rule: Line): (ps: seq<Piece>)
    ensures |ps| == |h.cells|
    ensures forall c | 0 <= c < |h.cells| ::
              ps[c] == Piece([TableWrap, TableTag, THead, Tr, Th(if c < |rule.aligns| then rule.aligns[c] else Left)],
                             h.cells[c])
  {
    seq(|h.cells|, c requires 0 <= c < |h.cells| =>
      Piece([TableWrap, TableTag, THead, Tr, Th(if c < |rule.aligns| then rule.aligns[c] else Left)], h.cells[c]))
  }

  /// A body row has as many cells as the header: its own in order, and empty ones for those it lacks.
  function RowPieces(width: nat, rule: Line, r: Line): (ps: seq<Piece>)
    ensures |ps| == width
    ensures forall c | 0 <= c < width ::
              ps[c] == Piece([TableWrap, TableTag, TBody, Tr, Td(if c < |rule.aligns| then rule.aligns[c] else Left)],
                             if c < |r.cells| then r.cells[c] else "")
  {
    seq(width, c requires 0 <= c < width =>
      Piece([TableWrap, TableTag, TBody, Tr, Td(if c < |rule.aligns| then rule.aligns[c] else Left)],
            if c < |r.cells| then r.cells[c] else ""))
  }

  function RowsPieces(width: nat, rule: Line, rows: seq<Line>): seq<Piece> {
    if rows == [] then [] else RowsPieces(width, rule, rows[..|rows| - 1]) + RowPieces(width, rule, rows[|rows| - 1])
  }

  function BlockPieces(b: Block): seq<Piece>
    requires Carries(b)
  {
    match b
    case CodeBlock(open, body, _) =>
      seq(|body|, i requires 0 <= i < |body| => Piece([Pre, Code(open.fence.value)], body[i].raw))
    case TableBlock(h, rule, rows) => HeaderPieces(h, rule) + RowsPieces(|h.cells|, rule, rows)
    case ListBlock(ordered, items) =>
      seq(|items|, i requires 0 <= i < |items| =>
        if ordered then Piece([Ol, Li], items[i].numbered.value) else Piece([Ul, Li], items[i].bullet.value))
    case Single(kind, l) =>
      (match kind
       case Gap => []
       case Heading => [Piece([H(l.heading.value.0)], l.heading.value.1)]
       case Quoted => [Piece([BlockQuote], l.quote.value)]
       case _ => [Piece([P], l.text)])
  }

  function AllPieces(bs: seq<Block>): seq<Piece>
    requires forall i | 0 <= i < |bs| :: Carries(bs[i])
  {
    if bs == [] then [] else BlockPieces(bs[0]) + AllPieces(bs[1..])
  }

  // ---------------------------------------------------------------- every block shows its texts

  /// The cells that the two loops over cells emit
  function CellPieces(stack: seq<Tag>, header: bool, cells: seq<string>, aligns: seq<Align>, n: nat): (ps: seq<Piece>)
    ensures |ps| == n
    ensures forall c | 0 <= c < n ::
              ps[c] == Piece(stack + [CellTag(header, aligns, c)], if c < |cells| then cells[c] else "")
  {
    seq(n, c requires 0 <= c < n => Piece(stack + [CellTag(header, aligns, c)], if c < |cells| then cells[c] else ""))
  }

  function CellTag(header: bool, aligns: seq<Align>, c: nat): Tag {
    var align := if c < |aligns| then aligns[c] else Left;
    if header then Th(align) else Td(align)
  }

  lemma {:induction false} CellsGive(stack: seq<Tag>, header: bool, cells: seq<string>, aligns: seq<Align>, n: nat)
    ensures Gives(stack, RowCells(header, cells, aligns, n), CellPieces(stack, header, cells, aligns, n))
  {
    if n > 0 {
      var tag, text := CellTag(header, aligns, n - 1), if n - 1 < |cells| then cells[n - 1] else "";
      CellsGive(stack, header, cells, aligns, n - 1);
      LeafGives(stack, tag, text);
      ConcatGives(stack, RowCells(header, cells, aligns, n - 1), CellPieces(stack, header, cells, aligns, n - 1),
                  Element(tag, [Content(text)]), [Piece(stack + [tag], text)]);
      CellPiecesLast(stack, header, cells, aligns, n);
    }
  }

  lemma CellPiecesLast(stack: seq<Tag>, header: bool, cells: seq<string>, aligns: seq<Align>, n: nat)
    requires n > 0
    ensures CellPieces(stack, header, cells, aligns, n)
         == CellPieces(stack, header, cells, aligns, n - 1)
            + [Piece(stack + [CellTag(header, aligns, n - 1)], if n - 1 < |cells| then cells[n - 1] else "")]
  {
  }

  const IN_BODY := [TableWrap, TableTag, TBody]

  lemma RowGives(rule: Line, r: Line, width: nat)
    ensures Gives(IN_BODY, Element(Tr, RowCells(false, r.cells, rule.aligns, width)), RowPieces(width, rule, r))
  {
    CellsGive(IN_BODY + [Tr], false, r.cells, rule.aligns, width);
    SameCells(rule, r, width);
    ElementGives(IN_BODY, Tr, RowCells(false, r.cells, rule.aligns, width), RowPieces(width, rule, r));
  }

  lemma SameCells(rule: Line, r: Line, width: nat)
    ensures CellPieces(IN_BODY + [Tr], false, r.cells, rule.aligns, width) == RowPieces(width, rule, r)
  {
    assert forall t: Tag :: IN_BODY + [Tr] + [t] == [TableWrap, TableTag, TBody, Tr, t];
  }

  lemma {:induction false} RowsGive(rule: Line, rows: seq<Line>, width: nat)
    ensures Gives(IN_BODY, BodyRows(rows, rule.aligns, width), RowsPieces(width, rule, rows))
  {
    if rows != [] {
      var front, last := rows[..|rows| - 1], rows[|rows| - 1];
      RowsGive(rule, front, width);
      RowGives(rule, last, width);
      ConcatGives(IN_BODY, BodyRows(front, rule.aligns, width), RowsPieces(width, rule, front),
                  Element(Tr, RowCells(false, last.cells, rule.aligns, width)), RowPieces(width, rule, last));
    }
  }

  lemma HeadGives(h: Line, rule: Line)
    ensures Gives([TableWrap, TableTag], Element(THead, Element(Tr, RowCells(true, h.cells, rule.aligns, |h.cells|))),
                  HeaderPieces(h, rule))
  {
    var cells := RowCells(true, h.cells, rule.aligns, |h.cells|);
    CellsGive([TableWrap, TableTag] + [THead] + [Tr], true, h.cells, rule.aligns, |h.cells|);
    SameHeader(h, rule);
    ElementGives([TableWrap, TableTag] + [THead], Tr, cells, HeaderPieces(h, rule));
    ElementGives([TableWrap, TableTag], THead, Element(Tr, cells), HeaderPieces(h, rule));
  }

  lemma SameHeader(h: Line, rule: Line)
    ensures CellPieces([TableWrap, TableTag] + [THead] + [Tr], true, h.cells, rule.aligns, |h.cells|)
         == HeaderPieces(h, rule)
  {
    assert forall t: Tag :: [TableWrap, TableTag] + [THead] + [Tr] + [t] == [TableWrap, TableTag, THead, Tr, t];
  }

  /// A rendered table shows the header cells in order, and then row by row the cells of the columns.
  lemma TableGives(h: Line, rule: Line, rows: seq<Line>)
    ensures Gives([], TableTokens(h, rule, rows), HeaderPieces(h, rule) + RowsPieces(|h.cells|, rule, rows))
  {
    var width := |h.cells|;
    var head := Element(THead, Element(Tr, RowCells(true, h.cells, rule.aligns, width)));
    var body := BodyRows(rows, rule.aligns, width);
    var inner, ps := head + Element(TBody, body), HeaderPieces(h, rule) + RowsPieces(width, rule, rows);
    HeadGives(h, rule);
    RowsGive(rule, rows, width);
    assert [TableWrap, TableTag] + [TBody] == IN_BODY;
    ElementGives([TableWrap, TableTag], TBody, body, RowsPieces(width, rule, rows));
    ConcatGives([TableWrap, TableTag], head, HeaderPieces(h, rule),
                Element(TBody, body), RowsPieces(width, rule, rows));
    assert [TableWrap] + [TableTag] == [TableWrap, TableTag] && [] + [TableWrap] == [TableWrap];
    ElementGives([TableWrap], TableTag, inner, ps);
    ElementGives([], TableWrap, Element(TableTag, inner), ps);
  }

  lemma {:induction false} ItemsGive(ordered: bool, items: seq<Line>)
    requires Carries(ListBlock(ordered, items))
    ensures Gives([if ordered then Ol else Ul], ItemTokens(ordered, items), BlockPieces(ListBlock(ordered, items)))
  {
    if items != [] {
      var list := [if ordered then Ol else Ul];
      var text := if ordered then items[0].numbered.value else items[0].bullet.value;
      ItemsGive(ordered, items[1..]);
      LeafGives(list, Li, text);
      ConcatGives(list, Element(Li, [Content(text)]), [Piece(list + [Li], text)],
                  ItemTokens(ordered, items[1..]), BlockPieces(ListBlock(ordered, items[1..])));
      ItemPiecesFirst(ordered, items);
    }
  }

  lemma ItemPiecesFirst(ordered: bool, items: seq<Line>)
    requires Carries(ListBlock(ordered, items)) && items != []
    ensures Carries(ListBlock(ordered, items[1..]))
    ensures BlockPieces(ListBlock(ordered, items))
         == [Piece([if ordered then Ol else Ul] + [Li],
                   if ordered then items[0].numbered.value else items[0].bullet.value)]
            + BlockPieces(ListBlock(ordered, items[1..]))
  {
    assert [if ordered then Ol else Ul] + [Li] == if ordered then [Ol, Li] else [Ul, Li];
  }

  lemma CodeGives(lang: string, body: seq<Line>)
    ensures Gives([], CodeTokens(lang, Raws(body)), InPath([Pre, Code(lang)], Raws(body)))
  {
    var texts := Raws(body);
    assert [CodeText(texts)][1..] == [] && [Pre] + [Code(lang)] == [Pre, Code(lang)] && [] + [Pre] == [Pre];
    assert InPath([Pre, Code(lang)], texts) + [] == InPath([Pre, Code(lang)], texts);
    ElementGives([Pre], Code(lang), [CodeText(texts)], InPath([Pre, Code(lang)], texts));
    ElementGives([], Pre, Element(Code(lang), [CodeText(texts)]), InPath([Pre, Code(lang)], texts));
  }

  lemma SingleGives(kind: Kind, l: Line)
    requires Carries(Single(kind, l))
    ensures Gives([], SingleTokens(kind, l), BlockPieces(Single(kind, l)))
  {
    assert forall t: Tag :: [] + [t] == [t];
    match kind {
      case Heading => LeafGives([], H(l.heading.value.0), l.heading.value.1);
      case Quoted => LeafGives([], BlockQuote, l.quote.value);
      case Paragraph => LeafGives([], P, l.text);
      case _ =>
    }
  }

  lemma BlockGives(b: Block)
    requires Carries(b)
    ensures Gives([], BlockTokens(b), BlockPieces(b))
  {
    match b {
      case CodeBlock(open, body, _) =>
        CodeGives(open.fence.value, body);
        assert InPath([Pre, Code(open.fence.value)], Raws(body)) == BlockPieces(b);
      case TableBlock(h, rule, rows) => TableGives(h, rule, rows);
      case ListBlock(ordered, items) =>
        ItemsGive(ordered, items);
        assert [] + [ListTag(ordered)] == [ListTag(ordered)];
        ElementGives([], ListTag(ordered), ItemTokens(ordered, items), BlockPieces(b));
      case Single(kind, l) => SingleGives(kind, l);
    }
  }

  // ---------------------------------------------------------------- whole answers

  lemma {:induction false} EmitGives(bs: seq<Block>)
    requires forall i | 0 <= i < |bs| :: Carries(bs[i])
    ensures Gives([], Emit(bs), AllPieces(bs))
  {
    if bs != [] {
      BlockGives(bs[0]);
      EmitGives(bs[1..]);
      ConcatGives([], BlockTokens(bs[0]), BlockPieces(bs[0]), Emit(bs[1..]), AllPieces(bs[1..]));
    }
  }

  lemma MaximalCarries(b: Block, after: seq<Line>)
    requires Maximal(b, after)
    ensures Carries(b)
  {
    match b {
      case ListBlock(ordered, items) =>
        forall i | 0 <= i < |items| ensures if ordered then items[i].numbered.Some? else items[i].bullet.Some? {
          assert KindOf(items[i..] + after) == (if ordered then Numbered else Bullet);
          assert (items[i..] + after)[0] == items[i];
        }
      case Single(kind, l) => assert ([l] + after)[0] == l;
      case _ =>
    }
  }

  lemma {:induction false} CanonicalCarries(bs: seq<Block>)
    requires Canonical(bs)
    ensures forall i | 0 <= i < |bs| :: Carries(bs[i])
  {
    if bs != [] {
      MaximalCarries(bs[0], AllLines(bs[1..]));
      CanonicalCarries(bs[1..]);
      assert forall i | 1 <= i < |bs| :: bs[i] == bs[1..][i - 1];
    }
  }

  /// For every answer: the texts of the output are those of its lines, in order, each in the tags of its block.
  lemma RenderedTexts(lines: seq<Line>)
    ensures forall i | 0 <= i < |Blocks(lines)| :: Carries(Blocks(lines)[i])
    ensures Pieces([], Rendered(lines)) == AllPieces(Blocks(lines))
  {
    BlocksAreCanonical(lines);
    CanonicalCarries(Blocks(lines));
    EmitGives(Blocks(lines));
  }
}
