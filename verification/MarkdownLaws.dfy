/// What the translation guarantees for every text: nothing is lost, the grouping is the only
/// canonical one, and the emitted HTML is well nested.
module MarkdownLaws {
  import opened Wrappers
  import opened Markdown

  // ---------------------------------------------------------------- every line is used once

  function AllLines(bs: seq<Block>): seq<Line> {
    if bs == [] then [] else LinesOf(bs[0]) + AllLines(bs[1..])
  }

  lemma AllLinesCons(b: Block, bs: seq<Block>)
    ensures AllLines([b] + bs) == LinesOf(b) + AllLines(bs)
  {
    assert ([b] + bs)[1..] == bs;
  }

  /// Every line is consumed exactly once, in order.
  lemma {:induction false} NothingLost(lines: seq<Line>)
    ensures AllLines(Blocks(lines)) == lines
    decreases |lines|
  {
    if lines != [] {
      var (b, rest) := FirstBlock(lines);
      NothingLost(rest);
      AllLinesCons(b, Blocks(rest));
    }
  }

  // ---------------------------------------------------------------- the grouping is the only one

  /// A block is what its lines start, and extends as far as it can, given the lines after it.
  ghost predicate Maximal(b: Block, after: seq<Line>) {
    match b
    case CodeBlock(open, body, close) =>
      && open.fence.Some? && (forall i | 0 <= i < |body| :: !body[i].closesFence)
      && (if close == [] then after == [] else |close| == 1 && close[0].closesFence)
    case TableBlock(h, s, rows) =>
      && KindOf([h, s] + rows + after) == TableStart
      && (forall i | 0 <= i < |rows| :: rows[i].tableRow)
      && (after == [] || !after[0].tableRow)
    case ListBlock(ordered, items) =>
      && items != [] && IsRun(ordered, items, after)
      && (after == [] || KindOf(after) != (if ordered then Numbered else Bullet))
    case Single(kind, l) => kind in {Gap, Heading, Quoted, Paragraph} && KindOf([l] + after) == kind
  }

  ghost predicate IsRun(ordered: bool, items: seq<Line>, after: seq<Line>) {
    forall i | 0 <= i < |items| :: KindOf(items[i..] + after) == (if ordered then Numbered else Bullet)
  }

  ghost predicate Canonical(bs: seq<Block>) {
    bs == [] || (Maximal(bs[0], AllLines(bs[1..])) && Canonical(bs[1..]))
  }

  lemma {:induction false} CodeRunIs(body: seq<Line>, after: seq<Line>)
    requires forall i | 0 <= i < |body| :: !body[i].closesFence
    requires after == [] || after[0].closesFence
    ensures CodeRun(body + after) == |body|
  {
    if body == [] {
      assert body + after == after;
    } else {
      assert (body + after)[1..] == body[1..] + after;
      CodeRunIs(body[1..], after);
    }
  }

  lemma {:induction false} RowRunIs(rows: seq<Line>, after: seq<Line>)
    requires forall i | 0 <= i < |rows| :: rows[i].tableRow
    requires after == [] || !after[0].tableRow
    ensures RowRun(rows + after) == |rows|
  {
    if rows == [] {
      assert rows + after == after;
    } else {
      assert (rows + after)[1..] == rows[1..] + after;
      RowRunIs(rows[1..], after);
    }
  }

  lemma {:induction false} ListRunIs(ordered: bool, items: seq<Line>, after: seq<Line>)
    requires IsRun(ordered, items, after)
    requires after == [] || KindOf(after) != (if ordered then Numbered else Bullet)
    ensures ListRun(ordered, items + after) == |items|
  {
    if items == [] {
      assert items + after == after;
    } else {
      assert items[0..] == items;
      assert (items + after)[1..] == items[1..] + after;
      assert forall i | 0 <= i < |items| - 1 :: items[1..][i..] == items[i + 1..];
      ListRunIs(ordered, items[1..], after);
    }
  }

  lemma FirstIsCode(open: Line, body: seq<Line>, close: seq<Line>, after: seq<Line>)
    requires Maximal(CodeBlock(open, body, close), after)
    ensures FirstBlock([open] + body + close + after) == (CodeBlock(open, body, close), after)
  {
    var lines := [open] + body + close + after;
    CodeRunIs(body, close + after);
    assert lines[1..] == body + (close + after);
    assert lines[1 + |body|..] == close + after;
    assert lines[1..1 + |body|] == body;
    if close != [] {
      assert close == [close[0]];
      assert (close + after)[1..] == after;
    }
  }

  lemma FirstIsTable(h: Line, s: Line, rows: seq<Line>, after: seq<Line>)
    requires Maximal(TableBlock(h, s, rows), after)
    ensures FirstBlock([h, s] + rows + after) == (TableBlock(h, s, rows), after)
  {
    var lines := [h, s] + rows + after;
    RowRunIs(rows, after);
    assert lines[2..] == rows + after;
    assert lines[2..2 + |rows|] == rows && lines[2 + |rows|..] == after;
  }

  lemma FirstIsList(ordered: bool, items: seq<Line>, after: seq<Line>)
    requires Maximal(ListBlock(ordered, items), after)
    ensures FirstBlock(items + after) == (ListBlock(ordered, items), after)
  {
    var lines := items + after;
    assert items[0..] == items;
    ListRunIs(ordered, items, after);
    assert lines[..|items|] == items && lines[|items|..] == after;
  }

  /// A maximal block is the one that the grouping takes first.
  lemma FirstIsMaximal(b: Block, after: seq<Line>)
    requires Maximal(b, after)
    ensures LinesOf(b) + after != [] && FirstBlock(LinesOf(b) + after) == (b, after)
  {
    match b {
      case CodeBlock(open, body, close) => FirstIsCode(open, body, close, after);
      case TableBlock(h, s, rows) => FirstIsTable(h, s, rows, after);
      case ListBlock(ordered, items) => FirstIsList(ordered, items, after);
      case Single(_, l) => assert ([l] + after)[1..] == after;
    }
  }

  lemma {:induction false} CodeRunStops(lines: seq<Line>)
    ensures var n := CodeRun(lines);
            (forall i | 0 <= i < n :: !lines[i].closesFence) && (n < |lines| ==> lines[n].closesFence)
  {
    if lines != [] && !lines[0].closesFence {
      CodeRunStops(lines[1..]);
      assert forall i | 1 <= i < |lines| :: lines[i] == lines[1..][i - 1];
    }
  }

  lemma {:induction false} RowRunStops(lines: seq<Line>)
    ensures var n := RowRun(lines);
            (forall i | 0 <= i < n :: lines[i].tableRow) && (n < |lines| ==> !lines[n].tableRow)
  {
    if lines != [] && lines[0].tableRow {
      RowRunStops(lines[1..]);
      assert forall i | 1 <= i < |lines| :: lines[i] == lines[1..][i - 1];
    }
  }

  lemma Rejoin(lines: seq<Line>, i: nat, n: nat)
    requires i <= n <= |lines|
    ensures lines[..n][i..] + lines[n..] == lines[i..]
  {
  }

  lemma {:induction false} ListRunStops(ordered: bool, lines: seq<Line>)
    ensures var n := ListRun(ordered, lines);
            && IsRun(ordered, lines[..n], lines[n..])
            && (n < |lines| ==> KindOf(lines[n..]) != (if ordered then Numbered else Bullet))
  {
    var n := ListRun(ordered, lines);
    if n > 0 {
      ListRunStops(ordered, lines[1..]);
      assert lines[n..] == lines[1..][n - 1..];
      forall i | 0 <= i < n ensures KindOf(lines[..n][i..] + lines[n..]) == (if ordered then Numbered else Bullet) {
        Rejoin(lines, i, n);
        if i > 0 {
          var rest := lines[1..];
          Rejoin(rest, i - 1, n - 1);
          assert rest[i - 1..] == lines[i..];
        } else {
          assert lines[0..] == lines;
        }
      }
    } else {
      assert lines[0..] == lines;
    }
  }

  lemma FirstCodeIsMaximal(lines: seq<Line>)
    requires lines != [] && KindOf(lines) == Fence
    ensures Maximal(FirstBlock(lines).0, FirstBlock(lines).1)
  {
    CodeRunStops(lines[1..]);
    var body := FirstBlock(lines).0.body;
    assert body == lines[1..][..|body|];
  }

  lemma FirstTableIsMaximal(lines: seq<Line>)
    requires lines != [] && KindOf(lines) == TableStart
    ensures Maximal(FirstBlock(lines).0, FirstBlock(lines).1)
  {
    RowRunStops(lines[2..]);
    var (b, after) := FirstBlock(lines);
    assert b.rows == lines[2..][..|b.rows|];
    assert [b.header, b.separator] + b.rows + after == lines;
  }

  lemma FirstListIsMaximal(ordered: bool, lines: seq<Line>)
    requires lines != [] && KindOf(lines) == (if ordered then Numbered else Bullet)
    ensures Maximal(FirstBlock(lines).0, FirstBlock(lines).1)
  {
    ListRunStops(ordered, lines);
    assert ListRun(ordered, lines) == |FirstBlock(lines).0.items|;
  }

  lemma FirstBlockIsMaximal(lines: seq<Line>)
    requires lines != []
    ensures Maximal(FirstBlock(lines).0, FirstBlock(lines).1)
  {
    match KindOf(lines) {
      case Fence => FirstCodeIsMaximal(lines);
      case TableStart => FirstTableIsMaximal(lines);
      case Bullet => FirstListIsMaximal(false, lines);
      case Numbered => FirstListIsMaximal(true, lines);
      case _ => assert [lines[0]] + lines[1..] == lines;
    }
  }

  /// The grouping is canonical...
  lemma {:induction false} BlocksAreCanonical(lines: seq<Line>)
    ensures Canonical(Blocks(lines))
    decreases |lines|
  {
    if lines != [] {
      FirstBlockIsMaximal(lines);
      var rest := FirstBlock(lines).1;
      NothingLost(rest);
      BlocksAreCanonical(rest);
      assert Blocks(lines)[1..] == Blocks(rest);
    }
  }

  /// ...and it is the only canonical one: regrouping a canonical sequence of blocks gives it back.
  lemma {:induction false} CanonicalIsUnique(bs: seq<Block>)
    requires Canonical(bs)
    ensures Blocks(AllLines(bs)) == bs
  {
    if bs != [] {
      FirstIsMaximal(bs[0], AllLines(bs[1..]));
      CanonicalIsUnique(bs[1..]);
      assert [bs[0]] + bs[1..] == bs;
    }
  }

  // ---------------------------------------------------------------- nesting

  predicate IsList(t: Tag) {
    t == Ul || t == Ol
  }

  /// Reads tokens against a stack of open tags. Stuck on a closing tag that does not match the
  /// innermost open one, and on a list opened inside a list.
  function Nest(stack: seq<Tag>, ts: seq<Token>): Option<seq<Tag>>
    decreases |ts|
  {
    if ts == [] then Some(stack)
    else
      match ts[0]
      case Open(t) =>
        if IsList(t) && exists i | 0 <= i < |stack| :: IsList(stack[i]) then None else Nest(stack + [t], ts[1..])
      case Close(t) =>
        if stack != [] && stack[|stack| - 1] == t then Nest(stack[..|stack| - 1], ts[1..]) else None
      case _ => Nest(stack, ts[1..])
  }

  /// The tokens bring any stack without open lists back to itself.
  ghost predicate Balanced(ts: seq<Token>) {
    forall stack :: NoList(stack) ==> Nest(stack, ts) == Some(stack)
  }

  predicate NoList(stack: seq<Tag>) {
    forall i | 0 <= i < |stack| :: !IsList(stack[i])
  }

  /// The tokens bring every stack back to itself: no list is opened in them.
  ghost predicate Inert(ts: seq<Token>) {
    forall stack :: Nest(stack, ts) == Some(stack)
  }

  lemma {:induction false} NestConcat(stack: seq<Tag>, a: seq<Token>, b: seq<Token>)
    ensures Nest(stack, a + b) == match Nest(stack, a) case Some(s) => Nest(s, b) case None => None
    decreases |a|
  {
    if a == [] {
      assert a + b == b;
    } else {
      assert (a + b)[1..] == a[1..] + b;
      match a[0] {
        case Open(t) => NestConcat(stack + [t], a[1..], b);
        case Close(t) =>
          if stack != [] {
            NestConcat(stack[..|stack| - 1], a[1..], b);
          }
        case _ => NestConcat(stack, a[1..], b);
      }
    }
  }

  lemma InertConcat(a: seq<Token>, b: seq<Token>)
    requires Inert(a) && Inert(b)
    ensures Inert(a + b)
  {
    forall stack ensures Nest(stack, a + b) == Some(stack) {
      NestConcat(stack, a, b);
    }
  }

  lemma ElementNest(stack: seq<Tag>, tag: Tag, inner: seq<Token>)
    requires !IsList(tag) || NoList(stack)
    requires Nest(stack + [tag], inner) == Some(stack + [tag])
    ensures Nest(stack, Element(tag, inner)) == Some(stack)
  {
    assert Element(tag, inner) == [Open(tag)] + (inner + [Close(tag)]);
    NestConcat(stack + [tag], inner, [Close(tag)]);
    assert (stack + [tag])[..|stack|] == stack;
    assert (inner + [Close(tag)]) == Element(tag, inner)[1..];
  }

  lemma ElementInert(tag: Tag, inner: seq<Token>)
    requires !IsList(tag) && Inert(inner)
    ensures Inert(Element(tag, inner))
  {
    forall stack ensures Nest(stack, Element(tag, inner)) == Some(stack) {
      ElementNest(stack, tag, inner);
    }
  }

  lemma LeafInert(tag: Tag, leaf: Token)
    requires !IsList(tag) && (leaf.Content? || leaf.CodeText?)
    ensures Inert(Element(tag, [leaf]))
  {
    ElementInert(tag, [leaf]);
  }

  lemma {:induction false} CellsInert(header: bool, cells: seq<string>, aligns: seq<Align>, n: nat)
    ensures Inert(RowCells(header, cells, aligns, n))
  {
    if n > 0 {
      CellsInert(header, cells, aligns, n - 1);
      var tag := if header then Th(AlignAt(aligns, n - 1)) else Td(AlignAt(aligns, n - 1));
      var front, leaf := RowCells(header, cells, aligns, n - 1), Element(tag, [Content(CellAt(cells, n - 1))]);
      LeafInert(tag, Content(CellAt(cells, n - 1)));
      InertConcat(front, leaf);
      assert RowCells(header, cells, aligns, n) == front + leaf;
    }
  }

  lemma {:induction false} RowsInert(rows: seq<Line>, aligns: seq<Align>, width: nat)
    ensures Inert(BodyRows(rows, aligns, width))
  {
    if rows != [] {
      var n := |rows| - 1;
      RowsInert(rows[..n], aligns, width);
      CellsInert(false, rows[n].cells, aligns, width);
      ElementInert(Tr, RowCells(false, rows[n].cells, aligns, width));
      InertConcat(BodyRows(rows[..n], aligns, width), Element(Tr, RowCells(false, rows[n].cells, aligns, width)));
    }
  }

  lemma TableInert(header: Line, separator: Line, rows: seq<Line>)
    ensures Inert(TableTokens(header, separator, rows))
  {
    var width := |header.cells|;
    var head := RowCells(true, header.cells, separator.aligns, width);
    CellsInert(true, header.cells, separator.aligns, width);
    ElementInert(Tr, head);
    ElementInert(THead, Element(Tr, head));
    RowsInert(rows, separator.aligns, width);
    ElementInert(TBody, BodyRows(rows, separator.aligns, width));
    var inner := Element(THead, Element(Tr, head)) + Element(TBody, BodyRows(rows, separator.aligns, width));
    InertConcat(Element(THead, Element(Tr, head)), Element(TBody, BodyRows(rows, separator.aligns, width)));
    ElementInert(TableTag, inner);
    ElementInert(TableWrap, Element(TableTag, inner));
  }

  lemma {:induction false} ItemsInert(ordered: bool, items: seq<Line>)
    ensures Inert(ItemTokens(ordered, items))
  {
    if items != [] {
      ItemsInert(ordered, items[1..]);
      LeafInert(Li, Content(ItemText(ordered, items[0])));
      InertConcat(Element(Li, [Content(ItemText(ordered, items[0]))]), ItemTokens(ordered, items[1..]));
    }
  }

  lemma BlockBalanced(b: Block)
    ensures Balanced(BlockTokens(b))
  {
    match b {
      case CodeBlock(open, body, _) =>
        var lang := if open.fence.Some? then open.fence.value else "";
        LeafInert(Code(lang), CodeText(Raws(body)));
        ElementInert(Pre, Element(Code(lang), [CodeText(Raws(body))]));
      case TableBlock(h, s, rows) => TableInert(h, s, rows);
      case ListBlock(ordered, items) =>
        ItemsInert(ordered, items);
        forall stack | NoList(stack) ensures Nest(stack, BlockTokens(b)) == Some(stack) {
          ElementNest(stack, ListTag(ordered), ItemTokens(ordered, items));
        }
      case Single(kind, l) =>
        LeafInert(P, Content(l.text));
        if l.heading.Some? { LeafInert(H(l.heading.value.0), Content(l.heading.value.1)); }
        if l.quote.Some? { LeafInert(BlockQuote, Content(l.quote.value)); }
    }
  }

  lemma {:induction false} EmitBalanced(bs: seq<Block>)
    ensures Balanced(Emit(bs))
  {
    if bs != [] {
      BlockBalanced(bs[0]);
      EmitBalanced(bs[1..]);
      forall stack | NoList(stack) ensures Nest(stack, Emit(bs)) == Some(stack) {
        NestConcat(stack, BlockTokens(bs[0]), Emit(bs[1..]));
      }
    }
  }

  /// The output of every text is well nested and fully closed, and an ordered and an unordered list
  /// are never open together.
  lemma RenderedIsWellNested(lines: seq<Line>)
    ensures Nest([], Rendered(lines)) == Some([])
  {
    EmitBalanced(Blocks(lines));
  }

  // ---------------------------------------------------------------- lists are not empty

  /// Every list that opens has an item right after its opening tag.
  predicate ListsHaveItems(ts: seq<Token>) {
    forall i | 0 <= i < |ts| && ts[i].Open? && IsList(ts[i].tag) :: i + 1 < |ts| && ts[i + 1] == Open(Li)
  }

  predicate OpensNoList(ts: seq<Token>) {
    forall i | 0 <= i < |ts| :: ts[i].Open? ==> !IsList(ts[i].tag)
  }

  lemma {:induction false} CellsOpenNoList(header: bool, cells: seq<string>, aligns: seq<Align>, n: nat)
    ensures OpensNoList(RowCells(header, cells, aligns, n))
  {
    if n > 0 {
      CellsOpenNoList(header, cells, aligns, n - 1);
    }
  }

  lemma {:induction false} RowsOpenNoList(rows: seq<Line>, aligns: seq<Align>, width: nat)
    ensures OpensNoList(BodyRows(rows, aligns, width))
  {
    if rows != [] {
      RowsOpenNoList(rows[..|rows| - 1], aligns, width);
      CellsOpenNoList(false, rows[|rows| - 1].cells, aligns, width);
    }
  }

  lemma {:induction false} ItemsOpenNoList(ordered: bool, items: seq<Line>)
    ensures OpensNoList(ItemTokens(ordered, items))
  {
    if items != [] {
      ItemsOpenNoList(ordered, items[1..]);
    }
  }

  lemma TableOpensNoList(h: Line, s: Line, rows: seq<Line>)
    ensures OpensNoList(TableTokens(h, s, rows))
  {
    CellsOpenNoList(true, h.cells, s.aligns, |h.cells|);
    RowsOpenNoList(rows, s.aligns, |h.cells|);
  }

  lemma BlockListsHaveItems(b: Block)
    requires b.ListBlock? ==> b.items != []
    ensures ListsHaveItems(BlockTokens(b))
  {
    match b {
      case CodeBlock(_, _, _) =>
      case TableBlock(h, s, rows) =>
        TableOpensNoList(h, s, rows);
      case ListBlock(ordered, items) =>
        ItemsOpenNoList(ordered, items);
        assert BlockTokens(b)[1] == ItemTokens(ordered, items)[0] == Open(Li);
      case Single(_, _) =>
    }
  }

  lemma {:induction false} EmitListsHaveItems(bs: seq<Block>)
    requires Canonical(bs)
    ensures ListsHaveItems(Emit(bs))
  {
    if bs != [] {
      BlockListsHaveItems(bs[0]);
      EmitListsHaveItems(bs[1..]);
    }
  }

  /// No list in the output is empty.
  lemma RenderedListsHaveItems(lines: seq<Line>)
    ensures ListsHaveItems(Rendered(lines))
  {
    BlocksAreCanonical(lines);
    EmitListsHaveItems(Blocks(lines));
  }
}
