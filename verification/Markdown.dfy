/// The chat view's Markdown translator (src/frontend/js/app-chat.js, renderAssistantMarkdown).
///
/// A line carries the answers of the source's regular expressions about it, so every theorem here
/// holds for any classification of the lines. HTML is a sequence of opening tags, closing tags and
/// texts; inline formatting of the texts is not modelled.
module Markdown {
  import opened Wrappers
  import opened Text
  import opened Sequences

  datatype Align = Left | Right | Center

  datatype Line = Line(
    raw: string,                  // the line itself, kept inside code blocks
    closesFence: bool,            // starts with ```
    fence: Option<string>,        // a whole opening fence, with its language
    blank: bool,
    tableRow: bool,
    separatorRow: bool,
    cells: seq<string>,           // parseTableCells
    aligns: seq<Align>,           // parseTableAlign
    heading: Option<(nat, string)>,
    quote: Option<string>,
    bullet: Option<string>,
    numbered: Option<string>,
    text: string)                 // the trimmed line

  datatype Tag =
    | Ul | Ol | Li | H(level: nat) | BlockQuote | P | Pre | Code(lang: string)
    | TableWrap | TableTag | THead | TBody | Tr | Th(align: Align) | Td(cellAlign: Align)

  datatype Token = Open(tag: Tag) | Close(closed: Tag) | Content(text: string) | CodeText(lines: seq<string>)

  // ---------------------------------------------------------------- blocks

  datatype Kind = Fence | Gap | TableStart | Heading | Quoted | Bullet | Numbered | Paragraph

  /// What the first of some remaining lines starts, outside a code block. The tests are tried in
  /// this order; only the table test looks at the next line.
  function KindOf(lines: seq<Line>): Kind
    requires lines != []
  {
    var l := lines[0];
    if l.fence.Some? then Fence
    else if l.blank then Gap
    else if l.tableRow && |lines| > 1 && lines[1].separatorRow then TableStart
    else if l.heading.Some? then Heading
    else if l.quote.Some? then Quoted
    else if l.bullet.Some? then Bullet
    else if l.numbered.Some? then Numbered
    else Paragraph
  }

  datatype Block =
    | CodeBlock(open: Line, body: seq<Line>, close: seq<Line>)
    | TableBlock(header: Line, separator: Line, rows: seq<Line>)
    | ListBlock(ordered: bool, items: seq<Line>)
    | Single(kind: Kind, line: Line)

  /// How many lines precede the closing fence (all of them when there is none)
  function CodeRun(lines: seq<Line>): (n: nat)
    ensures n <= |lines|
  {
    if lines == [] || lines[0].closesFence then 0 else 1 + CodeRun(lines[1..])
  }

  function RowRun(lines: seq<Line>): (n: nat)
    ensures n <= |lines|
  {
    if lines == [] || !lines[0].tableRow then 0 else 1 + RowRun(lines[1..])
  }

  /// The longest run of lines of one list kind
  function ListRun(ordered: bool, lines: seq<Line>): (n: nat)
    ensures n <= |lines|
  {
    if lines == [] || KindOf(lines) != (if ordered then Numbered else Bullet) then 0
    else 1 + ListRun(ordered, lines[1..])
  }

  /// The lines a block is made of
  function LinesOf(b: Block): seq<Line> {
    match b
    case CodeBlock(open, body, close) => [open] + body + close
    case TableBlock(h, s, rows) => [h, s] + rows
    case ListBlock(_, items) => items
    case Single(_, l) => [l]
  }

  lemma CodeCut(lines: seq<Line>, k: nat)
    requires 1 <= k <= |lines|
    ensures k == |lines| ==> [lines[0]] + lines[1..k] + [] + [] == lines
    ensures k < |lines| ==> [lines[0]] + lines[1..k] + [lines[k..][0]] + lines[k..][1..] == lines
  {
  }

  lemma RowsCut(lines: seq<Line>, k: nat)
    requires 2 <= k <= |lines|
    ensures [lines[0], lines[1]] + lines[2..k] + lines[k..] == lines
  {
  }

  /// The first block and the lines after it. Blocks extend as far as they can.
  function FirstBlock(lines: seq<Line>): (r: (Block, seq<Line>))
    requires lines != []
    ensures LinesOf(r.0) + r.1 == lines && |r.1| < |lines|
  {
    match KindOf(lines)
    case Fence =>
      var n := CodeRun(lines[1..]);
      var after := lines[1 + n..];
      CodeCut(lines, 1 + n);
      if after == [] then (CodeBlock(lines[0], lines[1..1 + n], []), [])
      else (CodeBlock(lines[0], lines[1..1 + n], [after[0]]), after[1..])
    case TableStart =>
      var n := RowRun(lines[2..]);
      RowsCut(lines, 2 + n);
      (TableBlock(lines[0], lines[1], lines[2..2 + n]), lines[2 + n..])
    case Bullet => var n := ListRun(false, lines[1..]); (ListBlock(false, lines[..1 + n]), lines[1 + n..])
    case Numbered => var n := ListRun(true, lines[1..]); (ListBlock(true, lines[..1 + n]), lines[1 + n..])
    case _ => (Single(KindOf(lines), lines[0]), lines[1..])
  }

  /// The grouping of lines into blocks that a reader has in mind
  function Blocks(lines: seq<Line>): seq<Block>
    decreases |lines|
  {
    if lines == [] then [] else [FirstBlock(lines).0] + Blocks(FirstBlock(lines).1)
  }

  // ---------------------------------------------------------------- tokens of a block

  function Element(tag: Tag, inner: seq<Token>): seq<Token> {
    [Open(tag)] + inner + [Close(tag)]
  }

  function Raws(lines: seq<Line>): (s: seq<string>)
    ensures |s| == |lines|
  {
    seq(|lines|, i requires 0 <= i < |lines| => lines[i].raw)
  }

  function CodeTokens(lang: string, code: seq<string>): seq<Token> {
    Element(Pre, Element(Code(lang), [CodeText(code)]))
  }

  function AlignAt(aligns: seq<Align>, c: nat): Align {
    if c < |aligns| then aligns[c] else Left
  }

  function CellAt(cells: seq<string>, c: nat): string {
    if c < |cells| then cells[c] else ""
  }

  /// The first n cells of a row; missing ones are empty, surplus ones are not shown.
  function RowCells(header: bool, cells: seq<string>, aligns: seq<Align>, n: nat): seq<Token> {
    if n == 0 then []
    else
      RowCells(header, cells, aligns, n - 1)
      + Element(if header then Th(AlignAt(aligns, n - 1)) else Td(AlignAt(aligns, n - 1)),
                [Content(CellAt(cells, n - 1))])
  }

  function BodyRows(rows: seq<Line>, aligns: seq<Align>, width: nat): seq<Token> {
    if rows == [] then []
    else
      BodyRows(rows[..|rows| - 1], aligns, width)
      + Element(Tr, RowCells(false, rows[|rows| - 1].cells, aligns, width))
  }

  function TableTokens(header: Line, separator: Line, rows: seq<Line>): seq<Token> {
    var width := |header.cells|;
    Element(TableWrap, Element(TableTag,
      Element(THead, Element(Tr, RowCells(true, header.cells, separator.aligns, width)))
      + Element(TBody, BodyRows(rows, separator.aligns, width))))
  }

  function ItemText(ordered: bool, l: Line): string {
    match if ordered then l.numbered else l.bullet
    case Some(t) => t
    case None => ""
  }

  function ListTag(ordered: bool): Tag {
    if ordered then Ol else Ul
  }

  function ItemTokens(ordered: bool, items: seq<Line>): seq<Token> {
    if items == [] then []
    else Element(Li, [Content(ItemText(ordered, items[0]))]) + ItemTokens(ordered, items[1..])
  }

  function SingleTokens(kind: Kind, l: Line): seq<Token> {
    match kind
    case Gap => []
    case Heading => if l.heading.Some? then Element(H(l.heading.value.0), [Content(l.heading.value.1)]) else []
    case Quoted => if l.quote.Some? then Element(BlockQuote, [Content(l.quote.value)]) else []
    case _ => Element(P, [Content(l.text)])
  }

  function BlockTokens(b: Block): seq<Token> {
    match b
    case CodeBlock(open, body, _) => CodeTokens(if open.fence.Some? then open.fence.value else "", Raws(body))
    case TableBlock(h, s, rows) => TableTokens(h, s, rows)
    case ListBlock(ordered, items) => Element(ListTag(ordered), ItemTokens(ordered, items))
    case Single(kind, l) => SingleTokens(kind, l)
  }

  function Emit(bs: seq<Block>): seq<Token> {
    if bs == [] then [] else BlockTokens(bs[0]) + Emit(bs[1..])
  }

  /// The translation the one-pass loop must compute
  function Rendered(lines: seq<Line>): seq<Token> {
    Emit(Blocks(lines))
  }

  // ---------------------------------------------------------------- the one-pass loop

  /// What is still to be emitted for the remaining lines, given the loop's flags
  function Pending(inCode: bool, lang: string, code: seq<string>, inUl: bool, inOl: bool, rest: seq<Line>): seq<Token> {
    if inCode then
      var n := CodeRun(rest);
      CodeTokens(lang, code + Raws(rest[..n])) + (if n < |rest| then Rendered(rest[n + 1..]) else [])
    else if inUl || inOl then
      var n := ListRun(inOl, rest);
      ItemTokens(inOl, rest[..n]) + [Close(ListTag(inOl))] + Rendered(rest[n..])
    else Rendered(rest)
  }

  lemma RenderedFirst(lines: seq<Line>)
    requires lines != []
    ensures Rendered(lines) == BlockTokens(FirstBlock(lines).0) + Rendered(FirstBlock(lines).1)
  {
    assert Blocks(lines)[1..] == Blocks(FirstBlock(lines).1);
  }

  lemma RawsCons(l: Line, ls: seq<Line>)
    ensures Raws([l] + ls) == [l.raw] + Raws(ls)
  {
  }

  /// A code line inside a fence
  lemma CodeLineStep(lang: string, code: seq<string>, rest: seq<Line>)
    requires rest != [] && !rest[0].closesFence
    ensures Pending(true, lang, code, false, false, rest)
         == Pending(true, lang, code + [rest[0].raw], false, false, rest[1..])
  {
    var n := CodeRun(rest[1..]);
    assert rest[..n + 1] == [rest[0]] + rest[1..][..n];
    RawsCons(rest[0], rest[1..][..n]);
    assert code + ([rest[0].raw] + Raws(rest[1..][..n])) == code + [rest[0].raw] + Raws(rest[1..][..n]);
    assert n + 1 < |rest| ==> rest[n + 2..] == rest[1..][n + 1..];
  }

  lemma CodeCloseStep(lang: string, code: seq<string>, rest: seq<Line>)
    requires rest != [] && rest[0].closesFence
    ensures Pending(true, lang, code, false, false, rest) == CodeTokens(lang, code) + Rendered(rest[1..])
  {
    assert code + Raws(rest[..0]) == code;
  }

  /// A code block that is open at the end
  lemma CodeEndStep(lang: string, code: seq<string>)
    ensures Pending(true, lang, code, false, false, []) == CodeTokens(lang, code)
  {
    assert code + Raws([]) == code;
  }

  lemma FenceStep(rest: seq<Line>)
    requires rest != [] && KindOf(rest) == Fence
    ensures Rendered(rest) == Pending(true, rest[0].fence.value, [], false, false, rest[1..])
  {
    var n := CodeRun(rest[1..]);
    var after := rest[1 + n..];
    var body := Raws(rest[1..][..n]);
    assert rest[1..1 + n] == rest[1..][..n];
    assert [] + body == body;
    assert after != [] ==> after[1..] == rest[1..][n + 1..];
    assert FirstBlock(rest).0.body == rest[1..][..n];
    RenderedFirst(rest);
  }

  lemma TableStep(lines: seq<Line>, i: nat, next: nat)
    requires i + 1 < |lines| && KindOf(lines[i..]) == TableStart
    requires next == i + 2 + RowRun(lines[i + 2..])
    ensures next <= |lines|
    ensures Rendered(lines[i..]) == TableTokens(lines[i], lines[i + 1], lines[i + 2..next]) + Rendered(lines[next..])
  {
    var rest := lines[i..];
    assert rest[2..] == lines[i + 2..];
    assert rest[2..next - i] == lines[i + 2..next];
    assert rest[next - i..] == lines[next..];
    assert FirstBlock(rest) == (TableBlock(lines[i], lines[i + 1], lines[i + 2..next]), lines[next..]);
    RenderedFirst(rest);
  }

  lemma FirstIsSingle(rest: seq<Line>)
    requires rest != [] && KindOf(rest) in {Gap, Heading, Quoted, Paragraph}
    ensures FirstBlock(rest) == (Single(KindOf(rest), rest[0]), rest[1..])
  {
  }

  lemma SingleStep(rest: seq<Line>)
    requires rest != [] && KindOf(rest) in {Gap, Heading, Quoted, Paragraph}
    ensures Rendered(rest) == SingleTokens(KindOf(rest), rest[0]) + Rendered(rest[1..])
  {
    FirstIsSingle(rest);
    RenderedFirst(rest);
  }

  lemma NothingBefore(a: seq<Token>, b: seq<Token>)
    ensures [] + a + b == a + b
  {
  }

  /// Leaving a list: the next line is no item of it.
  lemma ListLeaveStep(ordered: bool, rest: seq<Line>)
    requires rest == [] || KindOf(rest) != (if ordered then Numbered else Bullet)
    ensures Pending(false, "", [], !ordered, ordered, rest) == [Close(ListTag(ordered))] + Rendered(rest)
  {
    assert ListRun(ordered, rest) == 0;
    assert ItemTokens(ordered, rest[..0]) == [];
    assert rest[0..] == rest;
    NothingBefore([Close(ListTag(ordered))], Rendered(rest));
  }

  /// One more item
  lemma ListItemStep(ordered: bool, rest: seq<Line>)
    requires rest != [] && KindOf(rest) == (if ordered then Numbered else Bullet)
    ensures Pending(false, "", [], !ordered, ordered, rest)
         == Element(Li, [Content(ItemText(ordered, rest[0]))]) + Pending(false, "", [], !ordered, ordered, rest[1..])
  {
    var n := ListRun(ordered, rest[1..]);
    var item, items := Element(Li, [Content(ItemText(ordered, rest[0]))]), ItemTokens(ordered, rest[1..][..n]);
    var close := [Close(ListTag(ordered))];
    assert ItemTokens(ordered, rest[..n + 1]) == item + items by {
      assert rest[..n + 1][0] == rest[0] && rest[..n + 1][1..] == rest[1..][..n];
    }
    assert rest[n + 1..] == rest[1..][n..];
    Assoc(item, items, close);
    Assoc(item, items + close, Rendered(rest[n + 1..]));
  }

  lemma OpenFirst(open: Token, inner: seq<Token>, close: Token, after: seq<Token>)
    ensures [open] + inner + [close] + after == [open] + (inner + [close] + after)
  {
  }

  lemma FirstIsList(ordered: bool, rest: seq<Line>)
    requires rest != [] && KindOf(rest) == (if ordered then Numbered else Bullet)
    ensures var n := ListRun(ordered, rest); FirstBlock(rest) == (ListBlock(ordered, rest[..n]), rest[n..])
  {
  }

  /// Entering a list
  lemma ListEnterStep(ordered: bool, rest: seq<Line>)
    requires rest != [] && KindOf(rest) == (if ordered then Numbered else Bullet)
    ensures Rendered(rest) == [Open(ListTag(ordered))] + Pending(false, "", [], !ordered, ordered, rest)
  {
    var n := ListRun(ordered, rest);
    FirstIsList(ordered, rest);
    RenderedFirst(rest);
    OpenFirst(Open(ListTag(ordered)), ItemTokens(ordered, rest[..n]), Close(ListTag(ordered)), Rendered(rest[n..]));
  }

  /// closeLists, called when the next line belongs to no list
  method CloseLists(html: seq<Token>, inUl: bool, inOl: bool, ghost rest: seq<Line>)
    returns (out: seq<Token>, inUl': bool, inOl': bool)
    requires !(inUl && inOl)
    requires rest == [] || KindOf(rest) !in {Bullet, Numbered}
    ensures !inUl' && !inOl'
    ensures out == html + (if inUl then [Close(Ul)] else if inOl then [Close(Ol)] else [])
    ensures out + Rendered(rest) == html + Pending(false, "", [], inUl, inOl, rest)
  {
    ghost var rendered := Rendered(rest);
    if inUl || inOl {
      ListLeaveStep(inOl, rest);
      Assoc(html, [Close(ListTag(inOl))], rendered);
    }
    out, inUl', inOl' := html, inUl, inOl;
    if inUl' {
      out := out + [Close(Ul)];
      inUl' := false;
    }
    if inOl' {
      out := out + [Close(Ol)];
      inOl' := false;
    }
  }

  lemma RowStep(lines: seq<Line>, from: nat, r: nat, aligns: seq<Align>, width: nat)
    requires from <= r < |lines| && lines[r].tableRow
    ensures RowRun(lines[r..]) == 1 + RowRun(lines[r + 1..])
    ensures BodyRows(lines[from..r + 1], aligns, width)
         == BodyRows(lines[from..r], aligns, width) + Element(Tr, RowCells(false, lines[r].cells, aligns, width))
  {
    assert lines[from..r + 1][..r - from] == lines[from..r];
    assert lines[r..][1..] == lines[r + 1..];
  }

  /// renderTable: the loops over header cells, body rows and body cells
  method RenderTable(lines: seq<Line>, startIdx: nat) returns (out: seq<Token>, nextIndex: nat)
    requires startIdx + 1 < |lines|
    ensures nextIndex == startIdx + 2 + RowRun(lines[startIdx + 2..])
    ensures out == TableTokens(lines[startIdx], lines[startIdx + 1], lines[startIdx + 2..nextIndex])
  {
    var headerCells, aligns := lines[startIdx].cells, lines[startIdx + 1].aligns;
    var head := RenderCells(true, headerCells, aligns, |headerCells|);
    var body: seq<Token> := [];
    var r := startIdx + 2;
    while r < |lines| && lines[r].tableRow
      invariant startIdx + 2 <= r <= |lines|
      invariant RowRun(lines[startIdx + 2..]) == r - (startIdx + 2) + RowRun(lines[r..])
      invariant body == BodyRows(lines[startIdx + 2..r], aligns, |headerCells|)
    {
      var cells := RenderCells(false, lines[r].cells, aligns, |headerCells|);
      RowStep(lines, startIdx + 2, r, aligns, |headerCells|);
      body := body + Element(Tr, cells);
      r := r + 1;
    }
    out := Element(TableWrap, Element(TableTag, Element(THead, Element(Tr, head)) + Element(TBody, body)));
    nextIndex := r;
  }

  method RenderCells(header: bool, cells: seq<string>, aligns: seq<Align>, width: nat) returns (out: seq<Token>)
    ensures out == RowCells(header, cells, aligns, width)
  {
    out := [];
    for c := 0 to width
      invariant out == RowCells(header, cells, aligns, c)
    {
      var tag := if header then Th(AlignAt(aligns, c)) else Td(AlignAt(aligns, c));
      out := out + Element(tag, [Content(CellAt(cells, c))]);
    }
  }

  /// The `inOl`/`inUl` exchange and the item of a list line
  method PushItem(html: seq<Token>, ordered: bool, inList: bool, inOther: bool, item: string, ghost rest: seq<Line>)
    returns (out: seq<Token>)
    requires !(inList && inOther)
    requires rest != [] && KindOf(rest) == (if ordered then Numbered else Bullet) && item == ItemText(ordered, rest[0])
    ensures out + Pending(false, "", [], !ordered, ordered, rest[1..])
         == html + (if inList then Pending(false, "", [], !ordered, ordered, rest)
                    else if inOther then Pending(false, "", [], ordered, !ordered, rest)
                    else Rendered(rest))
  {
    ghost var rendered := Rendered(rest);
    ghost var entered := Pending(false, "", [], !ordered, ordered, rest);
    out := html;
    if inOther {
      ListLeaveStep(!ordered, rest);
      Assoc(out, [Close(ListTag(!ordered))], rendered);
      out := out + [Close(ListTag(!ordered))];
    }
    if !inList {
      ListEnterStep(ordered, rest);
      Assoc(out, [Open(ListTag(ordered))], entered);
      out := out + [Open(ListTag(ordered))];
    }
    ListItemStep(ordered, rest);
    Assoc(out, Element(Li, [Content(item)]), Pending(false, "", [], !ordered, ordered, rest[1..]));
    out := out + Element(Li, [Content(item)]);
  }

  /// closeLists, then the tokens of a block of its own
  method PushBlock(
    html: seq<Token>, inUl: bool, inOl: bool, block: seq<Token>, ghost rest: seq<Line>, ghost after: seq<Token>)
    returns (out: seq<Token>, inUl': bool, inOl': bool)
    requires !(inUl && inOl)
    requires rest != [] && KindOf(rest) !in {Bullet, Numbered} && Rendered(rest) == block + after
    ensures !inUl' && !inOl'
    ensures out + after == html + Pending(false, "", [], inUl, inOl, rest)
  {
    out, inUl', inOl' := CloseLists(html, inUl, inOl, rest);
    Assoc(out, block, after);
    out := out + block;
  }

  /// The blocks of one line: headings, quotes, paragraphs, and nothing for a blank line
  method PushSingle(html: seq<Token>, inUl: bool, inOl: bool, block: seq<Token>, ghost rest: seq<Line>)
    returns (out: seq<Token>, inUl': bool, inOl': bool)
    requires !(inUl && inOl)
    requires rest != [] && KindOf(rest) in {Gap, Heading, Quoted, Paragraph}
    requires block == SingleTokens(KindOf(rest), rest[0])
    ensures !inUl' && !inOl'
    ensures out + Rendered(rest[1..]) == html + Pending(false, "", [], inUl, inOl, rest)
  {
    SingleStep(rest);
    out, inUl', inOl' := PushBlock(html, inUl, inOl, block, rest, Rendered(rest[1..]));
  }

  /// A code line or the closing fence
  method CodeLine(html: seq<Token>, lang: string, code: seq<string>, raw: Line, ghost rest: seq<Line>)
    returns (out: seq<Token>, inCode: bool, lang': string, code': seq<string>)
    requires rest != [] && rest[0] == raw
    ensures !inCode ==> lang' == "" && code' == []
    ensures out + Pending(inCode, lang', code', false, false, rest[1..])
         == html + Pending(true, lang, code, false, false, rest)
  {
    if raw.closesFence {
      CodeCloseStep(lang, code, rest);
      Assoc(html, CodeTokens(lang, code), Rendered(rest[1..]));
      out, inCode, lang', code' := html + CodeTokens(lang, code), false, "", [];
    } else {
      CodeLineStep(lang, code, rest);
      out, inCode, lang', code' := html, true, lang, code + [raw.raw];
    }
  }

  /// The body of the loop for a line outside a code block. `next` is the loop's next index.
  method TextLine(lines: seq<Line>, i: nat, html: seq<Token>, inUl: bool, inOl: bool)
    returns (out: seq<Token>, inCode: bool, lang: string, inUl': bool, inOl': bool, next: nat)
    requires i < |lines| && !(inUl && inOl)
    ensures i < next <= |lines|
    ensures !(inUl' && inOl') && (inCode ==> !inUl' && !inOl') && (!inCode ==> lang == "")
    ensures out + Pending(inCode, lang, [], inUl', inOl', lines[next..])
         == html + Pending(false, "", [], inUl, inOl, lines[i..])
  {
    var raw := lines[i];
    ghost var rest := lines[i..];
    assert rest[1..] == lines[i + 1..];
    out, inCode, lang, inUl', inOl', next := html, false, "", false, false, i + 1;
    if raw.fence.Some? {
      FenceStep(rest);
      out, inUl', inOl' := PushBlock(html, inUl, inOl, [], rest, Rendered(rest));
      inCode, lang := true, raw.fence.value;
    } else if raw.blank {
      out, inUl', inOl' := PushSingle(html, inUl, inOl, [], rest);
    } else if raw.tableRow && i + 1 < |lines| && lines[i + 1].separatorRow {
      var table, nextIndex := RenderTable(lines, i);
      TableStep(lines, i, nextIndex);
      out, inUl', inOl' := PushBlock(html, inUl, inOl, table, rest, Rendered(lines[nextIndex..]));
      next := nextIndex;
    } else if raw.heading.Some? {
      var block := Element(H(raw.heading.value.0), [Content(raw.heading.value.1)]);
      out, inUl', inOl' := PushSingle(html, inUl, inOl, block, rest);
    } else if raw.quote.Some? {
      out, inUl', inOl' := PushSingle(html, inUl, inOl, Element(BlockQuote, [Content(raw.quote.value)]), rest);
    } else if raw.bullet.Some? {
      out := PushItem(html, false, inUl, inOl, raw.bullet.value, rest);
      inUl' := true;
    } else if raw.numbered.Some? {
      out := PushItem(html, true, inOl, inUl, raw.numbered.value, rest);
      inOl' := true;
    } else {
      out, inUl', inOl' := PushSingle(html, inUl, inOl, Element(P, [Content(raw.text)]), rest);
    }
  }

  /// The body of the loop
  method OneLine(
    lines: seq<Line>, i: nat, html: seq<Token>, inCode: bool, lang: string, code: seq<string>, inUl: bool, inOl: bool)
    returns (out: seq<Token>, inCode': bool, lang': string, code': seq<string>, inUl': bool, inOl': bool, next: nat)
    requires i < |lines| && FlagsOk(inCode, lang, code, inUl, inOl)
    ensures i < next <= |lines| && FlagsOk(inCode', lang', code', inUl', inOl')
    ensures out + Pending(inCode', lang', code', inUl', inOl', lines[next..])
         == html + Pending(inCode, lang, code, inUl, inOl, lines[i..])
  {
    if inCode {
      assert lines[i..][1..] == lines[i + 1..];
      out, inCode', lang', code' := CodeLine(html, lang, code, lines[i], lines[i..]);
      inUl', inOl', next := false, false, i + 1;
    } else {
      out, inCode', lang', inUl', inOl', next := TextLine(lines, i, html, inUl, inOl);
      code' := [];
    }
  }

  /// The two lists are never open together, nor a list inside code.
  predicate FlagsOk(inCode: bool, lang: string, code: seq<string>, inUl: bool, inOl: bool) {
    !(inUl && inOl) && (if inCode then !inUl && !inOl else lang == "" && code == [])
  }

  /// The loop of renderAssistantMarkdown: one pass over the lines with the flags inCode, inUl and inOl. It
  /// emits exactly the blocks of the recursive grouping.
  method RenderLines(lines: seq<Line>) returns (html: seq<Token>)
    ensures html == Rendered(lines)
  {
    html := [];
    var inCode, codeLang, codeLines := false, "", [];
    var inUl, inOl := false, false;
    var i := 0;
    assert lines[0..] == lines;
    while i < |lines|
      invariant 0 <= i <= |lines| && FlagsOk(inCode, codeLang, codeLines, inUl, inOl)
      invariant html + Pending(inCode, codeLang, codeLines, inUl, inOl, lines[i..]) == Rendered(lines)
    {
      html, inCode, codeLang, codeLines, inUl, inOl, i :=
        OneLine(lines, i, html, inCode, codeLang, codeLines, inUl, inOl);
    }
    assert lines[i..] == [];
    html := Flush(html, inCode, codeLang, codeLines, inUl, inOl);
  }

  /// What follows the loop: an open code block is flushed, an open list closed
  method Flush(
    html: seq<Token>, inCode: bool, lang: string, code: seq<string>, inUl: bool, inOl: bool) returns (out: seq<Token>)
    requires !(inUl && inOl) && (inCode ==> !inUl && !inOl)
    ensures out == html + Pending(inCode, lang, code, inUl, inOl, [])
  {
    out := html;
    if inCode {
      CodeEndStep(lang, code);
      out := out + CodeTokens(lang, code);
    }
    var ul, ol;
    out, ul, ol := CloseLists(out, inUl, inOl, []);
  }

  // ---------------------------------------------------------------- from the text

  /// replace(/\r\n/g, '\n')
  function FoldBreaks(s: string): string {
    if s == "" then ""
    else if |s| >= 2 && s[0] == '\r' && s[1] == '\n' then "\n" + FoldBreaks(s[2..])
    else [s[0]] + FoldBreaks(s[1..])
  }

  function TextLines(content: string): seq<string> {
    Split(FoldBreaks(content), '\n')
  }

  /// The lines with what the regular expressions answer about each
  function Classified(classify: string -> Line, lines: seq<string>): seq<Line> {
    seq(|lines|, i requires 0 <= i < |lines| => classify(lines[i]))
  }

  method RenderAssistantMarkdown(classify: string -> Line, content: string) returns (html: seq<Token>)
    ensures html == Rendered(Classified(classify, TextLines(content)))
  {
    html := RenderLines(Classified(classify, TextLines(content)));
  }

  /// A text with the given line ends, `crlf` telling of each whether it is \r\n
  function Ended(lines: seq<string>, crlf: seq<bool>): string
    requires |lines| == |crlf| + 1
  {
    if crlf == [] then lines[0] else lines[0] + (if crlf[0] then "\r\n" else "\n") + Ended(lines[1..], crlf[1..])
  }

  lemma {:induction false} FoldFirst(line: string, rest: string)
    requires '\r' !in line
    ensures FoldBreaks(line + rest) == line + FoldBreaks(rest)
  {
    if line == "" {
      assert line + rest == rest;
    } else {
      assert (line + rest)[1..] == line[1..] + rest;
      FoldFirst(line[1..], rest);
    }
  }

  lemma FoldBreak(crlf: bool, rest: string)
    ensures FoldBreaks((if crlf then "\r\n" else "\n") + rest) == "\n" + FoldBreaks(rest)
  {
    var s := (if crlf then "\r\n" else "\n") + rest;
    assert if crlf then s[2..] == rest else s[1..] == rest;
  }

  lemma {:induction false} FoldEnded(lines: seq<string>, crlf: seq<bool>)
    requires |lines| == |crlf| + 1 && forall i | 0 <= i < |lines| :: '\r' !in lines[i]
    ensures FoldBreaks(Ended(lines, crlf)) == Join(lines, '\n')
    decreases |crlf|
  {
    if crlf == [] {
      FoldFirst(lines[0], "");
      assert lines[0] + "" == lines[0];
    } else {
      var rest := Ended(lines[1..], crlf[1..]);
      var end := if crlf[0] then "\r\n" else "\n";
      FoldEnded(lines[1..], crlf[1..]);
      FoldBreak(crlf[0], rest);
      FoldFirst(lines[0], end + rest);
      assert lines[0] + end + rest == lines[0] + (end + rest);
    }
  }

  /// The lines come back however each of them was ended.
  lemma LineEndsDoNotMatter(lines: seq<string>, crlf: seq<bool>)
    requires |lines| == |crlf| + 1 && forall i | 0 <= i < |lines| :: '\r' !in lines[i] && '\n' !in lines[i]
    ensures TextLines(Ended(lines, crlf)) == lines
  {
    FoldEnded(lines, crlf);
    SplitJoin(lines, '\n');
  }
}
