/// A printer of winget's tables, and the proof that the parsers undo it.
module WingetTable {
  import opened Text
  import opened Winget
  import opened Sequences

  /// Where the columns after "Name" start
  datatype Layout = Layout(id: nat, version: nat, available: nat, source: nat) {
    /// Every column holds at least its own title.
    predicate Valid() {
      4 <= id && id + 2 <= version && version + 7 <= available && available + 9 <= source
    }
  }

  /// One printed line: spinner segments overwritten by bare carriage returns, the text, and blank
  /// segments after it (the \r of a CRLF line end leaves one).
  datatype Printed = Printed(before: seq<string>, text: string, after: seq<string>)

  predicate OneSegment(s: string) {
    '\n' !in s && '\r' !in s
  }

  predicate WellPrinted(p: Printed) {
    && OneSegment(p.text)
    && (forall s | s in p.before :: OneSegment(s))
    && (forall s | s in p.after :: OneSegment(s) && Blank(s))
  }

  function Segments(p: Printed): seq<string> {
    p.before + [p.text] + p.after
  }

  function PrintLine(p: Printed): string {
    Join(Segments(p), '\r')
  }

  function PrintDocument(ps: seq<Printed>): string
    requires |ps| >= 1
  {
    Join(seq(|ps|, i requires 0 <= i < |ps| => PrintLine(ps[i])), '\n')
  }

  /// What the line shows once the carriage returns have been played.
  function Shown(p: Printed): string {
    if Blank(p.text) then LastShown(p.before) else p.text
  }

  function Spaces(n: nat): (s: string)
    ensures |s| == n
  {
    seq(n, _ => ' ')
  }

  lemma SpacesAreBlank(n: nat)
    ensures AllSpace(Spaces(n))
  {
    AllSpaceIff(Spaces(n));
  }

  function Pad(field: string, width: nat): (s: string)
    requires |field| <= width
    ensures |s| == width && field <= s
  {
    field + Spaces(width - |field|)
  }

  predicate Narrow(l: Layout, item: UpgradeItem) {
    && l.Valid()
    && |item.name| <= l.id && |item.id| <= l.version - l.id
    && |item.current| <= l.available - l.version && |item.available| <= l.source - l.available
  }

  predicate Fits(l: Layout, item: UpgradeItem) {
    && Narrow(l, item)
    && Trimmed(item.name) && Trimmed(item.id) && Trimmed(item.current) && Trimmed(item.available)
    && Trimmed(item.source)
    && OneSegment(item.name) && OneSegment(item.id) && OneSegment(item.current) && OneSegment(item.available)
    && OneSegment(item.source)
  }

  function PrintRow(l: Layout, item: UpgradeItem): (s: string)
    requires Fits(l, item)
    ensures OneSegment(s) && |s| == l.source + |item.source|
  {
    var name, id := Pad(item.name, l.id), Pad(item.id, l.version - l.id);
    var current, available := Pad(item.current, l.available - l.version), Pad(item.available, l.source - l.available);
    ConcatFive(name, id, current, available, item.source);
    Concat([name, id, current, available, item.source])
  }

  function Concat(parts: seq<string>): string {
    if parts == [] then "" else parts[0] + Concat(parts[1..])
  }

  lemma ConcatFive(a: string, b: string, c: string, d: string, e: string)
    ensures Concat([a, b, c, d, e]) == a + (b + (c + (d + e)))
  {
    ConcatCons(a, [b, c, d, e]);
    ConcatCons(b, [c, d, e]);
    ConcatCons(c, [d, e]);
    ConcatCons(d, [e]);
    ConcatCons(e, []);
    assert [a] + [b, c, d, e] == [a, b, c, d, e] && [b] + [c, d, e] == [b, c, d, e] && [c] + [d, e] == [c, d, e];
    assert [d] + [e] == [d, e] && [e] + [] == [e] && e + "" == e;
  }

  lemma ConcatCons(first: string, rest: seq<string>)
    ensures Concat([first] + rest) == first + Concat(rest)
  {
    assert ([first] + rest)[1..] == rest;
  }

  const TITLES := UpgradeItem("Name", "Id", "Version", "Available", "Source")

  function PrintHeader(l: Layout): string
    requires l.Valid()
  {
    PrintRow(l, TITLES)
  }

  // ---------------------------------------------------------------- carriage returns

  lemma {:induction false} LastShownAfterBlanks(segments: seq<string>, blanks: seq<string>)
    requires forall s | s in blanks :: Blank(s)
    ensures LastShown(segments + blanks) == LastShown(segments)
    decreases |blanks|
  {
    if blanks == [] {
      assert segments + blanks == segments;
    } else {
      var shorter := blanks[..|blanks| - 1];
      assert (segments + blanks)[..|segments + blanks| - 1] == segments + shorter;
      LastShownAfterBlanks(segments, shorter);
    }
  }

  lemma LineShows(p: Printed)
    requires WellPrinted(p)
    ensures '\n' !in PrintLine(p)
    ensures LastShown(Split(PrintLine(p), '\r')) == Shown(p)
  {
    var parts := Segments(p);
    forall i | 0 <= i < |parts| ensures OneSegment(parts[i]) {
      assert parts[i] in p.before || parts[i] == p.text || parts[i] in p.after;
    }
    JoinAvoids(parts, '\r', '\n');
    SplitJoin(parts, '\r');
    LastShownAfterBlanks(p.before + [p.text], p.after);
    assert (p.before + [p.text])[..|p.before|] == p.before;
  }

  function ShownOf(ps: seq<Printed>): (lines: seq<string>)
    ensures |lines| == |ps| && forall i | 0 <= i < |ps| :: lines[i] == Shown(ps[i])
  {
    seq(|ps|, i requires 0 <= i < |ps| => Shown(ps[i]))
  }

  /// The segment loop recovers what a terminal would show of every printed line.
  lemma DocumentShows(ps: seq<Printed>)
    requires |ps| >= 1 && forall i | 0 <= i < |ps| :: WellPrinted(ps[i])
    ensures ShownLines(PrintDocument(ps)) == ShownOf(ps)
  {
    var printed := seq(|ps|, i requires 0 <= i < |ps| => PrintLine(ps[i]));
    forall i | 0 <= i < |ps| ensures '\n' !in printed[i] && LastShown(Split(printed[i], '\r')) == Shown(ps[i]) {
      LineShows(ps[i]);
    }
    SplitJoin(printed, '\n');
  }

  // ---------------------------------------------------------------- columns

  function ColumnsOf(l: Layout): Columns {
    Starts(l.id, l.version, l.available, l.source)
  }

  /// Where each cell of a printed row lies
  predicate HasSlices(l: Layout, item: UpgradeItem, row: string)
    requires Narrow(l, item)
  {
    && |row| == l.source + |item.source|
    && row[..l.id] == Pad(item.name, l.id)
    && row[l.id..l.version] == Pad(item.id, l.version - l.id)
    && row[l.version..l.available] == Pad(item.current, l.available - l.version)
    && row[l.available..l.source] == Pad(item.available, l.source - l.available)
    && row[l.source..] == item.source
  }

  lemma RowIsColumns(l: Layout, item: UpgradeItem)
    requires Fits(l, item)
    ensures PrintRow(l, item)
         == Pad(item.name, l.id) + (Pad(item.id, l.version - l.id)
            + (Pad(item.current, l.available - l.version)
              + (Pad(item.available, l.source - l.available) + item.source)))
  {
    ConcatFive(Pad(item.name, l.id), Pad(item.id, l.version - l.id), Pad(item.current, l.available - l.version),
               Pad(item.available, l.source - l.available), item.source);
  }

  lemma TakeColumn(row: string, from: nat, to: nat, column: string, rest: string)
    requires from <= |row| && row[from..] == column + rest && to == from + |column|
    ensures to <= |row| && row[from..to] == column && row[to..] == rest
  {
    var tail := row[from..];
    assert tail[..|column|] == column && tail[|column|..] == rest;
  }

  lemma RowSlices(l: Layout, item: UpgradeItem)
    requires Fits(l, item)
    ensures HasSlices(l, item, PrintRow(l, item))
  {
    RowIsColumns(l, item);
    ColumnsAreSlices(l, item, PrintRow(l, item), Pad(item.name, l.id), Pad(item.id, l.version - l.id),
                     Pad(item.current, l.available - l.version), Pad(item.available, l.source - l.available));
  }

  lemma ColumnsAreSlices(l: Layout, item: UpgradeItem, row: string, a: string, b: string, c: string, d: string)
    requires l.Valid() && row == a + (b + (c + (d + item.source)))
    requires |a| == l.id && |b| == l.version - l.id && |c| == l.available - l.version && |d| == l.source - l.available
    ensures |row| == l.source + |item.source| && row[..l.id] == a && row[l.id..l.version] == b
    ensures row[l.version..l.available] == c && row[l.available..l.source] == d && row[l.source..] == item.source
  {
    assert row[0..] == row && row[0..l.id] == row[..l.id];
    TakeColumn(row, 0, l.id, a, b + (c + (d + item.source)));
    TakeColumn(row, l.id, l.version, b, c + (d + item.source));
    TakeColumn(row, l.version, l.available, c, d + item.source);
    TakeColumn(row, l.available, l.source, d, item.source);
  }

  lemma ColumnFound(lower: char -> char, header: string, keyword: string, p: nat)
    requires keyword != [] && MatchesAt(header, keyword, p)
    requires forall i | 0 <= i < p :: header[i] != keyword[0] && header[i] < '\U{80}'
    ensures ColumnStart(lower, header, keyword) == p
  {
    IndexAt(header, keyword, p);
    Utf8LenIsRuneCountIffAscii(header[..p]);
  }

  lemma TitleAt(header: string, slice: string, title: string, from: nat)
    requires from + |slice| <= |header| && header[from..from + |slice|] == slice && title <= slice
    ensures MatchesAt(header, title, from)
  {
    assert header[from..from + |title|] == slice[..|title|];
  }

  predicate TitlesInPlace(l: Layout, h: string)
    requires l.Valid()
  {
    && MatchesAt(h, "Name", 0) && MatchesAt(h, "Id", l.id) && MatchesAt(h, "Version", l.version)
    && MatchesAt(h, "Available", l.available) && MatchesAt(h, "Source", l.source)
  }

  lemma HeaderTitles(l: Layout, h: string)
    requires l.Valid() && HasSlices(l, TITLES, h)
    ensures TitlesInPlace(l, h)
  {
    TitleAt(h, Pad("Name", l.id), "Name", 0);
    TitleAt(h, Pad("Id", l.version - l.id), "Id", l.id);
    TitleAt(h, Pad("Version", l.available - l.version), "Version", l.version);
    TitleAt(h, Pad("Available", l.source - l.available), "Available", l.available);
    TitleAt(h, "Source", "Source", l.source);
  }

  predicate Ascii(s: string) {
    forall i | 0 <= i < |s| :: s[i] < '\U{80}'
  }

  lemma ColumnAvoids(h: string, from: nat, to: nat, title: string, c: char)
    requires from <= to <= |h| && |title| <= to - from && h[from..to] == Pad(title, to - from)
    requires Ascii(title) && c !in title && c != ' '
    ensures forall i | from <= i < to :: h[i] != c && h[i] < '\U{80}'
  {
    forall i | from <= i < to ensures h[i] != c && h[i] < '\U{80}' {
      assert h[i] == Pad(title, to - from)[i - from];
    }
  }

  /// No title's first letter occurs in an earlier column.
  predicate FreshBefore(h: string, to: nat, c: char)
    requires to <= |h|
  {
    forall i | 0 <= i < to :: h[i] != c && h[i] < '\U{80}'
  }

  lemma FreshInId(l: Layout, h: string, c: char)
    requires l.Valid() && HasSlices(l, TITLES, h) && c in {'I', 'V', 'A', 'S'}
    ensures FreshBefore(h, l.id, c)
  {
    assert h[0..l.id] == h[..l.id];
    ColumnAvoids(h, 0, l.id, "Name", c);
  }

  lemma FreshInVersion(l: Layout, h: string, c: char)
    requires l.Valid() && HasSlices(l, TITLES, h) && c in {'V', 'A', 'S'}
    ensures FreshBefore(h, l.version, c)
  {
    FreshInId(l, h, c);
    ColumnAvoids(h, l.id, l.version, "Id", c);
  }

  lemma FreshInAvailable(l: Layout, h: string, c: char)
    requires l.Valid() && HasSlices(l, TITLES, h) && c in {'A', 'S'}
    ensures FreshBefore(h, l.available, c)
  {
    FreshInVersion(l, h, c);
    ColumnAvoids(h, l.version, l.available, "Version", c);
  }

  lemma FreshInSource(l: Layout, h: string)
    requires l.Valid() && HasSlices(l, TITLES, h)
    ensures FreshBefore(h, l.source, 'S')
  {
    FreshInAvailable(l, h, 'S');
    ColumnAvoids(h, l.available, l.source, "Available", 'S');
  }

  /// The parser reads the layout back from the header.
  lemma HeaderGivesLayout(lower: char -> char, l: Layout, h: string)
    requires l.Valid() && HasSlices(l, TITLES, h)
    ensures ReadColumns(lower, h) == ColumnsOf(l)
  {
    HeaderTitles(l, h);
    FreshInId(l, h, 'I');
    FreshInVersion(l, h, 'V');
    FreshInAvailable(l, h, 'A');
    FreshInSource(l, h);
    ColumnFound(lower, h, "Id", l.id);
    ColumnFound(lower, h, "Version", l.version);
    ColumnFound(lower, h, "Available", l.available);
    ColumnFound(lower, h, "Source", l.source);
  }

  lemma LoweredMatch(lower: char -> char, s: string, word: string, lowered: string, p: nat)
    requires MatchesAt(s, word, p) && ToLower(lower, word) == lowered
    ensures HasSub(ToLower(lower, s), lowered)
  {
    assert MatchesAt(ToLower(lower, s), lowered, p) by {
      assert ToLower(lower, s)[p..p + |word|] == ToLower(lower, s[p..p + |word|]);
    }
  }

  lemma HeaderLooksLikeHeader(lower: char -> char, l: Layout, h: string)
    requires l.Valid() && LowersAscii(lower) && TitlesInPlace(l, h)
    ensures LooksLikeHeader(lower, h)
  {
    LoweredMatch(lower, h, "Name", "name", 0);
    LoweredMatch(lower, h, "Id", "id", l.id);
    LoweredMatch(lower, h, "Version", "version", l.version);
  }

  // ---------------------------------------------------------------- rows

  /// The parser reads a printed row back.
  lemma RowParses(l: Layout, item: UpgradeItem, row: string)
    requires Fits(l, item) && HasSlices(l, item, row)
    ensures ItemOf(ColumnsOf(l), row) == item
  {
    CellsParse(l, item, row);
  }

  lemma CellsParse(l: Layout, item: UpgradeItem, row: string)
    requires Fits(l, item) && HasSlices(l, item, row)
    ensures Cell(row, 0, l.id) == item.name && Cell(row, l.id, l.version) == item.id
    ensures Cell(row, l.version, l.available) == item.current && Cell(row, l.available, l.source) == item.available
    ensures Cell(row, l.source, if Utf8Len(row) < l.source then l.source else Utf8Len(row)) == item.source
  {
    FrontCellsParse(l, item, row);
    CellParses(row, l.version, l.available, item.current);
    CellParses(row, l.available, l.source, item.available);
    LastCellParses(row, l.source, item.source);
  }

  lemma FrontCellsParse(l: Layout, item: UpgradeItem, row: string)
    requires Fits(l, item) && HasSlices(l, item, row)
    ensures Cell(row, 0, l.id) == item.name && Cell(row, l.id, l.version) == item.id
  {
    assert row[0..l.id] == row[..l.id];
    CellParses(row, 0, l.id, item.name);
    CellParses(row, l.id, l.version, item.id);
  }

  lemma CellParses(row: string, from: nat, to: nat, field: string)
    requires from < to <= |row| && |field| <= to - from && Trimmed(field)
    requires row[from..to] == Pad(field, to - from)
    ensures Cell(row, from, to) == field
  {
    SubstringIs(row, from, to);
    SpacesAreBlank(to - from - |field|);
    TrimPadded(field, Spaces(to - from - |field|));
  }

  lemma LastCellParses(row: string, from: nat, field: string)
    requires from <= |row| && Trimmed(field) && row[from..] == field
    ensures Cell(row, from, if Utf8Len(row) < from then from else Utf8Len(row)) == field
  {
    var end := if Utf8Len(row) < from then from else Utf8Len(row);
    SubstringIs(row, from, end);
    assert row[from..|row|] == row[from..];
    TrimOfTrimmed(field);
  }

  predicate Kept(lower: char -> char, l: Layout, item: UpgradeItem)
    requires Fits(l, item)
  {
    item.id != "" && !Mentions(lower, PrintRow(l, item))
  }

  function Keeper(lower: char -> char, l: Layout): UpgradeItem -> seq<UpgradeItem> {
    (item: UpgradeItem) => if Fits(l, item) && Kept(lower, l, item) then [item] else []
  }

  /// The items that are kept, in order
  function KeptItems(lower: char -> char, l: Layout, items: seq<UpgradeItem>): seq<UpgradeItem> {
    Collect(Keeper(lower, l), items)
  }

  lemma {:induction false} NoCr(s: string)
    requires OneSegment(s)
    ensures TrimCr(s) == s
  {
  }

  lemma BlankRowHasNoId(l: Layout, item: UpgradeItem)
    requires Fits(l, item) && Blank(PrintRow(l, item))
    ensures item.id == ""
  {
    RowSlices(l, item);
    BlankIffAllSpace(PrintRow(l, item));
    BlankSlice(PrintRow(l, item), l.id, l.version, item.id);
  }

  lemma AllSpacePrefix(s: string, field: string)
    requires field <= s && Trimmed(field) && forall i | 0 <= i < |s| :: IsSpace(s[i])
    ensures field == ""
  {
    assert field == s[..|field|];
  }

  lemma BlankSlice(row: string, from: nat, to: nat, field: string)
    requires AllSpace(row) && from <= to <= |row| && field <= row[from..to] && Trimmed(field)
    ensures field == ""
  {
    AllSpaceIff(row);
    AllSpacePrefix(row[from..to], field);
  }

  /// Columns that cut the ids where the table has them
  predicate ReadsIds(l: Layout, cols: Columns) {
    cols.id == l.id && cols.version == l.version
  }

  function CutKeeper(lower: char -> char, l: Layout, cols: Columns): UpgradeItem -> seq<UpgradeItem> {
    (item: UpgradeItem) => if Fits(l, item) && Kept(lower, l, item) then [ItemOf(cols, PrintRow(l, item))] else []
  }

  /// The kept rows, as these columns cut them
  function ReadBack(lower: char -> char, l: Layout, cols: Columns, items: seq<UpgradeItem>): seq<UpgradeItem> {
    Collect(CutKeeper(lower, l, cols), items)
  }

  lemma IdReadBack(l: Layout, cols: Columns, item: UpgradeItem)
    requires Fits(l, item) && ReadsIds(l, cols)
    ensures ItemOf(cols, PrintRow(l, item)).id == Cell(PrintRow(l, item), l.id, l.version) == item.id
  {
    RowSlices(l, item);
    CellsParse(l, item, PrintRow(l, item));
  }

  lemma RowKept(lower: char -> char, l: Layout, cols: Columns, p: Printed, item: UpgradeItem)
    requires Fits(l, item) && ReadsIds(l, cols) && p.before == [] && p.text == PrintRow(l, item)
    ensures UpgradeRow(lower, cols, Shown(p)) == if Kept(lower, l, item) then [ItemOf(cols, PrintRow(l, item))] else []
  {
    var row := PrintRow(l, item);
    NoCr(row);
    IdReadBack(l, cols, item);
    if Blank(row) {
      BlankRowHasNoId(l, item);
    }
  }

  /// The lines below the rule of dashes: the table, then lines the upgrade parser drops.
  predicate TableBody(lower: char -> char, l: Layout, items: seq<UpgradeItem>, rows: seq<Printed>, rest: seq<Printed>) {
    && |rows| == |items|
    && (forall i | 0 <= i < |items| ::
          Fits(l, items[i]) && rows[i].before == [] && rows[i].text == PrintRow(l, items[i]))
    && (forall i | 0 <= i < |rest| :: Blank(Shown(rest[i])) || Mentions(lower, Shown(rest[i])))
  }

  lemma RowsParse(lower: char -> char, l: Layout, cols: Columns, items: seq<UpgradeItem>, rows: seq<Printed>)
    requires TableBody(lower, l, items, rows, []) && ReadsIds(l, cols)
    ensures UpgradeRows(lower, cols, ShownOf(rows)) == ReadBack(lower, l, cols, items)
  {
    var f, g := UpgradeReader(lower, cols), CutKeeper(lower, l, cols);
    forall i | 0 <= i < |rows| ensures f(ShownOf(rows)[i]) == g(items[i]) {
      RowKept(lower, l, cols, rows[i], items[i]);
    }
    CollectPointwise(f, ShownOf(rows), g, items);
  }

  /// The table's own columns give the kept rows as they were printed.
  lemma OwnColumnsReadBack(lower: char -> char, l: Layout, items: seq<UpgradeItem>)
    requires l.Valid() && forall i | 0 <= i < |items| :: Fits(l, items[i])
    ensures ReadBack(lower, l, ColumnsOf(l), items) == KeptItems(lower, l, items)
  {
    var f, g := CutKeeper(lower, l, ColumnsOf(l)), Keeper(lower, l);
    forall i | 0 <= i < |items| ensures f(items[i]) == g(items[i]) {
      RowSlices(l, items[i]);
      RowParses(l, items[i], PrintRow(l, items[i]));
    }
    CollectPointwise(f, items, g, items);
  }

  predicate Dropped(lower: char -> char, line: string) {
    OneSegment(line) && (Blank(line) || Mentions(lower, line))
  }

  lemma DroppedLine(lower: char -> char, cols: Columns, line: string)
    requires Dropped(lower, line)
    ensures UpgradeRow(lower, cols, line) == []
  {
    NoCr(line);
  }

  lemma RestDropped(lower: char -> char, cols: Columns, lines: seq<string>, rest: seq<string>)
    requires forall i | 0 <= i < |rest| :: Dropped(lower, rest[i])
    ensures UpgradeRows(lower, cols, lines + rest) == UpgradeRows(lower, cols, lines)
  {
    var f := UpgradeReader(lower, cols);
    forall i | 0 <= i < |rest| ensures f(rest[i]) == [] {
      DroppedLine(lower, cols, rest[i]);
    }
    CollectNoneIff(f, rest);
    CollectConcat(f, lines, rest);
  }

  lemma ShownIsOneSegment(p: Printed)
    requires WellPrinted(p)
    ensures OneSegment(Shown(p))
  {
  }

  // ---------------------------------------------------------------- the round trip

  predicate AllWellPrinted(ps: seq<Printed>) {
    forall i | 0 <= i < |ps| :: WellPrinted(ps[i])
  }

  /// A printed document: anything before the header, on its own lines or as spinner segments on the
  /// header's line, as long as no earlier line looks like a header; the rule of dashes; the rest.
  predicate Headed(lower: char -> char, noise: seq<Printed>, header: Printed, dashes: Printed) {
    && AllWellPrinted(noise) && WellPrinted(header) && WellPrinted(dashes)
    && (forall i | 0 <= i < |noise| :: !LooksLikeHeader(lower, Shown(noise[i])))
    && LooksLikeHeader(lower, Shown(header))
    && CountChar(Shown(dashes), '-') > 10
  }

  lemma ShownOfConcat(a: seq<Printed>, b: seq<Printed>)
    ensures ShownOf(a + b) == ShownOf(a) + ShownOf(b)
  {
  }

  lemma ShownOfParts(noise: seq<Printed>, header: Printed, dashes: Printed, rows: seq<Printed>, rest: seq<Printed>)
    ensures ShownOf(noise + [header, dashes] + rows + rest)
         == ShownOf(noise) + [Shown(header), Shown(dashes)] + (ShownOf(rows) + ShownOf(rest))
  {
    ShownOfConcat(noise + [header, dashes] + rows, rest);
    ShownOfConcat(noise + [header, dashes], rows);
    ShownOfConcat(noise, [header, dashes]);
    assert ShownOf([header, dashes]) == [Shown(header), Shown(dashes)];
    Assoc(ShownOf(noise) + [Shown(header), Shown(dashes)], ShownOf(rows), ShownOf(rest));
  }

  lemma DataFound(lower: char -> char, noise: seq<string>, header: string, dashes: string, below: seq<string>)
    requires forall i | 0 <= i < |noise| :: !LooksLikeHeader(lower, noise[i])
    requires LooksLikeHeader(lower, header) && CountChar(dashes, '-') > 10
    ensures var lines := noise + [header, dashes] + below;
            && HeaderIndex(lower, lines, 0) == |noise| && lines[|noise|] == header
            && DataStart(lines, |noise|) == |noise| + 2 && lines[|noise| + 2..] == below
  {
    HeaderFoundAt(lower, noise + [header, dashes] + below, 0, |noise|);
  }

  lemma AllPrinted(noise: seq<Printed>, header: Printed, dashes: Printed, rows: seq<Printed>, rest: seq<Printed>)
    requires AllWellPrinted(noise) && WellPrinted(header) && WellPrinted(dashes) && AllWellPrinted(rows)
    requires AllWellPrinted(rest)
    ensures AllWellPrinted(noise + [header, dashes] + rows + rest)
  {
    var ps := noise + [header, dashes] + rows + rest;
    forall i | 0 <= i < |ps| ensures WellPrinted(ps[i]) {
      assert ps[i] in noise || ps[i] == header || ps[i] == dashes || ps[i] in rows || ps[i] in rest;
    }
  }

  lemma DocumentLines(
    lower: char -> char, noise: seq<Printed>, header: Printed, dashes: Printed, rows: seq<Printed>, rest: seq<Printed>)
    requires Headed(lower, noise, header, dashes) && AllWellPrinted(rows) && AllWellPrinted(rest)
    ensures ShownLines(PrintDocument(noise + [header, dashes] + rows + rest))
         == ShownOf(noise) + [Shown(header), Shown(dashes)] + (ShownOf(rows) + ShownOf(rest))
  {
    AllPrinted(noise, header, dashes, rows, rest);
    DocumentShows(noise + [header, dashes] + rows + rest);
    ShownOfParts(noise, header, dashes, rows, rest);
  }

  /// Both parsers read the rows below the rule with the columns of the header.
  lemma DocumentData(
    lower: char -> char, noise: seq<Printed>, header: Printed, dashes: Printed, rows: seq<Printed>, rest: seq<Printed>)
    requires Headed(lower, noise, header, dashes) && AllWellPrinted(rows) && AllWellPrinted(rest)
    ensures var lines := ShownLines(PrintDocument(noise + [header, dashes] + rows + rest));
            && HeaderIndex(lower, lines, 0) == |noise| && |noise| + 2 <= |lines| && lines[|noise|] == Shown(header)
            && DataStart(lines, |noise|) == |noise| + 2
            && lines[|noise| + 2..] == ShownOf(rows) + ShownOf(rest)
  {
    DocumentLines(lower, noise, header, dashes, rows, rest);
    DataFound(lower, ShownOf(noise), Shown(header), Shown(dashes), ShownOf(rows) + ShownOf(rest));
  }

  /// Whatever the header's titles: the upgrade parser returns the kept rows, in order, as the columns it
  /// reads from the header cut them.
  lemma TableRead(
    lower: char -> char, l: Layout, items: seq<UpgradeItem>,
    noise: seq<Printed>, header: Printed, dashes: Printed, rows: seq<Printed>, rest: seq<Printed>)
    requires Headed(lower, noise, header, dashes) && AllWellPrinted(rows) && AllWellPrinted(rest)
    requires ReadsIds(l, ReadColumns(lower, Shown(header)))
    requires TableBody(lower, l, items, rows, rest)
    ensures UpgradesIn(lower, PrintDocument(noise + [header, dashes] + rows + rest))
         == ReadBack(lower, l, ReadColumns(lower, Shown(header)), items)
  {
    var cols := ReadColumns(lower, Shown(header));
    DocumentData(lower, noise, header, dashes, rows, rest);
    forall i | 0 <= i < |rest| ensures Dropped(lower, ShownOf(rest)[i]) {
      ShownIsOneSegment(rest[i]);
    }
    RowsParse(lower, l, cols, items, rows);
    RestDropped(lower, cols, ShownOf(rows), ShownOf(rest));
  }

  /// When those columns are the table's own, as they are for every header whose titles stand at their
  /// byte positions, the rows come back as printed, less those without an id and those whose text reads
  /// like a summary line.
  lemma RoundTripAnyTitles(
    lower: char -> char, l: Layout, items: seq<UpgradeItem>,
    noise: seq<Printed>, header: Printed, dashes: Printed, rows: seq<Printed>, rest: seq<Printed>)
    requires Headed(lower, noise, header, dashes) && AllWellPrinted(rows) && AllWellPrinted(rest)
    requires l.Valid() && ReadColumns(lower, Shown(header)) == ColumnsOf(l)
    requires TableBody(lower, l, items, rows, rest)
    ensures UpgradesIn(lower, PrintDocument(noise + [header, dashes] + rows + rest)) == KeptItems(lower, l, items)
  {
    TableRead(lower, l, items, noise, header, dashes, rows, rest);
    OwnColumnsReadBack(lower, l, items);
  }

  lemma EnglishHeader(lower: char -> char, l: Layout, header: Printed)
    requires LowersAscii(lower) && l.Valid() && header.text == PrintHeader(l)
    ensures LooksLikeHeader(lower, Shown(header)) && ReadColumns(lower, Shown(header)) == ColumnsOf(l)
  {
    HeaderShown(l, header);
    RowSlices(l, TITLES);
    HeaderTitles(l, header.text);
    HeaderLooksLikeHeader(lower, l, header.text);
    HeaderGivesLayout(lower, l, header.text);
  }

  /// Parsing a printed table under winget's English header returns its rows in order, less those without
  /// an id and those whose text reads like a summary line.
  lemma RoundTrip(
    lower: char -> char, l: Layout, items: seq<UpgradeItem>,
    noise: seq<Printed>, header: Printed, dashes: Printed, rows: seq<Printed>, rest: seq<Printed>)
    requires LowersAscii(lower) && l.Valid()
    requires AllWellPrinted(noise) && AllWellPrinted([header, dashes]) && AllWellPrinted(rows) && AllWellPrinted(rest)
    requires forall i | 0 <= i < |noise| :: !LooksLikeHeader(lower, Shown(noise[i]))
    requires header.text == PrintHeader(l)
    requires CountChar(Shown(dashes), '-') > 10
    requires TableBody(lower, l, items, rows, rest)
    ensures UpgradesIn(lower, PrintDocument(noise + [header, dashes] + rows + rest)) == KeptItems(lower, l, items)
  {
    EnglishHeader(lower, l, header);
    assert [header, dashes][0] == header && [header, dashes][1] == dashes;
    RoundTripAnyTitles(lower, l, items, noise, header, dashes, rows, rest);
  }

  lemma HeaderShown(l: Layout, header: Printed)
    requires l.Valid() && header.text == PrintHeader(l)
    ensures Shown(header) == PrintHeader(l)
  {
    RowSlices(l, TITLES);
    HeaderTitles(l, header.text);
    assert header.text[0..4][0] == header.text[0];
    NotBlank(header.text, 0);
  }

  lemma {:induction false} HeaderFoundAt(lower: char -> char, lines: seq<string>, from: nat, h: nat)
    requires from <= h < |lines| && LooksLikeHeader(lower, lines[h])
    requires forall i | from <= i < h :: !LooksLikeHeader(lower, lines[i])
    ensures HeaderIndex(lower, lines, from) == h
  {
  }

  // ---------------------------------------------------------------- the installed parser

  function NonEmptyOnly(): string -> seq<string> {
    (s: string) => if s == "" then [] else [s]
  }

  function NonEmpty(ss: seq<string>): seq<string> {
    Collect(NonEmptyOnly(), ss)
  }

  /// What lines have between the id and the version columns
  function IdCells(l: Layout, lines: seq<string>): (cells: seq<string>)
    requires l.Valid()
    ensures |cells| == |lines| && forall i | 0 <= i < |lines| :: cells[i] == Cell(lines[i], l.id, l.version)
  {
    seq(|lines|, i requires 0 <= i < |lines| => Cell(lines[i], l.id, l.version))
  }

  lemma BlankCell(line: string, from: nat, to: nat)
    requires Blank(line) && from <= to
    ensures Cell(line, from, to) == ""
  {
    var cut := SafeSubstring(line, from, to);
    SubstringIs(line, from, to);
    BlankIffAllSpace(line);
    AllSpaceIff(line);
    AllSpaceIff(cut);
    BlankIffAllSpace(cut);
  }

  lemma InstalledLine(l: Layout, cols: Columns, line: string)
    requires l.Valid() && ReadsIds(l, cols) && OneSegment(line)
    ensures RowIds(InstalledRowOf(cols, line))
         == if Cell(line, l.id, l.version) == "" then [] else [Cell(line, l.id, l.version)]
  {
    NoCr(line);
    if Blank(line) {
      BlankCell(line, l.id, l.version);
    }
  }

  lemma {:induction false} RowIdsCollected(
    g: string -> seq<InstalledRow>, h: string -> seq<string>, lines: seq<string>, cells: seq<string>)
    requires |lines| == |cells| && forall i | 0 <= i < |lines| :: RowIds(g(lines[i])) == h(cells[i])
    ensures RowIds(Collect(g, lines)) == Collect(h, cells)
  {
    if lines != [] {
      var n := |lines| - 1;
      RowIdsCollected(g, h, lines[..n], cells[..n]);
      IdsOfConcat([], [], Collect(g, lines[..n]), g(lines[n]));
    }
  }

  lemma InstalledLines(l: Layout, cols: Columns, lines: seq<string>)
    requires l.Valid() && ReadsIds(l, cols) && forall i | 0 <= i < |lines| :: OneSegment(lines[i])
    ensures RowIds(InstalledRows(cols, lines)) == NonEmpty(IdCells(l, lines))
  {
    var g, h, cells := InstalledReader(cols), NonEmptyOnly(), IdCells(l, lines);
    forall i | 0 <= i < |lines| ensures RowIds(g(lines[i])) == h(cells[i]) {
      InstalledLine(l, cols, lines[i]);
    }
    RowIdsCollected(g, h, lines, cells);
  }

  lemma RowIdCell(l: Layout, p: Printed, item: UpgradeItem)
    requires Fits(l, item) && p.before == [] && p.text == PrintRow(l, item)
    ensures Cell(Shown(p), l.id, l.version) == item.id
  {
    IdReadBack(l, ColumnsOf(l), item);
    if Blank(p.text) {
      BlankCell(p.text, l.id, l.version);
    }
  }

  lemma RowIdCells(lower: char -> char, l: Layout, items: seq<UpgradeItem>, rows: seq<Printed>)
    requires l.Valid() && TableBody(lower, l, items, rows, [])
    ensures IdCells(l, ShownOf(rows)) == ItemIds(items)
  {
    forall i | 0 <= i < |rows| ensures IdCells(l, ShownOf(rows))[i] == ItemIds(items)[i] {
      RowIdCell(l, rows[i], items[i]);
    }
  }

  lemma InstalledBelow(
    lower: char -> char, l: Layout, cols: Columns, items: seq<UpgradeItem>, rows: seq<Printed>, rest: seq<Printed>)
    requires l.Valid() && ReadsIds(l, cols) && AllWellPrinted(rows) && AllWellPrinted(rest)
    requires TableBody(lower, l, items, rows, [])
    ensures RowIds(InstalledRows(cols, ShownOf(rows) + ShownOf(rest)))
         == NonEmpty(ItemIds(items)) + NonEmpty(IdCells(l, ShownOf(rest)))
  {
    ShownAreOneSegment(rows);
    ShownAreOneSegment(rest);
    InstalledLines(l, cols, ShownOf(rows) + ShownOf(rest));
    RowIdCells(lower, l, items, rows);
    IdCellsConcat(l, ShownOf(rows), ShownOf(rest));
    CollectConcat(NonEmptyOnly(), ItemIds(items), IdCells(l, ShownOf(rest)));
  }

  lemma ShownAreOneSegment(ps: seq<Printed>)
    requires AllWellPrinted(ps)
    ensures forall i | 0 <= i < |ShownOf(ps)| :: OneSegment(ShownOf(ps)[i])
  {
    forall i | 0 <= i < |ps| ensures OneSegment(ShownOf(ps)[i]) {
      ShownIsOneSegment(ps[i]);
    }
  }

  lemma IdCellsConcat(l: Layout, a: seq<string>, b: seq<string>)
    requires l.Valid()
    ensures IdCells(l, a + b) == IdCells(l, a) + IdCells(l, b)
  {
  }

  /// The installed parser returns the ids of the printed rows that have one, in order, and then whatever
  /// the trailing lines have between the two columns: it does not skip summary lines.
  lemma InstalledRoundTrip(
    lower: char -> char, l: Layout, items: seq<UpgradeItem>,
    noise: seq<Printed>, header: Printed, dashes: Printed, rows: seq<Printed>, rest: seq<Printed>)
    requires Headed(lower, noise, header, dashes) && AllWellPrinted(rows) && AllWellPrinted(rest)
    requires l.Valid() && ReadsIds(l, ReadColumns(lower, Shown(header)))
    requires TableBody(lower, l, items, rows, [])
    ensures InstalledIn(lower, PrintDocument(noise + [header, dashes] + rows + rest))
         == NonEmpty(ItemIds(items)) + NonEmpty(IdCells(l, ShownOf(rest)))
  {
    DocumentData(lower, noise, header, dashes, rows, rest);
    InstalledBelow(lower, l, ReadColumns(lower, Shown(header)), items, rows, rest);
  }

  /// So it returns exactly the ids of the rows if and only if every trailing line is blank between the
  /// id and the version columns.
  lemma InstalledExactIff(
    lower: char -> char, l: Layout, items: seq<UpgradeItem>,
    noise: seq<Printed>, header: Printed, dashes: Printed, rows: seq<Printed>, rest: seq<Printed>)
    requires Headed(lower, noise, header, dashes) && AllWellPrinted(rows) && AllWellPrinted(rest)
    requires l.Valid() && ReadsIds(l, ReadColumns(lower, Shown(header)))
    requires TableBody(lower, l, items, rows, [])
    ensures InstalledIn(lower, PrintDocument(noise + [header, dashes] + rows + rest)) == NonEmpty(ItemIds(items))
       <==> forall i | 0 <= i < |rest| :: Cell(Shown(rest[i]), l.id, l.version) == ""
  {
    InstalledRoundTrip(lower, l, items, noise, header, dashes, rows, rest);
    NoCellsIff(l, rest);
    SameIffNothingAdded(NonEmpty(ItemIds(items)), NonEmpty(IdCells(l, ShownOf(rest))));
  }

  lemma NoCellsIff(l: Layout, rest: seq<Printed>)
    requires l.Valid()
    ensures NonEmpty(IdCells(l, ShownOf(rest))) == []
       <==> forall i | 0 <= i < |rest| :: Cell(Shown(rest[i]), l.id, l.version) == ""
  {
    var f, cells := NonEmptyOnly(), IdCells(l, ShownOf(rest));
    assert forall i | 0 <= i < |rest| :: f(cells[i]) == [] <==> Cell(Shown(rest[i]), l.id, l.version) == "";
    CollectNoneIff(f, cells);
  }

  /// Words with one space between them
  predicate Sentence(s: string) {
    forall i | 0 <= i < |s| && IsSpace(s[i]) :: i + 1 < |s| && !IsSpace(s[i + 1])
  }

  lemma SentenceCell(l: Layout, s: string)
    requires l.Valid() && Sentence(s)
    ensures Cell(s, l.id, l.version) == "" <==> |s| <= l.id
  {
    SubstringIs(s, l.id, l.version);
    if l.id < |s| {
      var cut := SafeSubstring(s, l.id, l.version);
      var k := if IsSpace(s[l.id]) then 1 else 0;
      assert cut[k] == s[l.id + k];
      NotBlank(cut, k);
    } else {
      BlankIffAllSpace("");
    }
  }

  /// For trailing lines that are sentences, as winget's summaries are: the parser returns exactly the ids of
  /// the rows if and only if the name column is at least as wide as each of them.
  lemma InstalledExactForSentences(
    lower: char -> char, l: Layout, items: seq<UpgradeItem>,
    noise: seq<Printed>, header: Printed, dashes: Printed, rows: seq<Printed>, rest: seq<Printed>)
    requires Headed(lower, noise, header, dashes) && AllWellPrinted(rows) && AllWellPrinted(rest)
    requires l.Valid() && ReadsIds(l, ReadColumns(lower, Shown(header)))
    requires TableBody(lower, l, items, rows, []) && forall i | 0 <= i < |rest| :: Sentence(Shown(rest[i]))
    ensures InstalledIn(lower, PrintDocument(noise + [header, dashes] + rows + rest)) == NonEmpty(ItemIds(items))
       <==> forall i | 0 <= i < |rest| :: |Shown(rest[i])| <= l.id
  {
    InstalledExactIff(lower, l, items, noise, header, dashes, rows, rest);
    forall i | 0 <= i < |rest| ensures Cell(Shown(rest[i]), l.id, l.version) == "" <==> |Shown(rest[i])| <= l.id {
      SentenceCell(l, Shown(rest[i]));
    }
  }

  lemma SameIffNothingAdded(a: seq<string>, b: seq<string>)
    ensures a + b == a <==> b == []
  {
    assert |a + b| == |a| + |b|;
  }

  // ---------------------------------------------------------------- when a row reads like a summary

  lemma NoStraddle(a: string, b: string, w: string, i: nat)
    requires a != [] && a[|a| - 1] == ' ' && ' ' !in w
    ensures MatchesAt(a + b, w, i) ==> i + |w| <= |a| || |a| <= i
  {
    assert i < |a| < i + |w| <= |a + b| ==> (a + b)[i..i + |w|][|a| - 1 - i] == ' ';
  }

  /// A word without spaces cannot lie across a space.
  lemma ContainsAcrossSpace(a: string, b: string, w: string)
    requires a != [] && a[|a| - 1] == ' ' && ' ' !in w
    ensures Contains(a + b, w) <==> Contains(a, w) || Contains(b, w)
  {
    if Contains(a + b, w) {
      var i: nat :| MatchesAt(a + b, w, i);
      NoStraddle(a, b, w, i);
      if i + |w| <= |a| {
        assert (a + b)[i..i + |w|] == a[i..i + |w|];
        assert MatchesAt(a, w, i);
      } else {
        assert (a + b)[i..i + |w|] == b[i - |a|..i - |a| + |w|];
        assert MatchesAt(b, w, i - |a|);
      }
    }
    if Contains(a, w) {
      var i :| MatchesAt(a, w, i);
      assert (a + b)[i..i + |w|] == a[i..i + |w|];
      assert MatchesAt(a + b, w, i);
    }
    if Contains(b, w) {
      var i :| MatchesAt(b, w, i);
      assert (a + b)[|a| + i..|a| + i + |w|] == b[i..i + |w|];
      assert MatchesAt(a + b, w, |a| + i);
    }
  }

  lemma {:induction false} ContainsPadded(field: string, n: nat, w: string)
    requires w != [] && ' ' !in w
    ensures Contains(field + Spaces(n), w) <==> Contains(field, w)
    decreases n
  {
    if n == 0 {
      assert field + Spaces(n) == field;
    } else {
      var shorter := field + Spaces(n - 1);
      ContainsPadded(field, n - 1, w);
      assert field + Spaces(n) == shorter + " ";
      ContainsBeforeSpace(shorter, w);
    }
  }

  lemma NotOverLastSpace(s: string, w: string, i: nat)
    requires w != [] && ' ' !in w
    ensures MatchesAt(s + " ", w, i) ==> i + |w| <= |s|
  {
    assert i + |w| == |s| + 1 ==> (s + " ")[i..i + |w|][|w| - 1] == ' ';
  }

  lemma ContainsBeforeSpace(s: string, w: string)
    requires w != [] && ' ' !in w
    ensures Contains(s + " ", w) <==> Contains(s, w)
  {
    if Contains(s + " ", w) {
      var i: nat :| MatchesAt(s + " ", w, i);
      NotOverLastSpace(s, w, i);
      assert (s + " ")[i..i + |w|] == s[i..i + |w|];
      assert MatchesAt(s, w, i);
    }
    if Contains(s, w) {
      var i :| MatchesAt(s, w, i);
      assert (s + " ")[i..i + |w|] == s[i..i + |w|];
      assert MatchesAt(s + " ", w, i);
    }
  }

  /// winget leaves at least one space between columns.
  predicate Gapped(l: Layout, item: UpgradeItem) {
    && Fits(l, item)
    && |item.name| < l.id && |item.id| < l.version - l.id
    && |item.current| < l.available - l.version && |item.available| < l.source - l.available
  }

  predicate FieldMentions(lower: char -> char, item: UpgradeItem) {
    || Mentions(lower, item.name) || Mentions(lower, item.id) || Mentions(lower, item.current)
    || Mentions(lower, item.available) || Mentions(lower, item.source)
  }

  lemma PaddedColumn(lower: char -> char, field: string, width: nat, rest: string, w: string)
    requires LowersAscii(lower) && |field| < width && w != [] && ' ' !in w
    ensures Contains(ToLower(lower, Pad(field, width) + rest), w)
       <==> Contains(ToLower(lower, field), w) || Contains(ToLower(lower, rest), w)
  {
    var n := width - |field|;
    ToLowerConcat(lower, Pad(field, width), rest);
    ToLowerConcat(lower, field, Spaces(n));
    assert ToLower(lower, Spaces(n)) == Spaces(n);
    ContainsAcrossSpace(ToLower(lower, Pad(field, width)), ToLower(lower, rest), w);
    ContainsPadded(ToLower(lower, field), n, w);
  }

  lemma WordInRow(lower: char -> char, l: Layout, item: UpgradeItem, w: string)
    requires LowersAscii(lower) && Gapped(l, item) && w != [] && ' ' !in w
    ensures Contains(ToLower(lower, PrintRow(l, item)), w)
       <==> || Contains(ToLower(lower, item.name), w) || Contains(ToLower(lower, item.id), w)
            || Contains(ToLower(lower, item.current), w) || Contains(ToLower(lower, item.available), w)
            || Contains(ToLower(lower, item.source), w)
  {
    var r4 := Pad(item.available, l.source - l.available) + item.source;
    var r3 := Pad(item.current, l.available - l.version) + r4;
    var r2 := Pad(item.id, l.version - l.id) + r3;
    RowIsColumns(l, item);
    PaddedColumn(lower, item.name, l.id, r2, w);
    PaddedColumn(lower, item.id, l.version - l.id, r3, w);
    PaddedColumn(lower, item.current, l.available - l.version, r4, w);
    PaddedColumn(lower, item.available, l.source - l.available, item.source, w);
  }

  /// A printed row is dropped as a summary line exactly when one of its fields mentions one.
  lemma RowMentionsIffFieldDoes(lower: char -> char, l: Layout, item: UpgradeItem)
    requires LowersAscii(lower) && Gapped(l, item)
    ensures Mentions(lower, PrintRow(l, item)) <==> FieldMentions(lower, item)
  {
    WordInRow(lower, l, item, "upgrade");
    WordInRow(lower, l, item, "atualiza");
  }

  /// Rows with ids whose fields mention no summary word all come back, in order.
  lemma RoundTripExact(
    lower: char -> char, l: Layout, items: seq<UpgradeItem>,
    noise: seq<Printed>, header: Printed, dashes: Printed, rows: seq<Printed>, rest: seq<Printed>)
    requires LowersAscii(lower) && l.Valid()
    requires AllWellPrinted(noise) && AllWellPrinted([header, dashes]) && AllWellPrinted(rows) && AllWellPrinted(rest)
    requires forall i | 0 <= i < |noise| :: !LooksLikeHeader(lower, Shown(noise[i]))
    requires header.text == PrintHeader(l)
    requires CountChar(Shown(dashes), '-') > 10
    requires TableBody(lower, l, items, rows, rest)
    requires forall i | 0 <= i < |items| :: Gapped(l, items[i]) && items[i].id != "" && !FieldMentions(lower, items[i])
    ensures UpgradesIn(lower, PrintDocument(noise + [header, dashes] + rows + rest)) == items
  {
    RoundTrip(lower, l, items, noise, header, dashes, rows, rest);
    var f := Keeper(lower, l);
    forall i | 0 <= i < |items| ensures f(items[i]) == [items[i]] {
      RowMentionsIffFieldDoes(lower, l, items[i]);
    }
    CollectAll(f, items);
  }

  // ---------------------------------------------------------------- a summary line in the list

  /// A small table, and the line winget prints below one
  const NARROW := Layout(5, 13, 21, 31)
  const GIT := UpgradeItem("Git", "Git.Git", "2.44.0", "2.45.1", "winget")
  const SUMMARY := "1 upgrades available."

  function GitRow(): string {
    PrintRow(NARROW, GIT)
  }

  function SmallTable(dashes: Printed): string {
    PrintDocument([] + [Line(PrintHeader(NARROW)), dashes] + [Line(GitRow())] + [Line(SUMMARY)])
  }

  function Line(text: string): Printed {
    Printed([], text, [])
  }

  lemma LinePrinted(text: string)
    requires OneSegment(text)
    ensures WellPrinted(Line(text)) && (!Blank(text) ==> Shown(Line(text)) == text)
  {
  }

  lemma OneNonEmpty(s: string)
    requires s != ""
    ensures NonEmpty([s]) == [s]
  {
    CollectOne(NonEmptyOnly(), s);
  }

  lemma OneIdCell(l: Layout, p: Printed)
    requires l.Valid()
    ensures IdCells(l, ShownOf([p])) == [Cell(Shown(p), l.id, l.version)]
  {
  }

  /// A table of one row, and a line below it that mentions upgrades and reaches into the id column
  predicate OneRow(
    lower: char -> char, l: Layout, item: UpgradeItem, header: Printed, dashes: Printed, row: Printed, summary: Printed)
  {
    && Gapped(l, item) && item.id != ""
    && WellPrinted(header) && header.text == PrintHeader(l)
    && WellPrinted(dashes) && CountChar(Shown(dashes), '-') > 10
    && WellPrinted(row) && row.before == [] && row.text == PrintRow(l, item)
    && WellPrinted(summary) && Mentions(lower, Shown(summary)) && Cell(Shown(summary), l.id, l.version) != ""
  }

  lemma OneRowUpgrades(
    lower: char -> char, l: Layout, item: UpgradeItem, header: Printed, dashes: Printed, row: Printed, summary: Printed)
    requires LowersAscii(lower) && OneRow(lower, l, item, header, dashes, row, summary) && !FieldMentions(lower, item)
    ensures UpgradesIn(lower, PrintDocument([] + [header, dashes] + [row] + [summary])) == [item]
  {
    var items, rows, rest := [item], [row], [summary];
    OneRowBody(lower, l, item, row, summary, items, rows, rest);
    OneRowPrinted(header, dashes, row, summary, rows, rest);
    RoundTripExact(lower, l, items, [], header, dashes, rows, rest);
  }

  lemma OneRowPrinted(
    header: Printed, dashes: Printed, row: Printed, summary: Printed, rows: seq<Printed>, rest: seq<Printed>)
    requires WellPrinted(header) && WellPrinted(dashes) && WellPrinted(row) && WellPrinted(summary)
    requires rows == [row] && rest == [summary]
    ensures AllWellPrinted([header, dashes]) && AllWellPrinted(rows) && AllWellPrinted(rest) && AllWellPrinted([])
  {
  }

  lemma OneRowBody(
    lower: char -> char, l: Layout, item: UpgradeItem, row: Printed, summary: Printed,
    items: seq<UpgradeItem>, rows: seq<Printed>, rest: seq<Printed>)
    requires items == [item] && rows == [row] && rest == [summary]
    requires Gapped(l, item) && item.id != "" && row.before == [] && row.text == PrintRow(l, item)
    requires Mentions(lower, Shown(summary))
    ensures TableBody(lower, l, items, rows, rest)
    ensures forall i | 0 <= i < |items| :: Gapped(l, items[i]) && items[i].id != ""
  {
  }

  lemma OneRowInstalled(
    lower: char -> char, l: Layout, item: UpgradeItem, header: Printed, dashes: Printed, row: Printed, summary: Printed)
    requires LowersAscii(lower) && OneRow(lower, l, item, header, dashes, row, summary)
    ensures InstalledIn(lower, PrintDocument([] + [header, dashes] + [row] + [summary]))
         == NonEmpty(ItemIds([item])) + NonEmpty(IdCells(l, ShownOf([summary])))
  {
    EnglishHeader(lower, l, header);
    InstalledRoundTrip(lower, l, [item], [], header, dashes, [row], [summary]);
  }

  lemma OneRowIds(l: Layout, item: UpgradeItem, summary: Printed)
    requires l.Valid() && item.id != "" && Cell(Shown(summary), l.id, l.version) != ""
    ensures NonEmpty(ItemIds([item])) + NonEmpty(IdCells(l, ShownOf([summary])))
         == [item.id] + [Cell(Shown(summary), l.id, l.version)]
  {
    assert ItemIds([item]) == [item.id];
    OneIdCell(l, summary);
    OneNonEmpty(item.id);
    OneNonEmpty(Cell(Shown(summary), l.id, l.version));
  }

  lemma OneRowListed(
    lower: char -> char, l: Layout, item: UpgradeItem, header: Printed, dashes: Printed, row: Printed, summary: Printed)
    requires LowersAscii(lower) && OneRow(lower, l, item, header, dashes, row, summary) && !FieldMentions(lower, item)
    ensures UpgradesIn(lower, PrintDocument([] + [header, dashes] + [row] + [summary])) == [item]
    ensures InstalledIn(lower, PrintDocument([] + [header, dashes] + [row] + [summary]))
         == [item.id] + [Cell(Shown(summary), l.id, l.version)]
  {
    OneRowUpgrades(lower, l, item, header, dashes, row, summary);
    OneRowInstalled(lower, l, item, header, dashes, row, summary);
    OneRowIds(l, item, summary);
  }

  lemma ShortMentionsNothing(lower: char -> char, s: string)
    requires |s| < 7
    ensures !Mentions(lower, s)
  {
  }

  lemma GitMentionsNothing(lower: char -> char)
    requires LowersAscii(lower)
    ensures !FieldMentions(lower, GIT)
  {
    ShortMentionsNothing(lower, "Git");
    ShortMentionsNothing(lower, "2.44.0");
    ShortMentionsNothing(lower, "2.45.1");
    ShortMentionsNothing(lower, "winget");
    var id := ToLower(lower, "Git.Git");
    assert id[0] == 'g' && "upgrade"[0] == 'u';
    assert id[0..7][0] != "upgrade"[0];
  }

  lemma SummaryMentions(lower: char -> char)
    requires LowersAscii(lower)
    ensures Mentions(lower, SUMMARY) && Cell(SUMMARY, NARROW.id, NARROW.version) == "rades av"
  {
    assert ToLower(lower, SUMMARY)[2..9] == "upgrade";
    assert MatchesAt(ToLower(lower, SUMMARY), "upgrade", 2);
    SubstringIs(SUMMARY, 5, 13);
    assert SUMMARY[5..13] == "rades av";
    TrimOfTrimmed("rades av");
  }

  lemma SummaryIsOneLine()
    ensures OneSegment(SUMMARY)
  {
  }

  lemma GitFits()
    ensures Gapped(NARROW, GIT)
  {
  }

  lemma GitIsPrinted(lower: char -> char, dashes: Printed, l: Layout, item: UpgradeItem, summary: string)
    requires WellPrinted(dashes) && CountChar(Shown(dashes), '-') > 10 && Gapped(l, item) && item.id != ""
    requires OneSegment(summary) && !Blank(summary) && Mentions(lower, summary) && Cell(summary, l.id, l.version) != ""
    ensures OneRow(lower, l, item, Line(PrintHeader(l)), dashes, Line(PrintRow(l, item)), Line(summary))
    ensures Shown(Line(summary)) == summary
  {
    LinePrinted(summary);
    LinePrinted(PrintRow(l, item));
    LinePrinted(PrintHeader(l));
  }

  /// It happens: the upgrade parser returns the row, and the installed parser lists a piece of the summary as
  /// another package.
  lemma SummaryLineIsListed(lower: char -> char, dashes: Printed)
    requires LowersAscii(lower) && WellPrinted(dashes) && CountChar(Shown(dashes), '-') > 10
    ensures UpgradesIn(lower, SmallTable(dashes)) == [GIT]
    ensures InstalledIn(lower, SmallTable(dashes)) == [GIT.id] + ["rades av"]
  {
    SummaryMentions(lower);
    SummaryIsOneLine();
    NotBlank(SUMMARY, 0);
    GitFits();
    GitMentionsNothing(lower);
    GitIsPrinted(lower, dashes, NARROW, GIT, SUMMARY);
    OneRowListed(lower, NARROW, GIT, Line(PrintHeader(NARROW)), dashes, Line(GitRow()), Line(SUMMARY));
  }
}
