/// Headers that are not ASCII. findColumnStart counts bytes and safeSubstring counts runes, so a letter
/// of several bytes in front of a column moves that column to the right.
module WingetHeaders {
  import opened Text
  import opened Winget
  import opened WingetTable
  import opened Sequences

  // ---------------------------------------------------------------- where a keyword stands

  /// The text in which findColumnStart finds the keyword, and its rune position there
  datatype Found = Found(text: string, at: nat) | NotFound

  function Find(lower: char -> char, header: string, keyword: string): (f: Found)
    ensures f.Found? ==> f.at <= |f.text| == |header|
  {
    var i := Index(header, keyword);
    if i >= 0 then Found(header, i)
    else
      var lowered := ToLower(lower, header);
      var j := Index(lowered, ToLower(lower, keyword));
      if j >= 0 then Found(lowered, j) else NotFound
  }

  function FindEither(lower: char -> char, header: string, first: string, second: string): (f: Found)
    ensures f.Found? ==> f.at <= |f.text| == |header|
  {
    var f := Find(lower, header, first);
    if f.Found? then f else Find(lower, header, second)
  }

  /// The bytes by which the column found lies behind its rune position
  function Excess(f: Found): (k: nat)
    requires f.Found? ==> f.at <= |f.text|
    ensures f.Found? ==> (k == 0 <==> Ascii(f.text[..f.at]))
  {
    match f
    case NotFound => 0
    case Found(text, at) =>
      Utf8LenIsRuneCountIffAscii(text[..at]);
      Utf8Len(text[..at]) - at
  }

  /// For every header and keyword, in either case: the column is the keyword's rune position exactly when
  /// the header is ASCII up to there, and is missing exactly when both lookups fail.
  lemma ColumnIsRuneIndexIffAscii(lower: char -> char, header: string, keyword: string)
    ensures var f := Find(lower, header, keyword);
            && (f.NotFound? <==> ColumnStart(lower, header, keyword) == -1)
            && (f.Found? ==> ColumnStart(lower, header, keyword) == f.at + Excess(f))
            && (f.Found? ==> (ColumnStart(lower, header, keyword) == f.at <==> Ascii(f.text[..f.at])))
  {
  }

  lemma EitherColumnIs(lower: char -> char, header: string, first: string, second: string)
    ensures var f := FindEither(lower, header, first, second);
            EitherColumn(lower, header, first, second) == if f.Found? then f.at + Excess(f) else -1
  {
    ColumnIsRuneIndexIffAscii(lower, header, first);
    ColumnIsRuneIndexIffAscii(lower, header, second);
  }

  // ---------------------------------------------------------------- cells cut too late

  function Drop(s: string, k: nat): string {
    if k < |s| then s[k..] else ""
  }

  lemma DropPad(field: string, pad: string, k: nat)
    requires AllSpace(pad)
    ensures Trim(Drop(field + pad, k)) == Trim(Drop(field, k))
  {
    if k < |field| {
      assert Drop(field + pad, k) == field[k..] + pad;
      TrimPad(field[k..], pad);
    } else {
      DropIntoPad(field, pad, k);
    }
  }

  lemma DropIntoPad(field: string, pad: string, k: nat)
    requires AllSpace(pad) && k >= |field|
    ensures Trim(Drop(field + pad, k)) == "" == Trim(Drop(field, k))
  {
    var cut := Drop(field + pad, k);
    assert cut == Drop(pad, k - |field|);
    AllSpaceIff(pad);
    AllSpaceIff(cut);
    BlankIffAllSpace(cut);
    BlankIffAllSpace("");
  }

  lemma CutIsDrop(row: string, from: nat, k: nat, end: int)
    requires from <= |row| && end >= from + k
    ensures SafeSubstring(row, from + k, end) == Drop(row[from..if end < |row| then end else |row|], k)
  {
    SubstringIs(row, from + k, end);
  }

  /// A cell with nothing but spaces between it and the end of the row, cut k runes too late
  lemma CellOverBlank(row: string, from: nat, field: string, pad: string, k: nat, end: int)
    requires from <= |row| && row[from..] == field + pad && AllSpace(pad)
    requires end >= from + |field| && end >= from + k
    ensures Cell(row, from + k, end) == Trim(Drop(field, k))
  {
    var hi := if end < |row| then end else |row|;
    var some := pad[..hi - from - |field|];
    assert row[from..hi] == field + some;
    AllSpaceIff(pad);
    AllSpaceIff(some);
    CutIsDrop(row, from, k, end);
    DropPad(field, some, k);
  }

  lemma WholeIffNothingCut(field: string, k: nat)
    requires Trimmed(field)
    ensures Trim(Drop(field, k)) == field <==> k == 0 || field == ""
  {
    TrimOfTrimmed(field);
    TrimIsTrimmed(Drop(field, k));
    assert Drop(field, 0) == field;
  }

  /// A trimmed field, padded to its column
  predicate Stands(row: string, from: nat, next: nat, field: string) {
    from < next <= |row| && |field| <= next - from && Trimmed(field) && row[from..next] == Pad(field, next - from)
  }

  /// The same for a column of a printed row whose later columns are blank
  lemma ColumnOverBlank(row: string, from: nat, next: nat, field: string, k: nat, end: int)
    requires Stands(row, from, next, field) && AllSpace(row[next..]) && end >= next && end >= from + k
    ensures Cell(row, from + k, end) == field <==> k == 0 || field == ""
  {
    var pad := Spaces(next - from - |field|) + row[next..];
    SpacesAreBlank(next - from - |field|);
    AllSpaceConcat(Spaces(next - from - |field|), row[next..]);
    assert row[from..] == row[from..next] + row[next..];
    assert row[from..] == field + pad;
    CellOverBlank(row, from, field, pad, k, end);
    WholeIffNothingCut(field, k);
  }

  // ---------------------------------------------------------------- rows under shifted columns

  /// How far each column is read to the right of its place
  datatype Shift = Shift(id: nat, version: nat, available: nat, source: nat) {
    predicate Rises() {
      id <= version <= available <= source
    }
  }

  /// The columns of a layout, shifted; without a source title there is no source column.
  function Shifted(l: Layout, e: Shift, titled: bool): Columns {
    Starts(l.id + e.id, l.version + e.version, l.available + e.available, if titled then l.source + e.source else -1)
  }

  /// Every cell that is cut too late is blank, and so is the source where no column is read for it.
  predicate NothingCut(e: Shift, titled: bool, item: UpgradeItem) {
    && (e.id == 0 || item.id == "")
    && (e.version == 0 || item.current == "")
    && (e.available == 0 || item.available == "")
    && ((titled && e.source == 0) || item.source == "")
  }

  /// Where the last cell of a row ends for the parser
  function RowEnd(row: string, from: nat): (end: nat)
    ensures end >= |row| && end >= from
  {
    if Utf8Len(row) < from then from else Utf8Len(row)
  }

  function AvailableEnd(l: Layout, e: Shift, titled: bool, row: string): int {
    if titled then l.source + e.source else RowEnd(row, l.available + e.available)
  }

  function ShiftedItem(l: Layout, e: Shift, titled: bool, row: string): UpgradeItem
    requires l.Valid() && e.Rises()
  {
    UpgradeItem(
      Cell(row, 0, l.id + e.id),
      Cell(row, l.id + e.id, l.version + e.version),
      Cell(row, l.version + e.version, l.available + e.available),
      Cell(row, l.available + e.available, AvailableEnd(l, e, titled, row)),
      if titled then Cell(row, l.source + e.source, RowEnd(row, l.source + e.source)) else "")
  }

  lemma ItemIsShifted(l: Layout, e: Shift, titled: bool, row: string)
    requires l.Valid() && e.Rises()
    ensures ItemOf(Shifted(l, e, titled), row) == ShiftedItem(l, e, titled, row)
  {
  }

  lemma BlankPad(row: string, from: nat, next: nat)
    requires Stands(row, from, next, "") && AllSpace(row[next..])
    ensures AllSpace(row[from..])
  {
    SpacesAreBlank(next - from);
    AllSpaceConcat(Spaces(next - from), row[next..]);
    assert row[from..] == row[from..next] + row[next..];
    assert row[from..next] == Spaces(next - from);
  }

  /// Where the cells of a printed row stand
  predicate Row(l: Layout, item: UpgradeItem, row: string) {
    && Stands(row, 0, l.id, item.name) && Stands(row, l.id, l.version, item.id)
    && Stands(row, l.version, l.available, item.current) && Stands(row, l.available, l.source, item.available)
    && Trimmed(item.source) && row[l.source..] == item.source
  }

  lemma RowStands(l: Layout, item: UpgradeItem, row: string)
    requires Fits(l, item) && HasSlices(l, item, row)
    ensures Row(l, item, row)
  {
    assert row[0..l.id] == row[..l.id];
  }

  /// From a blank column on, with all later ones blank, the row is blank.
  lemma BlankTails(l: Layout, item: UpgradeItem, row: string)
    requires Row(l, item, row) && item.source == ""
    ensures AllSpace(row[l.source..])
    ensures item.available == "" ==> AllSpace(row[l.available..])
    ensures item.available == "" && item.current == "" ==> AllSpace(row[l.version..])
    ensures item.available == "" && item.current == "" && item.id == "" ==> AllSpace(row[l.id..])
  {
    AllSpaceIff("");
    if item.available == "" {
      BlankPad(row, l.available, l.source);
      if item.current == "" {
        BlankPad(row, l.version, l.available);
        if item.id == "" {
          BlankPad(row, l.id, l.version);
        }
      }
    }
  }

  /// The cell of a column ends at the next one, or has only blank columns behind it.
  lemma ColumnRead(row: string, from: nat, next: nat, field: string, k: nat, end: int, blank: bool, cell: string)
    requires Stands(row, from, next, field) && end >= next && end >= from + k
    requires (blank ==> AllSpace(row[next..])) && cell == Cell(row, from + k, end)
    ensures k == 0 && end == next ==> cell == field
    ensures blank ==> (cell == field <==> k == 0 || field == "")
  {
    if k == 0 && end == next {
      CellParses(row, from, next, field);
    }
    if blank {
      ColumnOverBlank(row, from, next, field, k, end);
    }
  }

  lemma SourceRead(row: string, from: nat, field: string, k: nat)
    requires from <= |row| && row[from..] == field
    ensures Cell(row, from + k, RowEnd(row, from + k)) == Trim(Drop(field, k))
  {
    AllSpaceIff("");
    assert row[from..] == field + "";
    CellOverBlank(row, from, field, "", k, RowEnd(row, from + k));
  }

  /// From the right: a cell decides once the ones behind it are blank, or when nothing is shifted behind it.
  lemma WholeFromCells(e: Shift, titled: bool, item: UpgradeItem, got: UpgradeItem)
    requires e.Rises()
    requires if titled then got.source == item.source <==> e.source == 0 || item.source == "" else got.source == ""
    requires item.source == "" ==> (got.available == item.available <==> e.available == 0 || item.available == "")
    requires titled && e.source == 0 ==> got.available == item.available
    requires item.source == item.available == "" ==>
               (got.current == item.current <==> e.version == 0 || item.current == "")
    requires e.available == 0 ==> got.current == item.current
    requires item.source == item.available == item.current == "" ==> (got.id == item.id <==> e.id == 0 || item.id == "")
    requires e.version == 0 ==> got.id == item.id
    requires item.source == item.available == item.current == item.id == "" || e.id == 0 ==> got.name == item.name
    ensures got == item <==> NothingCut(e, titled, item)
  {
  }

  /// For every shift: a row comes back whole exactly when every cell that is cut too late is blank.
  lemma ShiftedWholeIff(l: Layout, e: Shift, titled: bool, item: UpgradeItem, row: string, got: UpgradeItem)
    requires l.Valid() && Row(l, item, row) && e.Rises() && got == ShiftedItem(l, e, titled, row)
    ensures got == item <==> NothingCut(e, titled, item)
  {
    NameCell(l, e, item, row, got.name);
    IdCell(l, e, item, row, got.id);
    CurrentCell(l, e, item, row, got.current);
    AvailableCell(l, e, titled, item, row, got.available);
    if titled {
      SourceRead(row, l.source, item.source, e.source);
      WholeIffNothingCut(item.source, e.source);
    }
    WholeFromCells(e, titled, item, got);
  }

  lemma NameCell(l: Layout, e: Shift, item: UpgradeItem, row: string, name: string)
    requires l.Valid() && Row(l, item, row) && name == Cell(row, 0, l.id + e.id)
    ensures item.source == item.available == item.current == item.id == "" || e.id == 0 ==> name == item.name
  {
    var blank := item.source == item.available == item.current == item.id == "";
    if blank {
      BlankTails(l, item, row);
    }
    ColumnRead(row, 0, l.id, item.name, 0, l.id + e.id, blank, name);
  }

  lemma IdCell(l: Layout, e: Shift, item: UpgradeItem, row: string, id: string)
    requires l.Valid() && Row(l, item, row) && e.Rises() && id == Cell(row, l.id + e.id, l.version + e.version)
    ensures e.version == 0 ==> id == item.id
    ensures item.source == item.available == item.current == "" ==> (id == item.id <==> e.id == 0 || item.id == "")
  {
    var blank := item.source == item.available == item.current == "";
    if blank {
      BlankTails(l, item, row);
    }
    ColumnRead(row, l.id, l.version, item.id, e.id, l.version + e.version, blank, id);
  }

  lemma CurrentCell(l: Layout, e: Shift, item: UpgradeItem, row: string, current: string)
    requires l.Valid() && Row(l, item, row) && e.Rises()
    requires current == Cell(row, l.version + e.version, l.available + e.available)
    ensures e.available == 0 ==> current == item.current
    ensures item.source == item.available == "" ==> (current == item.current <==> e.version == 0 || item.current == "")
  {
    var blank := item.source == item.available == "";
    if blank {
      BlankTails(l, item, row);
    }
    ColumnRead(row, l.version, l.available, item.current, e.version, l.available + e.available, blank, current);
  }

  lemma AvailableCell(l: Layout, e: Shift, titled: bool, item: UpgradeItem, row: string, available: string)
    requires l.Valid() && Row(l, item, row) && e.Rises()
    requires available == Cell(row, l.available + e.available, AvailableEnd(l, e, titled, row))
    ensures titled && e.source == 0 ==> available == item.available
    ensures item.source == "" ==> (available == item.available <==> e.available == 0 || item.available == "")
  {
    if item.source == "" {
      BlankTails(l, item, row);
    }
    var end := AvailableEnd(l, e, titled, row);
    ColumnRead(row, l.available, l.source, item.available, e.available, end, item.source == "", available);
  }

  // ---------------------------------------------------------------- rows under any header

  /// The titles of a header are found in one text, over the columns of the layout; the source title is
  /// found there or nowhere.
  predicate TitlesOver(lower: char -> char, l: Layout, header: string, text: string) {
    && FindEither(lower, header, "Id", "ID") == Found(text, l.id)
    && FindEither(lower, header, "Version", "Vers") == Found(text, l.version)
    && FindEither(lower, header, "Available", "Dispon") == Found(text, l.available)
    && FindEither(lower, header, "Source", "Fonte") in {Found(text, l.source), NotFound}
  }

  predicate Titled(lower: char -> char, header: string) {
    FindEither(lower, header, "Source", "Fonte").Found?
  }

  function Before(text: string, p: nat): string {
    if p <= |text| then text[..p] else text
  }

  /// The bytes that a text has more than runes, up to p
  function ExtraBytes(text: string, p: nat): (k: nat)
    ensures k == 0 <==> Ascii(Before(text, p))
  {
    Utf8LenIsRuneCountIffAscii(Before(text, p));
    Utf8Len(Before(text, p)) - |Before(text, p)|
  }

  lemma {:induction false} Utf8LenConcat(a: string, b: string)
    ensures Utf8Len(a + b) == Utf8Len(a) + Utf8Len(b)
    decreases |a|
  {
    if a == [] {
      assert a + b == b;
    } else {
      assert (a + b)[1..] == a[1..] + b;
      Utf8LenConcat(a[1..], b);
    }
  }

  lemma ExtraBytesRise(text: string, p: nat, q: nat)
    requires p <= q
    ensures ExtraBytes(text, p) <= ExtraBytes(text, q)
  {
    var a, b := Before(text, p), Before(text, q);
    assert b == a + b[|a|..];
    Utf8LenConcat(a, b[|a|..]);
  }

  function ShiftOf(l: Layout, text: string): Shift {
    Shift(ExtraBytes(text, l.id), ExtraBytes(text, l.version),
          ExtraBytes(text, l.available), ExtraBytes(text, l.source))
  }

  lemma ShiftRises(l: Layout, text: string)
    requires l.Valid()
    ensures ShiftOf(l, text).Rises()
  {
    ExtraBytesRise(text, l.id, l.version);
    ExtraBytesRise(text, l.version, l.available);
    ExtraBytesRise(text, l.available, l.source);
  }

  lemma ColumnsAreShifted(lower: char -> char, l: Layout, header: string, text: string)
    requires TitlesOver(lower, l, header, text)
    ensures ReadColumns(lower, header) == Shifted(l, ShiftOf(l, text), Titled(lower, header))
  {
    EitherColumnIs(lower, header, "Id", "ID");
    EitherColumnIs(lower, header, "Version", "Vers");
    EitherColumnIs(lower, header, "Available", "Dispon");
    EitherColumnIs(lower, header, "Source", "Fonte");
  }

  /// The cells whose titles stand behind a letter that is not ASCII are blank, and so is the source when it
  /// has no title.
  predicate BlankBehindLetters(l: Layout, text: string, titled: bool, item: UpgradeItem) {
    && (Ascii(Before(text, l.id)) || item.id == "")
    && (Ascii(Before(text, l.version)) || item.current == "")
    && (Ascii(Before(text, l.available)) || item.available == "")
    && ((titled && Ascii(Before(text, l.source))) || item.source == "")
  }

  /// Under any header whose titles stand over their columns, a row comes back whole exactly when every cell
  /// whose title stands behind a letter that is not ASCII is blank.
  lemma RowWholeIff(lower: char -> char, l: Layout, item: UpgradeItem, header: string, text: string)
    requires Fits(l, item) && TitlesOver(lower, l, header, text)
    ensures ItemOf(ReadColumns(lower, header), PrintRow(l, item)) == item
       <==> BlankBehindLetters(l, text, Titled(lower, header), item)
  {
    ColumnsAreShifted(lower, l, header, text);
    ShiftRises(l, text);
    PrintedStands(l, item);
    ItemIsShifted(l, ShiftOf(l, text), Titled(lower, header), PrintRow(l, item));
    ShiftedWholeIff(l, ShiftOf(l, text), Titled(lower, header), item, PrintRow(l, item),
      ItemOf(ReadColumns(lower, header), PrintRow(l, item)));
  }

  lemma PrintedStands(l: Layout, item: UpgradeItem)
    requires Fits(l, item)
    ensures Row(l, item, PrintRow(l, item))
  {
    RowSlices(l, item);
    RowStands(l, item, PrintRow(l, item));
  }

  lemma SourceStands(l: Layout, item: UpgradeItem, row: string)
    requires Fits(l, item) && row == PrintRow(l, item)
    ensures l.source <= |row| && row[l.source..] == item.source && Trimmed(item.source)
  {
    RowSlices(l, item);
  }

  lemma SourceOf(cols: Columns, row: string)
    requires cols.source >= 0
    ensures ItemOf(cols, row).source == Cell(row, cols.source, RowEnd(row, cols.source))
  {
  }

  lemma AvailableOf(cols: Columns, row: string)
    requires cols.source == -1 && cols.available >= 0
    ensures ItemOf(cols, row).available == Cell(row, cols.available, RowEnd(row, cols.available))
  {
  }

  lemma PrintedSource(l: Layout, item: UpgradeItem, cols: Columns, k: nat)
    requires Fits(l, item) && cols.source == l.source + k
    ensures ItemOf(cols, PrintRow(l, item)).source == item.source <==> k == 0 || item.source == ""
  {
    var row := PrintRow(l, item);
    SourceStands(l, item, row);
    SourceOf(cols, row);
    SourceRead(row, l.source, item.source, k);
    WholeIffNothingCut(item.source, k);
  }

  lemma PrintedAvailable(l: Layout, item: UpgradeItem, cols: Columns, k: nat)
    requires Fits(l, item) && item.source == "" && cols.source == -1 && cols.available == l.available + k
    ensures ItemOf(cols, PrintRow(l, item)).available == item.available <==> k == 0 || item.available == ""
  {
    var row := PrintRow(l, item);
    PrintedStands(l, item);
    AvailableOf(cols, row);
    AvailableCell(l, Shift(0, 0, k, k), false, item, row, ItemOf(cols, row).available);
  }

  /// The source cell alone, under any header with a source title over its column: it is whole exactly when
  /// the header is ASCII up to that title or the cell is blank.
  lemma SourceCellWholeIff(lower: char -> char, l: Layout, item: UpgradeItem, header: string)
    requires Fits(l, item)
    requires var f := FindEither(lower, header, "Source", "Fonte"); f.Found? && f.at == l.source
    ensures var f := FindEither(lower, header, "Source", "Fonte");
            ItemOf(ReadColumns(lower, header), PrintRow(l, item)).source == item.source
            <==> Ascii(f.text[..f.at]) || item.source == ""
  {
    EitherColumnIs(lower, header, "Source", "Fonte");
    PrintedSource(l, item, ReadColumns(lower, header), Excess(FindEither(lower, header, "Source", "Fonte")));
  }

  /// The last cell of a table without a source column: it is whole exactly when the header is ASCII up to
  /// the available title or the cell is blank.
  lemma LastCellWholeIff(lower: char -> char, l: Layout, item: UpgradeItem, header: string)
    requires Fits(l, item) && item.source == ""
    requires FindEither(lower, header, "Source", "Fonte").NotFound?
    requires var f := FindEither(lower, header, "Available", "Dispon"); f.Found? && f.at == l.available
    ensures var f := FindEither(lower, header, "Available", "Dispon");
            ItemOf(ReadColumns(lower, header), PrintRow(l, item)).available == item.available
            <==> Ascii(f.text[..f.at]) || item.available == ""
  {
    EitherColumnIs(lower, header, "Available", "Dispon");
    EitherColumnIs(lower, header, "Source", "Fonte");
    PrintedAvailable(l, item, ReadColumns(lower, header), Excess(FindEither(lower, header, "Available", "Dispon")));
  }

  /// Cut any number of runes too late, no filled last cell comes back whole.
  lemma ShiftedColumnLosesAvailable(l: Layout, item: UpgradeItem, k: nat)
    requires Fits(l, item) && k >= 1 && item.available != "" && item.source == ""
    ensures ItemOf(Starts(l.id, l.version, l.available + k, -1), PrintRow(l, item)).available != item.available
  {
    PrintedAvailable(l, item, Starts(l.id, l.version, l.available + k, -1), k);
  }

  /// For every table whose header has ASCII letters only up to its version title: the rows come back as
  /// printed exactly when every kept row is blank behind the first letter that is not ASCII.
  lemma TableWholeIff(
    lower: char -> char, l: Layout, items: seq<UpgradeItem>, text: string,
    noise: seq<Printed>, header: Printed, dashes: Printed, rows: seq<Printed>, rest: seq<Printed>)
    requires Headed(lower, noise, header, dashes) && AllWellPrinted(rows) && AllWellPrinted(rest)
    requires l.Valid() && TitlesOver(lower, l, Shown(header), text) && Ascii(Before(text, l.version))
    requires TableBody(lower, l, items, rows, rest)
    ensures UpgradesIn(lower, PrintDocument(noise + [header, dashes] + rows + rest)) == KeptItems(lower, l, items)
       <==> forall i | 0 <= i < |items| && Kept(lower, l, items[i]) ::
              BlankBehindLetters(l, text, Titled(lower, Shown(header)), items[i])
  {
    ColumnsAreShifted(lower, l, Shown(header), text);
    ExtraBytesRise(text, l.id, l.version);
    TableRead(lower, l, items, noise, header, dashes, rows, rest);
    ReadBackWholeIff(lower, l, items, Shown(header), text);
  }

  lemma ReadBackWholeIff(lower: char -> char, l: Layout, items: seq<UpgradeItem>, header: string, text: string)
    requires TitlesOver(lower, l, header, text) && forall i | 0 <= i < |items| :: Fits(l, items[i])
    ensures ReadBack(lower, l, ReadColumns(lower, header), items) == KeptItems(lower, l, items)
       <==> forall i | 0 <= i < |items| && Kept(lower, l, items[i]) ::
            BlankBehindLetters(l, text, Titled(lower, header), items[i])
  {
    var f, g := CutKeeper(lower, l, ReadColumns(lower, header)), Keeper(lower, l);
    forall i | 0 <= i < |items|
      ensures |f(items[i])| == |g(items[i])|
      ensures f(items[i]) == g(items[i])
         <==> (Kept(lower, l, items[i]) ==> BlankBehindLetters(l, text, Titled(lower, header), items[i])) {
      RowWholeIff(lower, l, items[i], header, text);
    }
    CollectSameIff(f, g, items);
  }

  // ---------------------------------------------------------------- winget in Portuguese

  /// The titles of a table, with the source column or without it
  function Portuguese(titled: bool): UpgradeItem {
    UpgradeItem("Nome", "Id", "Vers\U{E3}o", "Dispon\U{ED}vel", if titled then "Fonte" else "")
  }

  /// The table lower-cases ASCII and leaves the two accented small letters alone.
  ghost predicate LowersPortuguese(lower: char -> char) {
    LowersAscii(lower) && lower('\U{E3}') == '\U{E3}' && lower('\U{ED}') == '\U{ED}'
  }

  const NAME_LETTERS := {' ', 'N', 'o', 'm', 'e'}
  const ID_LETTERS := {' ', 'I', 'd'}
  const AVAILABLE_LETTERS := {' ', 'D', 'i', 's', 'p', 'o', 'n', '\U{ED}', 'v', 'e', 'l'}
  const SOURCE_LETTERS := {'F', 'o', 'n', 't', 'e'}

  /// The letters of the Portuguese header, column by column
  predicate Lettered(l: Layout, h: string) {
    && Narrow(l, Portuguese(true)) && |h| >= l.source
    && (forall i | 0 <= i < l.id :: h[i] in NAME_LETTERS)
    && (forall i | l.id <= i < l.version :: h[i] in ID_LETTERS)
    && h[l.version] == 'V' && h[l.version + 1] == 'e' && h[l.version + 2] == 'r'
    && h[l.version + 3] == 's' && h[l.version + 4] == '\U{E3}' && h[l.version + 5] == 'o'
    && (forall i | l.version + 6 <= i < l.available :: h[i] == ' ')
    && (forall i | l.available <= i < l.source ::
          h[i] in AVAILABLE_LETTERS && (h[i] == '\U{ED}' <==> i == l.available + 6))
    && (forall i | l.source <= i < |h| :: h[i] in SOURCE_LETTERS)
  }

  lemma ColumnLetters(h: string, from: nat, to: nat, title: string, letters: set<char>)
    requires from <= to <= |h| && |title| <= to - from && h[from..to] == Pad(title, to - from)
    requires ' ' in letters && forall k | 0 <= k < |title| :: title[k] in letters
    ensures forall i | from <= i < to :: h[i] in letters
    ensures forall i | from <= i < from + |title| :: h[i] == title[i - from]
    ensures forall i | from + |title| <= i < to :: h[i] == ' '
  {
    forall i | from <= i < to ensures h[i] == if i < from + |title| then title[i - from] else ' ' {
      assert h[i] == Pad(title, to - from)[i - from];
    }
  }

  lemma FrontLettered(l: Layout, titled: bool, h: string)
    requires Narrow(l, Portuguese(titled)) && HasSlices(l, Portuguese(titled), h)
    ensures forall i | 0 <= i < l.id :: h[i] in NAME_LETTERS
    ensures forall i | l.id <= i < l.version :: h[i] in ID_LETTERS
  {
    assert h[0..l.id] == h[..l.id];
    ColumnLetters(h, 0, l.id, "Nome", NAME_LETTERS);
    ColumnLetters(h, l.id, l.version, "Id", ID_LETTERS);
  }

  lemma VersionLettered(l: Layout, titled: bool, h: string)
    requires Narrow(l, Portuguese(titled)) && HasSlices(l, Portuguese(titled), h)
    ensures forall i | l.version <= i < l.version + 6 :: h[i] == "Vers\U{E3}o"[i - l.version]
    ensures forall i | l.version + 6 <= i < l.available :: h[i] == ' '
  {
    ColumnLetters(h, l.version, l.available, "Vers\U{E3}o", {' ', 'V', 'e', 'r', 's', '\U{E3}', 'o'});
  }

  lemma BackLettered(l: Layout, titled: bool, h: string)
    requires Narrow(l, Portuguese(titled)) && HasSlices(l, Portuguese(titled), h)
    ensures forall i | l.available <= i < l.source ::
              h[i] in AVAILABLE_LETTERS && (h[i] == '\U{ED}' <==> i == l.available + 6)
    ensures forall i | l.source <= i < |h| :: h[i] in SOURCE_LETTERS
  {
    ColumnLetters(h, l.available, l.source, "Dispon\U{ED}vel", AVAILABLE_LETTERS);
    forall i | l.source <= i < |h| ensures h[i] in SOURCE_LETTERS {
      assert h[i] == h[l.source..][i - l.source];
    }
  }

  lemma HeaderLettered(l: Layout, titled: bool, h: string)
    requires Narrow(l, Portuguese(titled)) && HasSlices(l, Portuguese(titled), h)
    ensures Lettered(l, h)
  {
    FrontLettered(l, titled, h);
    VersionLettered(l, titled, h);
    BackLettered(l, titled, h);
  }

  lemma MatchLetter(s: string, w: string, i: int, k: int)
    requires MatchesAt(s, w, i) && 0 <= k < |w|
    ensures s[i + k] == w[k]
  {
    assert s[i..i + |w|][k] == w[k];
  }

  /// A word does not occur where one of its letters does not.
  lemma LacksLetter(s: string, w: string, k: nat)
    requires k < |w| && forall i | 0 <= i < |s| :: s[i] != w[k]
    ensures !Contains(s, w)
  {
    if i :| MatchesAt(s, w, i) {
      MatchLetter(s, w, i, k);
    }
  }

  lemma ForeignLetters(lower: char -> char, l: Layout, h: string)
    requires LowersPortuguese(lower) && Lettered(l, h)
    ensures forall i | 0 <= i < |h| :: h[i] !in {'b', 'u'} && lower(h[i]) !in {'b', 'u'}
    ensures forall i | 0 <= i < |h| && (h[i] == 'r' || lower(h[i]) == 'r') :: i == l.version + 2
    ensures forall i | 0 <= i < l.source :: h[i] != 't' && lower(h[i]) != 't'
  {
  }

  lemma NoTitle(lower: char -> char, h: string, title: string, lowered: string, k: nat)
    requires ToLower(lower, title) == lowered && k < |title| && title[k] == lowered[k]
    requires forall i | 0 <= i < |h| :: h[i] != title[k] && lower(h[i]) != title[k]
    ensures Find(lower, h, title).NotFound?
  {
    LacksLetter(h, title, k);
    LacksLetter(ToLower(lower, h), lowered, k);
  }

  /// A word does not occur where one of its letters stands once, next to the wrong letter.
  lemma LacksPair(s: string, w: string, k: nat, j: nat, p: nat)
    requires k < |w| && j < |w| && forall i | 0 <= i < |s| && s[i] == w[k] :: i == p
    requires k <= p + j && p + j - k < |s| && s[p + j - k] != w[j]
    ensures !Contains(s, w)
  {
    if i :| MatchesAt(s, w, i) {
      MatchLetter(s, w, i, k);
      MatchLetter(s, w, i, j);
    }
  }

  /// The only r of the header is in the word that differs from the English one two letters later.
  lemma NoVersion(lower: char -> char, l: Layout, h: string)
    requires LowersPortuguese(lower) && Lettered(l, h)
    ensures Find(lower, h, "Version").NotFound?
  {
    ForeignLetters(lower, l, h);
    var w := "version";
    assert ToLower(lower, "Version") == w;
    LacksPair(h, "Version", 2, 4, l.version + 2);
    LacksPair(ToLower(lower, h), w, 2, 4, l.version + 2);
  }

  lemma FoundFirst(lower: char -> char, h: string, keyword: string, p: nat)
    requires keyword != [] && MatchesAt(h, keyword, p) && forall i | 0 <= i < p :: h[i] != keyword[0]
    ensures Find(lower, h, keyword) == Found(h, p)
  {
    IndexAt(h, keyword, p);
  }

  /// No column's first letter stands in an earlier column.
  lemma FirstLetters(l: Layout, h: string)
    requires Lettered(l, h)
    ensures forall i | 0 <= i < l.id :: h[i] != 'I'
    ensures forall i | 0 <= i < l.version :: h[i] != 'V'
    ensures forall i | 0 <= i < l.available :: h[i] != 'D'
    ensures forall i | 0 <= i < l.source :: h[i] != 'F'
  {
  }

  lemma TitlesStand(l: Layout, titled: bool, h: string)
    requires Narrow(l, Portuguese(titled)) && HasSlices(l, Portuguese(titled), h)
    ensures MatchesAt(h, "Id", l.id) && MatchesAt(h, "Vers", l.version) && MatchesAt(h, "Dispon", l.available)
    ensures titled ==> MatchesAt(h, "Fonte", l.source)
  {
    TitleAt(h, Pad("Id", l.version - l.id), "Id", l.id);
    TitleAt(h, Pad("Vers\U{E3}o", l.available - l.version), "Vers", l.version);
    TitleAt(h, Pad("Dispon\U{ED}vel", l.source - l.available), "Dispon", l.available);
    if titled {
      TitleAt(h, "Fonte", "Fonte", l.source);
    }
  }

  lemma SecondFound(lower: char -> char, h: string, first: string, second: string, p: nat)
    requires Find(lower, h, first).NotFound? && second != [] && MatchesAt(h, second, p)
    requires forall i | 0 <= i < p :: h[i] != second[0]
    ensures FindEither(lower, h, first, second) == Found(h, p)
  {
    FoundFirst(lower, h, second, p);
  }

  lemma NoAvailable(lower: char -> char, l: Layout, h: string)
    requires LowersPortuguese(lower) && Lettered(l, h)
    ensures Find(lower, h, "Available").NotFound?
  {
    ForeignLetters(lower, l, h);
    NoTitle(lower, h, "Available", "available", 6);
  }

  lemma SourceTitle(lower: char -> char, l: Layout, titled: bool, h: string)
    requires LowersPortuguese(lower) && Lettered(l, h)
    requires (if titled then MatchesAt(h, "Fonte", l.source) else |h| == l.source)
    ensures FindEither(lower, h, "Source", "Fonte") == if titled then Found(h, l.source) else NotFound
  {
    ForeignLetters(lower, l, h);
    NoTitle(lower, h, "Source", "source", 2);
    if titled {
      FirstLetters(l, h);
      SecondFound(lower, h, "Source", "Fonte", l.source);
    } else {
      NoTitle(lower, h, "Fonte", "fonte", 3);
    }
  }

  lemma PortugueseTitles(lower: char -> char, l: Layout, titled: bool, h: string)
    requires LowersPortuguese(lower) && Narrow(l, Portuguese(titled)) && HasSlices(l, Portuguese(titled), h)
    ensures TitlesOver(lower, l, h, h) && Titled(lower, h) == titled
  {
    HeaderLettered(l, titled, h);
    TitlesStand(l, titled, h);
    FirstLetters(l, h);
    NoVersion(lower, l, h);
    NoAvailable(lower, l, h);
    FoundFirst(lower, h, "Id", l.id);
    SecondFound(lower, h, "Version", "Vers", l.version);
    SecondFound(lower, h, "Available", "Dispon", l.available);
    SourceTitle(lower, l, titled, h);
  }

  // ---------------------------------------------------------------- bytes in front of the columns

  lemma AsciiStretch(h: string, from: nat, to: nat)
    requires from <= to <= |h| && forall i | from <= i < to :: h[i] < '\U{80}'
    ensures Utf8Len(h[from..to]) == to - from
  {
    Utf8LenIsRuneCountIffAscii(h[from..to]);
  }

  /// The two accented letters stand in front of the last two columns.
  lemma Accents(l: Layout, h: string)
    requires Lettered(l, h)
    ensures forall i | 0 <= i < l.source && i != l.version + 4 && i != l.available + 6 :: h[i] < '\U{80}'
    ensures Utf8Width(h[l.version + 4]) == 2 == Utf8Width(h[l.available + 6])
  {
  }

  lemma BytesOfStretch(h: string, from: nat, to: nat, accent: nat)
    requires from <= accent < to <= |h| && (forall i | from <= i < to && i != accent :: h[i] < '\U{80}')
    requires Utf8Width(h[accent]) == 2
    ensures Utf8Len(h[from..to]) == to - from + 1
  {
    AsciiStretch(h, from, accent);
    AsciiStretch(h, accent + 1, to);
    OneWide(h[from..accent], h[accent], h[accent + 1..to]);
    CutAround(h, from, accent, to);
  }

  lemma CutAround(h: string, from: nat, k: nat, to: nat)
    requires from <= k < to <= |h|
    ensures h[from..to] == h[from..k] + [h[k]] + h[k + 1..to]
  {
  }

  lemma OneWide(a: string, c: char, b: string)
    ensures Utf8Len(a + [c] + b) == Utf8Len(a) + Utf8Width(c) + Utf8Len(b)
  {
    Utf8LenConcat(a + [c], b);
    Utf8LenConcat(a, [c]);
    assert [c][1..] == [] && FirstAndRest([c]) == Utf8Width(c) + Utf8Len([]);
  }

  lemma StretchesJoin(h: string, p: nat, q: nat)
    requires p <= q <= |h|
    ensures ExtraBytes(h, q) == ExtraBytes(h, p) + Utf8Len(h[p..q]) - (q - p)
  {
    Utf8LenConcat(h[..p], h[p..q]);
    assert h[..q] == h[..p] + h[p..q];
  }

  /// One extra byte in front of the available column, two in front of the source
  const ACCENTS := Shift(0, 0, 1, 2)

  lemma PortugueseShift(l: Layout, h: string)
    requires Lettered(l, h)
    ensures ShiftOf(l, h) == ACCENTS
  {
    Accents(l, h);
    AsciiStretch(h, 0, l.id);
    AsciiStretch(h, l.id, l.version);
    BytesOfStretch(h, l.version, l.available, l.version + 4);
    BytesOfStretch(h, l.available, l.source, l.available + 6);
    StretchesJoin(h, 0, l.id);
    StretchesJoin(h, l.id, l.version);
    StretchesJoin(h, l.version, l.available);
    StretchesJoin(h, l.available, l.source);
  }

  lemma PortugueseColumns(lower: char -> char, l: Layout, titled: bool, h: string)
    requires LowersPortuguese(lower) && Narrow(l, Portuguese(titled)) && HasSlices(l, Portuguese(titled), h)
    ensures ReadColumns(lower, h) == Shifted(l, ACCENTS, titled)
  {
    HeaderLettered(l, titled, h);
    PortugueseTitles(lower, l, titled, h);
    PortugueseShift(l, h);
    ColumnsAreShifted(lower, l, h, h);
  }

  lemma PortugueseLooksLikeHeader(lower: char -> char, l: Layout, titled: bool, h: string)
    requires LowersPortuguese(lower) && Narrow(l, Portuguese(titled)) && HasSlices(l, Portuguese(titled), h)
    ensures LooksLikeHeader(lower, h)
  {
    TitlesStand(l, titled, h);
    assert h[0..l.id] == h[..l.id];
    TitleAt(h, Pad("Nome", l.id), "Nome", 0);
    LoweredMatch(lower, h, "Nome", "nome", 0);
    LoweredMatch(lower, h, "Id", "id", l.id);
    LoweredMatch(lower, h, "Vers", "vers", l.version);
  }

  // ---------------------------------------------------------------- what the parser makes of the table

  /// A field, spaces and one more character, trimmed
  function WithNext(field: string, pad: string, c: char): string {
    if IsSpace(c) then field else if field == "" then [c] else field + pad + [c]
  }

  /// The first character of the last column
  function NextLetter(item: UpgradeItem): char {
    if item.available == "" then ' ' else item.available[0]
  }

  /// What the available column is read to hold of the source: its first two characters, or all of it
  function Spill(source: string, titled: bool): string {
    if titled && |source| > 2 then source[..2] else source
  }

  /// The first character of the available version is read as the end of the current one, and the first two
  /// of the source as the end of the available one.
  function Misread(l: Layout, item: UpgradeItem, titled: bool): UpgradeItem
    requires |item.current| <= l.available - l.version && |item.available| <= l.source - l.available
    requires l.available < l.source
  {
    item.(current := WithNext(item.current, Spaces(l.available - l.version - |item.current|), NextLetter(item)),
          available := Trim(Pad(item.available, l.source - l.available)[1..] + Spill(item.source, titled)),
          source := if titled then Trim(Drop(item.source, 2)) else "")
  }

  /// A trimmed field, spaces, and one more character
  lemma TrimWithNext(field: string, pad: string, c: char)
    requires Trimmed(field) && AllSpace(pad)
    ensures Trim(field + pad + [c]) == WithNext(field, pad, c)
  {
    if IsSpace(c) {
      assert field + pad + [c] == field + (pad + [c]);
      AllSpaceIff([c]);
      AllSpaceConcat(pad, [c]);
      TrimPadded(field, pad + [c]);
    } else if field == "" {
      assert "" + pad + [c] == pad + [c];
      SpacesBefore(pad, [c]);
    } else {
      TrimOfTrimmed(field + pad + [c]);
    }
  }

  lemma SpacesBefore(pad: string, s: string)
    requires AllSpace(pad) && Trimmed(s)
    ensures Trim(pad + s) == s
  {
    TrimBetween(pad, s, "");
    assert pad + s + "" == pad + s;
  }

  /// A cut that ends one rune behind a column
  lemma CutOneMore(row: string, from: nat, next: nat, c: char)
    requires from <= next < |row| && row[next] == c
    ensures SafeSubstring(row, from, next + 1) == row[from..next] + [c]
  {
    SubstringIs(row, from, next + 1);
  }

  lemma CurrentMisread(row: string, from: nat, next: nat, field: string, c: char)
    requires Stands(row, from, next, field) && next < |row| && row[next] == c
    ensures Cell(row, from, next + 1) == WithNext(field, Spaces(next - from - |field|), c)
  {
    CutOneMore(row, from, next, c);
    SpacesAreBlank(next - from - |field|);
    TrimWithNext(field, Spaces(next - from - |field|), c);
  }

  /// A cut that starts one rune into a column and ends in the text behind it
  lemma CutAcross(row: string, from: nat, next: nat, end: int)
    requires from < next <= |row| && end >= next
    ensures SafeSubstring(row, from + 1, end)
         == row[from..next][1..] + row[next..][..if end < |row| then end - next else |row| - next]
  {
    SubstringIs(row, from + 1, end);
  }

  lemma AvailableMisread(row: string, from: nat, next: nat, field: string, source: string, titled: bool, end: int)
    requires Stands(row, from, next, field) && row[next..] == source
    requires if titled then end == next + 2 else end >= |row|
    ensures Cell(row, from + 1, end) == Trim(Pad(field, next - from)[1..] + Spill(source, titled))
  {
    CutAcross(row, from, next, end);
    assert source[..if end < |row| then end - next else |row| - next] == Spill(source, titled);
  }

  lemma FirstOf(row: string, from: nat, next: nat, field: string)
    requires Stands(row, from, next, field)
    ensures row[from] == if field == "" then ' ' else field[0]
  {
    assert row[from..next][0] == Pad(field, next - from)[0];
  }

  lemma FrontRead(l: Layout, item: UpgradeItem, row: string)
    requires l.Valid() && Row(l, item, row)
    ensures Cell(row, 0, l.id) == item.name && Cell(row, l.id, l.version) == item.id
  {
    CellParses(row, 0, l.id, item.name);
    CellParses(row, l.id, l.version, item.id);
  }

  lemma PrintedFront(l: Layout, item: UpgradeItem, row: string)
    requires Fits(l, item) && row == PrintRow(l, item)
    ensures Cell(row, 0, l.id) == item.name && Cell(row, l.id, l.version) == item.id
  {
    PrintedStands(l, item);
    FrontRead(l, item, row);
  }

  lemma CurrentBefore(row: string, from: nat, next: nat, field: string, end: nat, behind: string)
    requires Stands(row, from, next, field) && Stands(row, next, end, behind)
    ensures Cell(row, from, next + 1)
         == WithNext(field, Spaces(next - from - |field|), if behind == "" then ' ' else behind[0])
  {
    FirstOf(row, next, end, behind);
    CurrentMisread(row, from, next, field, if behind == "" then ' ' else behind[0]);
  }

  lemma PrintedCurrent(l: Layout, item: UpgradeItem, titled: bool, row: string)
    requires Fits(l, item) && row == PrintRow(l, item)
    ensures Cell(row, l.version, l.available + 1) == Misread(l, item, titled).current
  {
    PrintedStands(l, item);
    CurrentBefore(row, l.version, l.available, item.current, l.source, item.available);
  }

  lemma BackStands(l: Layout, item: UpgradeItem, row: string)
    requires Fits(l, item) && row == PrintRow(l, item)
    ensures Stands(row, l.available, l.source, item.available) && row[l.source..] == item.source
  {
    PrintedStands(l, item);
  }

  lemma PrintedAvailableMisread(l: Layout, item: UpgradeItem, titled: bool, row: string)
    requires Fits(l, item) && row == PrintRow(l, item)
    ensures Cell(row, l.available + 1, AvailableEnd(l, ACCENTS, titled, row)) == Misread(l, item, titled).available
  {
    BackStands(l, item, row);
    var end := AvailableEnd(l, ACCENTS, titled, row);
    AvailableMisread(row, l.available, l.source, item.available, item.source, titled, end);
  }

  lemma PrintedSourceMisread(l: Layout, item: UpgradeItem, row: string)
    requires Fits(l, item) && row == PrintRow(l, item)
    ensures Cell(row, l.source + 2, RowEnd(row, l.source + 2)) == Trim(Drop(item.source, 2))
  {
    SourceStands(l, item, row);
    SourceRead(row, l.source, item.source, 2);
  }

  lemma RowMisread(l: Layout, item: UpgradeItem, titled: bool, row: string)
    requires Fits(l, item) && row == PrintRow(l, item)
    ensures ItemOf(Shifted(l, ACCENTS, titled), row) == Misread(l, item, titled)
  {
    ItemIsShifted(l, ACCENTS, titled, row);
    PrintedFront(l, item, row);
    PrintedCurrent(l, item, titled, row);
    PrintedAvailableMisread(l, item, titled, row);
    PrintedSourceMisread(l, item, row);
  }

  function Misreader(lower: char -> char, l: Layout, titled: bool): UpgradeItem -> seq<UpgradeItem> {
    (item: UpgradeItem) => if Fits(l, item) && Kept(lower, l, item) then [Misread(l, item, titled)] else []
  }

  lemma ReadersAgree(lower: char -> char, l: Layout, titled: bool, item: UpgradeItem)
    requires Fits(l, item)
    ensures CutKeeper(lower, l, Shifted(l, ACCENTS, titled))(item) == Misreader(lower, l, titled)(item)
  {
    RowMisread(l, item, titled, PrintRow(l, item));
  }

  lemma TableMisread(lower: char -> char, l: Layout, titled: bool, items: seq<UpgradeItem>)
    requires forall i | 0 <= i < |items| :: Fits(l, items[i])
    ensures ReadBack(lower, l, Shifted(l, ACCENTS, titled), items) == Collect(Misreader(lower, l, titled), items)
  {
    var f, g := CutKeeper(lower, l, Shifted(l, ACCENTS, titled)), Misreader(lower, l, titled);
    forall i | 0 <= i < |items| ensures f(items[i]) == g(items[i]) {
      ReadersAgree(lower, l, titled, items[i]);
    }
    CollectPointwise(f, items, g, items);
  }

  lemma PortugueseHeader(lower: char -> char, l: Layout, titled: bool, header: Printed)
    requires LowersPortuguese(lower) && Fits(l, Portuguese(titled)) && header.text == PrintRow(l, Portuguese(titled))
    ensures Shown(header) == header.text && LooksLikeHeader(lower, header.text)
    ensures TitlesOver(lower, l, header.text, header.text) && Titled(lower, header.text) == titled
    ensures ShiftOf(l, header.text) == ACCENTS
  {
    var h := header.text;
    RowSlices(l, Portuguese(titled));
    PortugueseLooksLikeHeader(lower, l, titled, h);
    PortugueseTitles(lower, l, titled, h);
    HeaderLettered(l, titled, h);
    PortugueseShift(l, h);
    NotBlank(h, l.version);
  }

  /// winget's table in Portuguese, with the source column or without it: for every layout, every list of
  /// rows and every noise around them, each kept row comes back misread.
  lemma PortugueseTable(
    lower: char -> char, l: Layout, titled: bool, items: seq<UpgradeItem>,
    noise: seq<Printed>, header: Printed, dashes: Printed, rows: seq<Printed>, rest: seq<Printed>)
    requires LowersPortuguese(lower) && Fits(l, Portuguese(titled)) && header.text == PrintRow(l, Portuguese(titled))
    requires AllWellPrinted(noise) && WellPrinted(header) && WellPrinted(dashes) && AllWellPrinted(rows)
    requires AllWellPrinted(rest)
    requires forall i | 0 <= i < |noise| :: !LooksLikeHeader(lower, Shown(noise[i]))
    requires CountChar(Shown(dashes), '-') > 10 && TableBody(lower, l, items, rows, rest)
    ensures UpgradesIn(lower, PrintDocument(noise + [header, dashes] + rows + rest))
         == Collect(Misreader(lower, l, titled), items)
  {
    PortugueseHeader(lower, l, titled, header);
    ColumnsAreShifted(lower, l, header.text, header.text);
    TableRead(lower, l, items, noise, header, dashes, rows, rest);
    TableMisread(lower, l, titled, items);
  }

  /// So the parser undoes the printer exactly when no kept row has an available version or a source.
  lemma PortugueseTableWholeIff(
    lower: char -> char, l: Layout, titled: bool, items: seq<UpgradeItem>,
    noise: seq<Printed>, header: Printed, dashes: Printed, rows: seq<Printed>, rest: seq<Printed>)
    requires LowersPortuguese(lower) && Fits(l, Portuguese(titled)) && header.text == PrintRow(l, Portuguese(titled))
    requires AllWellPrinted(noise) && WellPrinted(header) && WellPrinted(dashes) && AllWellPrinted(rows)
    requires AllWellPrinted(rest)
    requires forall i | 0 <= i < |noise| :: !LooksLikeHeader(lower, Shown(noise[i]))
    requires CountChar(Shown(dashes), '-') > 10 && TableBody(lower, l, items, rows, rest)
    ensures UpgradesIn(lower, PrintDocument(noise + [header, dashes] + rows + rest)) == KeptItems(lower, l, items)
       <==> forall i | 0 <= i < |items| && Kept(lower, l, items[i]) :: items[i].available == "" && items[i].source == ""
  {
    PortugueseHeader(lower, l, titled, header);
    TableWholeIff(lower, l, items, header.text, noise, header, dashes, rows, rest);
    BlankBehindAccents(l, header.text, titled, items);
  }

  lemma BlankBehindAccents(l: Layout, text: string, titled: bool, items: seq<UpgradeItem>)
    requires ShiftOf(l, text) == ACCENTS
    ensures forall i | 0 <= i < |items| ::
              BlankBehindLetters(l, text, titled, items[i]) <==> items[i].available == "" && items[i].source == ""
  {
  }

  // ---------------------------------------------------------------- a summary line in Portuguese

  /// "2 atualizacoes disponiveis.", with its accents, and the piece of it below the id column
  const PIECE := "aliza\U{E7}\U{F5}e"
  const ATUALIZACOES := "2 atu" + (PIECE + "s dispon\U{ED}veis.")

  /// A table of one row, and a line below it that mentions updates and reaches into the id column
  predicate OneRowBelow(
    lower: char -> char, l: Layout, titled: bool, item: UpgradeItem,
    header: Printed, dashes: Printed, row: Printed, summary: Printed)
  {
    && Fits(l, item) && Kept(lower, l, item)
    && Fits(l, Portuguese(titled)) && header.text == PrintRow(l, Portuguese(titled)) && WellPrinted(header)
    && WellPrinted(dashes) && CountChar(Shown(dashes), '-') > 10
    && WellPrinted(row) && row.before == [] && row.text == PrintRow(l, item)
    && WellPrinted(summary) && Mentions(lower, Shown(summary)) && Cell(Shown(summary), l.id, l.version) != ""
  }

  lemma PortugueseUpgrades(
    lower: char -> char, l: Layout, titled: bool, item: UpgradeItem,
    header: Printed, dashes: Printed, row: Printed, summary: Printed,
    items: seq<UpgradeItem>, noise: seq<Printed>, rows: seq<Printed>, rest: seq<Printed>)
    requires LowersPortuguese(lower) && OneRowBelow(lower, l, titled, item, header, dashes, row, summary)
    requires items == [item] && noise == [] && rows == [row] && rest == [summary]
    ensures UpgradesIn(lower, PrintDocument(noise + [header, dashes] + rows + rest)) == [Misread(l, item, titled)]
  {
    OneRowPrinted(header, dashes, row, summary, rows, rest);
    PortugueseTable(lower, l, titled, items, noise, header, dashes, rows, rest);
    CollectOne(Misreader(lower, l, titled), item);
  }

  lemma PortugueseIsHeaded(
    lower: char -> char, l: Layout, titled: bool, noise: seq<Printed>, header: Printed, dashes: Printed)
    requires LowersPortuguese(lower) && Fits(l, Portuguese(titled)) && header.text == PrintRow(l, Portuguese(titled))
    requires WellPrinted(header) && WellPrinted(dashes) && CountChar(Shown(dashes), '-') > 10 && noise == []
    ensures Headed(lower, noise, header, dashes) && ReadsIds(l, ReadColumns(lower, Shown(header)))
  {
    PortugueseHeader(lower, l, titled, header);
    ColumnsAreShifted(lower, l, header.text, header.text);
  }

  lemma PortugueseInstalled(
    lower: char -> char, l: Layout, titled: bool, item: UpgradeItem,
    header: Printed, dashes: Printed, row: Printed, summary: Printed,
    items: seq<UpgradeItem>, noise: seq<Printed>, rows: seq<Printed>, rest: seq<Printed>)
    requires LowersPortuguese(lower) && OneRowBelow(lower, l, titled, item, header, dashes, row, summary)
    requires items == [item] && noise == [] && rows == [row] && rest == [summary]
    ensures InstalledIn(lower, PrintDocument(noise + [header, dashes] + rows + rest))
         == [item.id] + [Cell(Shown(summary), l.id, l.version)]
  {
    PortugueseIsHeaded(lower, l, titled, noise, header, dashes);
    OneRowPrinted(header, dashes, row, summary, rows, rest);
    InstalledRoundTrip(lower, l, items, noise, header, dashes, rows, rest);
    OneRowIds(l, item, summary);
  }

  function TitlesInPortuguese(): string {
    PrintRow(NARROW, Portuguese(true))
  }

  function SmallTableInPortuguese(dashes: Printed): string {
    PrintDocument([] + [Line(TitlesInPortuguese()), dashes] + [Line(GitRow())] + [Line(ATUALIZACOES)])
  }

  lemma PortugueseFits()
    ensures Fits(NARROW, Portuguese(true))
  {
  }

  lemma GitIsKept(lower: char -> char)
    requires LowersAscii(lower) && Gapped(NARROW, GIT)
    ensures Kept(lower, NARROW, GIT)
  {
    RowMentionsIffFieldDoes(lower, NARROW, GIT);
    GitMentionsNothing(lower);
  }

  lemma AtualizacoesIsOneLine()
    ensures OneSegment(ATUALIZACOES)
  {
  }

  lemma AtualizacoesMentions(lower: char -> char)
    requires LowersAscii(lower)
    ensures Mentions(lower, ATUALIZACOES)
  {
    assert SpellsAt(lower, ATUALIZACOES, "atualiza", 2);
    MentionsIff(lower, ATUALIZACOES);
  }

  lemma MiddlePiece(a: string, b: string, c: string)
    ensures (a + (b + c))[|a|..|a| + |b|] == b
  {
  }

  lemma AtualizacoesCell()
    ensures Cell(ATUALIZACOES, NARROW.id, NARROW.version) == PIECE
  {
    SubstringIs(ATUALIZACOES, 5, 13);
    MiddlePiece("2 atu", PIECE, "s dispon\U{ED}veis.");
    TrimOfTrimmed(PIECE);
  }

  lemma PortugueseIsPrinted(lower: char -> char, dashes: Printed, l: Layout, item: UpgradeItem, summary: string)
    requires WellPrinted(dashes) && CountChar(Shown(dashes), '-') > 10
    requires Fits(l, item) && Kept(lower, l, item) && Fits(l, Portuguese(true))
    requires OneSegment(summary) && !Blank(summary) && Mentions(lower, summary) && Cell(summary, l.id, l.version) != ""
    ensures OneRowBelow(
              lower, l, true, item, Line(PrintRow(l, Portuguese(true))), dashes, Line(PrintRow(l, item)), Line(summary))
    ensures Shown(Line(summary)) == summary
  {
    LinePrinted(summary);
    LinePrinted(PrintRow(l, item));
    LinePrinted(PrintRow(l, Portuguese(true)));
  }

  lemma PortugueseRead(
    lower: char -> char, dashes: Printed, l: Layout, item: UpgradeItem, header: Printed, row: Printed, summary: Printed)
    requires LowersPortuguese(lower) && OneRowBelow(lower, l, true, item, header, dashes, row, summary)
    ensures UpgradesIn(lower, PrintDocument([] + [header, dashes] + [row] + [summary])) == [Misread(l, item, true)]
    ensures InstalledIn(lower, PrintDocument([] + [header, dashes] + [row] + [summary]))
         == [item.id] + [Cell(Shown(summary), l.id, l.version)]
  {
    PortugueseUpgrades(lower, l, true, item, header, dashes, row, summary, [item], [], [row], [summary]);
    PortugueseInstalled(lower, l, true, item, header, dashes, row, summary, [item], [], [row], [summary]);
  }

  /// One row and a summary line in Portuguese: the upgrade parser drops the summary, and the installed parser
  /// lists a piece of it as another package.
  lemma AtualizacoesLineIsListed(lower: char -> char, dashes: Printed)
    requires LowersPortuguese(lower) && WellPrinted(dashes) && CountChar(Shown(dashes), '-') > 10
    ensures Narrow(NARROW, GIT) && UpgradesIn(lower, SmallTableInPortuguese(dashes)) == [Misread(NARROW, GIT, true)]
    ensures InstalledIn(lower, SmallTableInPortuguese(dashes)) == [GIT.id] + [PIECE]
  {
    GitFits();
    PortugueseFits();
    GitIsKept(lower);
    AtualizacoesIsOneLine();
    AtualizacoesMentions(lower);
    AtualizacoesCell();
    NotBlank(ATUALIZACOES, 0);
    PortugueseIsPrinted(lower, dashes, NARROW, GIT, ATUALIZACOES);
    PortugueseRead(lower, dashes, NARROW, GIT, Line(TitlesInPortuguese()), Line(GitRow()), Line(ATUALIZACOES));
  }
}
