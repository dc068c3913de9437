/// The two parsers of winget's column-aligned tables (src/app/updates/service.go).
///
/// `UpgradesIn` and `InstalledIn` say what the parsers return; the methods are the parsers' loops,
/// proved against them.
module Winget {
  import opened Text
  import opened Sequences

  datatype UpgradeItem = UpgradeItem(name: string, id: string, current: string, available: string, source: string)

  /// A line of `winget list` that yields an id.
  datatype InstalledRow = InstalledRow(line: string, id: string)

  /// Column starts taken from the header; -1 when the column is missing.
  datatype Starts = Starts(id: int, version: int, available: int, source: int)

  type Columns = c: Starts | c.id >= -1 && c.version >= -1 && c.available >= -1 && c.source >= -1
    witness Starts(-1, -1, -1, -1)

  // ---------------------------------------------------------------- bytes and runes

  function Utf8Width(c: char): (w: nat)
    ensures 1 <= w <= 4
    ensures w == 1 <==> c < '\U{80}'
  {
    if c < '\U{80}' then 1 else if c < '\U{800}' then 2 else if c < '\U{10000}' then 3 else 4
  }

  /// len(s) of a Go string
  function Utf8Len(s: string): (n: nat)
    ensures n >= |s|
    decreases |s|, 1
  {
    if s == [] then 0 else FirstAndRest(s)
  }

  function FirstAndRest(s: string): (n: nat)
    requires s != []
    ensures n >= |s|
    decreases |s|, 0
  {
    Utf8Width(s[0]) + Utf8Len(s[1..])
  }

  lemma {:induction false} Utf8LenIsRuneCountIffAscii(s: string)
    ensures Utf8Len(s) == |s| <==> forall i | 0 <= i < |s| :: s[i] < '\U{80}'
  {
    if s != [] {
      Utf8LenIsRuneCountIffAscii(s[1..]);
      assert s == [s[0]] + s[1..];
    }
  }

  /// findColumnStart: a byte offset, looked up again without case when the keyword is not found
  function ColumnStart(lower: char -> char, header: string, keyword: string): (col: int)
    ensures col >= -1
  {
    var i := Index(header, keyword);
    if i >= 0 then Utf8Len(header[..i])
    else
      var lowered := ToLower(lower, header);
      var j := Index(lowered, ToLower(lower, keyword));
      if j >= 0 then Utf8Len(lowered[..j]) else -1
  }

  function EitherColumn(lower: char -> char, header: string, first: string, second: string): (col: int)
    ensures col >= -1
  {
    var c := ColumnStart(lower, header, first);
    if c < 0 then ColumnStart(lower, header, second) else c
  }

  function ReadColumns(lower: char -> char, header: string): Columns {
    Starts(EitherColumn(lower, header, "Id", "ID"),
           EitherColumn(lower, header, "Version", "Vers"),
           EitherColumn(lower, header, "Available", "Dispon"),
           EitherColumn(lower, header, "Source", "Fonte"))
  }

  /// safeSubstring counts runes. The precondition is what keeps Go's slice expression from panicking.
  function SafeSubstring(s: string, start: int, end: int): string
    requires start < |s| ==> 0 <= end && start <= end
    decreases (if end > |s| then 1 else 0) + (if start < 0 then 1 else 0), 1
  {
    if start >= |s| then "" else ClampAndCut(s, start, end)
  }

  /// Its two clamps and the cut
  function ClampAndCut(s: string, start: int, end: int): string
    requires start < |s| && 0 <= end && start <= end
    decreases (if end > |s| then 1 else 0) + (if start < 0 then 1 else 0), 0
  {
    if end > |s| then SafeSubstring(s, start, |s|)
    else if start < 0 then SafeSubstring(s, 0, end)
    else s[start..end]
  }

  lemma SubstringIs(s: string, start: int, end: int)
    requires 0 <= start <= end
    ensures SafeSubstring(s, start, end) == if start >= |s| then "" else s[start..if end > |s| then |s| else end]
  {
    if start < |s| && end > |s| {
      assert ClampAndCut(s, start, end) == SafeSubstring(s, start, |s|) == ClampAndCut(s, start, |s|);
    }
  }

  function Cell(s: string, start: int, end: int): string
    requires start < |s| ==> 0 <= end && start <= end
  {
    Trim(SafeSubstring(s, start, end))
  }

  // ---------------------------------------------------------------- lines

  /// What a terminal shows of a line overwritten by bare carriage returns: its last non-blank segment.
  function LastShown(segments: seq<string>): (s: string)
    ensures s == "" || (s in segments && !Blank(s))
  {
    if segments == [] then ""
    else if !Blank(segments[|segments| - 1]) then segments[|segments| - 1]
    else LastShown(segments[..|segments| - 1])
  }

  function ShownLine(line: string): string {
    LastShown(Split(line, '\r'))
  }

  function Shower(): string -> string {
    (line: string) => ShownLine(line)
  }

  function ShownLines(raw: string): seq<string> {
    Map(Shower(), Split(raw, '\n'))
  }

  predicate LooksLikeHeader(lower: char -> char, line: string) {
    var l := ToLower(lower, line);
    && (HasSub(l, "name") || HasSub(l, "nome"))
    && HasSub(l, "id")
    && (HasSub(l, "version") || HasSub(l, "vers"))
  }

  /// The first header-like line at or after `from`, or -1
  function HeaderIndex(lower: char -> char, lines: seq<string>, from: nat): (h: int)
    requires from <= |lines|
    ensures h == -1 || (from <= h < |lines| && LooksLikeHeader(lower, lines[h]))
    ensures forall i | from <= i < (if h == -1 then |lines| else h) :: !LooksLikeHeader(lower, lines[i])
    decreases |lines| - from
  {
    if from == |lines| then -1
    else if LooksLikeHeader(lower, lines[from]) then from
    else HeaderIndex(lower, lines, from + 1)
  }

  /// The line after the header is skipped when it is a rule of dashes.
  function DataStart(lines: seq<string>, header: nat): (d: nat)
    requires header + 1 < |lines|
    ensures header < d <= |lines|
  {
    if CountChar(lines[header + 1], '-') > 10 then header + 2 else header + 1
  }

  /// strings.TrimRight(line, "\r")
  function TrimCr(s: string): string {
    if s != [] && s[|s| - 1] == '\r' then TrimCr(s[..|s| - 1]) else s
  }

  /// Summary lines such as "3 upgrades available."
  predicate Mentions(lower: char -> char, line: string) {
    HasSub(ToLower(lower, line), "upgrade") || HasSub(ToLower(lower, line), "atualiza")
  }

  // ---------------------------------------------------------------- rows

  function ItemOf(cols: Columns, line: string): UpgradeItem {
    UpgradeItem(
      if cols.id > 0 then Cell(line, 0, cols.id) else "",
      if cols.id >= 0 && cols.version > cols.id then Cell(line, cols.id, cols.version) else "",
      if cols.version >= 0 && cols.available > cols.version then Cell(line, cols.version, cols.available) else "",
      if cols.available < 0 then ""
      else if cols.source > cols.available then Cell(line, cols.available, cols.source)
      else Cell(line, cols.available, if Utf8Len(line) < cols.available then cols.available else Utf8Len(line)),
      if cols.source < 0 then ""
      else Cell(line, cols.source, if Utf8Len(line) < cols.source then cols.source else Utf8Len(line)))
  }

  /// What the upgrade parser reads from a line: nothing or an item
  function UpgradeRow(lower: char -> char, cols: Columns, line: string): seq<UpgradeItem> {
    var l := TrimCr(line);
    if Blank(l) || Mentions(lower, l) || ItemOf(cols, l).id == "" then [] else [ItemOf(cols, l)]
  }

  function UpgradeReader(lower: char -> char, cols: Columns): string -> seq<UpgradeItem> {
    (line: string) => UpgradeRow(lower, cols, line)
  }

  function UpgradeRows(lower: char -> char, cols: Columns, lines: seq<string>): seq<UpgradeItem> {
    Collect(UpgradeReader(lower, cols), lines)
  }

  predicate HasIdColumn(cols: Columns) {
    0 <= cols.id < cols.version
  }

  /// What the installed parser reads from a line
  function InstalledRowOf(cols: Columns, line: string): seq<InstalledRow> {
    var l := TrimCr(line);
    if !HasIdColumn(cols) || Blank(l) || Cell(l, cols.id, cols.version) == "" then []
    else [InstalledRow(l, Cell(l, cols.id, cols.version))]
  }

  function InstalledReader(cols: Columns): string -> seq<InstalledRow> {
    (line: string) => InstalledRowOf(cols, line)
  }

  function InstalledRows(cols: Columns, lines: seq<string>): seq<InstalledRow> {
    Collect(InstalledReader(cols), lines)
  }

  lemma NoIdColumnNoRows(cols: Columns, lines: seq<string>)
    requires !HasIdColumn(cols)
    ensures InstalledRows(cols, lines) == []
  {
    CollectNoneIff(InstalledReader(cols), lines);
  }

  // ---------------------------------------------------------------- what the parsers return

  function UpgradesFrom(lower: char -> char, lines: seq<string>): seq<UpgradeItem> {
    var h := HeaderIndex(lower, lines, 0);
    if h < 0 || h + 1 >= |lines| then []
    else UpgradeRows(lower, ReadColumns(lower, lines[h]), lines[DataStart(lines, h)..])
  }

  function UpgradesIn(lower: char -> char, raw: string): seq<UpgradeItem> {
    UpgradesFrom(lower, ShownLines(raw))
  }

  function InstalledRowsIn(lower: char -> char, raw: string): seq<InstalledRow> {
    InstalledRowsFrom(lower, ShownLines(raw))
  }

  function InstalledRowsFrom(lower: char -> char, lines: seq<string>): seq<InstalledRow> {
    var h := HeaderIndex(lower, lines, 0);
    if h < 0 || h + 1 >= |lines| then []
    else InstalledRows(ReadColumns(lower, lines[h]), lines[DataStart(lines, h)..])
  }

  function RowIds(rows: seq<InstalledRow>): (ids: seq<string>)
    ensures |ids| == |rows|
    ensures forall i | 0 <= i < |rows| :: ids[i] == rows[i].id
  {
    seq(|rows|, i requires 0 <= i < |rows| => rows[i].id)
  }

  function ItemIds(items: seq<UpgradeItem>): (ids: seq<string>)
    ensures |ids| == |items|
    ensures forall i | 0 <= i < |items| :: ids[i] == items[i].id
  {
    seq(|items|, i requires 0 <= i < |items| => items[i].id)
  }

  function InstalledIn(lower: char -> char, raw: string): seq<string> {
    RowIds(InstalledRowsIn(lower, raw))
  }

  // ---------------------------------------------------------------- the loops

  /// The backward scan over the segments of one line
  method LastSegment(line: string) returns (last: string)
    ensures last == ShownLine(line)
  {
    var parts := Split(line, '\r');
    var j := |parts| - 1;
    assert parts[..j + 1] == parts;
    while j >= 0
      invariant -1 <= j < |parts|
      invariant LastShown(parts) == LastShown(parts[..j + 1])
    {
      assert parts[..j + 1][..j] == parts[..j];
      if !Blank(parts[j]) {
        return parts[j];
      }
      j := j - 1;
    }
    return "";
  }

  /// The segment loop that both parsers open with
  method CollapseCarriageReturns(raw: string) returns (lines: seq<string>)
    ensures lines == ShownLines(raw)
  {
    var rawLines := Split(raw, '\n');
    ghost var f := Shower();
    lines := [];
    for i := 0 to |rawLines|
      invariant lines == Map(f, rawLines[..i])
    {
      var last := LastSegment(rawLines[i]);
      assert last == f(rawLines[i]);
      MapLast(f, rawLines, i);
      lines := lines + [last];
    }
    assert rawLines[..|rawLines|] == rawLines;
  }

  /// The header search that both parsers share
  method FindHeader(lower: char -> char, lines: seq<string>) returns (headerIdx: int)
    ensures headerIdx == HeaderIndex(lower, lines, 0)
  {
    headerIdx := -1;
    for i := 0 to |lines|
      invariant HeaderIndex(lower, lines, 0) == HeaderIndex(lower, lines, i)
    {
      var l := ToLower(lower, lines[i]);
      if (HasSub(l, "name") || HasSub(l, "nome")) && HasSub(l, "id") && (HasSub(l, "version") || HasSub(l, "vers")) {
        headerIdx := i;
        break;
      }
    }
  }

  /// The field assignments of one table row
  method BuildItem(cols: Columns, line: string) returns (item: UpgradeItem)
    ensures item == ItemOf(cols, line)
  {
    item := UpgradeItem("", "", "", "", "");
    if cols.id > 0 {
      item := item.(name := Cell(line, 0, cols.id));
    }
    if cols.id >= 0 && cols.version > cols.id {
      item := item.(id := Cell(line, cols.id, cols.version));
    }
    if cols.version >= 0 && cols.available > cols.version {
      item := item.(current := Cell(line, cols.version, cols.available));
    }
    if cols.available >= 0 {
      if cols.source > cols.available {
        item := item.(available := Cell(line, cols.available, cols.source));
      } else {
        item := item.(available := Cell(line, cols.available, Utf8Len(line)));
      }
    }
    if cols.source >= 0 {
      item := item.(source := Cell(line, cols.source, Utf8Len(line)));
    }
  }

  /// The row loop of parseUpgradeOutput
  method ScanUpgradeRows(lower: char -> char, cols: Columns, lines: seq<string>) returns (items: seq<UpgradeItem>)
    ensures items == UpgradeRows(lower, cols, lines)
  {
    items := [];
    for k := 0 to |lines|
      invariant items == UpgradeRows(lower, cols, lines[..k])
    {
      CollectStep(UpgradeReader(lower, cols), lines, k);
      var line := TrimCr(lines[k]);
      if Blank(line) {
        continue;
      }
      var lineLower := ToLower(lower, line);
      if HasSub(lineLower, "upgrade") || HasSub(lineLower, "atualiza") {
        continue;
      }
      var item := BuildItem(cols, line);
      if item.id != "" {
        items := items + [item];
      }
    }
    assert lines[..|lines|] == lines;
  }

  method ParseUpgradeOutput(lower: char -> char, raw: string) returns (items: seq<UpgradeItem>)
    ensures items == UpgradesIn(lower, raw)
  {
    var lines := CollapseCarriageReturns(raw);
    var headerIdx := FindHeader(lower, lines);
    if headerIdx < 0 || headerIdx + 1 >= |lines| {
      return [];
    }
    var dataStart := headerIdx + 1;
    if CountChar(lines[dataStart], '-') > 10 {
      dataStart := dataStart + 1;
    }
    items := ScanUpgradeRows(lower, ReadColumns(lower, lines[headerIdx]), lines[dataStart..]);
  }

  /// The id on a line, or nothing
  method ReadId(cols: Columns, line: string) returns (id: string)
    requires HasIdColumn(cols)
    ensures InstalledRowOf(cols, line) == if id == "" then [] else [InstalledRow(TrimCr(line), id)]
  {
    var row := TrimCr(line);
    if Blank(row) {
      return "";
    }
    id := Cell(row, cols.id, cols.version);
  }

  /// The row loop of parseInstalledOutput
  method ScanInstalledRows(cols: Columns, lines: seq<string>) returns (ids: seq<string>)
    requires HasIdColumn(cols)
    ensures ids == RowIds(InstalledRows(cols, lines))
  {
    ids := [];
    for k := 0 to |lines|
      invariant ids == RowIds(InstalledRows(cols, lines[..k]))
    {
      CollectStep(InstalledReader(cols), lines, k);
      IdsOfConcat([], [], InstalledRows(cols, lines[..k]), InstalledRowOf(cols, lines[k]));
      var id := ReadId(cols, lines[k]);
      if id == "" {
        continue;
      }
      ids := ids + [id];
    }
    assert lines[..|lines|] == lines;
  }

  method ParseInstalledOutput(lower: char -> char, raw: string) returns (ids: seq<string>)
    ensures ids == InstalledIn(lower, raw)
  {
    var lines := CollapseCarriageReturns(raw);
    var headerIdx := FindHeader(lower, lines);
    if headerIdx < 0 || headerIdx + 1 >= |lines| {
      return [];
    }
    var dataStart := headerIdx + 1;
    if CountChar(lines[dataStart], '-') > 10 {
      dataStart := dataStart + 1;
    }
    var cols := ReadColumns(lower, lines[headerIdx]);
    if cols.id < 0 || cols.version <= cols.id {
      NoIdColumnNoRows(cols, lines[dataStart..]);
      return [];
    }
    ids := ScanInstalledRows(cols, lines[dataStart..]);
  }

  // ---------------------------------------------------------------- summary lines, spelled out

  lemma MentionsIff(lower: char -> char, line: string)
    ensures Mentions(lower, line) <==> Spells(lower, line, "upgrade") || Spells(lower, line, "atualiza")
  {
    SpellsIff(lower, line, "upgrade");
    SpellsIff(lower, line, "atualiza");
  }

  lemma {:induction false} TrimCrIs(s: string)
    ensures TrimCr(s) <= s && (TrimCr(s) != [] ==> TrimCr(s)[|TrimCr(s)| - 1] != '\r')
    ensures forall i | |TrimCr(s)| <= i < |s| :: s[i] == '\r'
  {
    if s != [] && s[|s| - 1] == '\r' {
      TrimCrIs(s[..|s| - 1]);
    }
  }

  /// A word without carriage returns is spelled in a line exactly when it is in front of those at its end.
  lemma SpelledInFront(lower: char -> char, line: string, word: string)
    requires lower('\r') == '\r' && word != [] && '\r' !in word
    ensures Spells(lower, TrimCr(line), word) <==> Spells(lower, line, word)
  {
    var l := TrimCr(line);
    TrimCrIs(line);
    if i :| 0 <= i <= |line| && SpellsAt(lower, line, word, i) {
      assert lower(line[i + |word| - 1]) == word[|word| - 1];
      assert word[|word| - 1] in word;
      assert i + |word| - 1 < |l|;
      assert SpellsAt(lower, l, word, i);
    }
    if i :| 0 <= i <= |l| && SpellsAt(lower, l, word, i) {
      assert SpellsAt(lower, line, word, i);
    }
  }

  lemma BlankInFront(line: string)
    ensures Blank(TrimCr(line)) <==> Blank(line)
  {
    var l := TrimCr(line);
    TrimCrIs(line);
    AllSpaceIff(line[|l|..]);
    TrimPad(l, line[|l|..]);
    assert line == l + line[|l|..];
  }

  /// What the upgrade parser reads from a line: nothing from one that is blank, that spells "upgrade" or
  /// "atualiza" in any letter case, or whose id cell is blank; exactly one item from every other.
  lemma UpgradeRowIff(lower: char -> char, cols: Columns, line: string)
    requires LowersAscii(lower)
    ensures UpgradeRow(lower, cols, line)
         == if Trim(line) == "" || Spells(lower, line, "upgrade") || Spells(lower, line, "atualiza")
               || ItemOf(cols, TrimCr(line)).id == ""
            then [] else [ItemOf(cols, TrimCr(line))]
  {
    MentionsIff(lower, TrimCr(line));
    SpelledInFront(lower, line, "upgrade");
    SpelledInFront(lower, line, "atualiza");
    BlankInFront(line);
  }

  /// Which lines are taken for the header: those that spell "name" or "nome", "id" and "vers"
  lemma HeaderIff(lower: char -> char, line: string)
    ensures LooksLikeHeader(lower, line)
       <==> && (Spells(lower, line, "name") || Spells(lower, line, "nome"))
            && Spells(lower, line, "id") && Spells(lower, line, "vers")
  {
    SpellsIff(lower, line, "name");
    SpellsIff(lower, line, "nome");
    SpellsIff(lower, line, "id");
    SpellsIff(lower, line, "vers");
    SpellsIff(lower, line, "version");
    if i :| 0 <= i <= |line| && SpellsAt(lower, line, "version", i) {
      assert "version"[..4] == "vers";
      assert SpellsAt(lower, line, "vers", i);
    }
  }

  // ---------------------------------------------------------------- the two parsers agree

  function Unmentioned(lower: char -> char): InstalledRow -> seq<InstalledRow> {
    (row: InstalledRow) =>
      if Spells(lower, row.line, "upgrade") || Spells(lower, row.line, "atualiza") then [] else [row]
  }

  /// The rows that do not read like a summary line, in order
  function WithoutMentions(lower: char -> char, rows: seq<InstalledRow>): seq<InstalledRow> {
    Collect(Unmentioned(lower), rows)
  }

  /// One line: the upgrade parser keeps what the installed parser keeps unless it mentions a summary.
  lemma RowAgrees(lower: char -> char, cols: Columns, line: string)
    ensures ItemIds(UpgradeRow(lower, cols, line)) == RowIds(WithoutMentions(lower, InstalledRowOf(cols, line)))
  {
    var l := TrimCr(line);
    var id := ItemOf(cols, l).id;
    MentionsIff(lower, l);
    if HasIdColumn(cols) && !Blank(l) && id != "" {
      CollectOne(Unmentioned(lower), InstalledRow(l, id));
      assert InstalledRowOf(cols, line) == [InstalledRow(l, id)];
    } else {
      assert InstalledRowOf(cols, line) == [] && UpgradeRow(lower, cols, line) == [];
    }
  }

  lemma IdsOfConcat(a: seq<UpgradeItem>, b: seq<UpgradeItem>, r: seq<InstalledRow>, q: seq<InstalledRow>)
    ensures ItemIds(a + b) == ItemIds(a) + ItemIds(b)
    ensures RowIds(r + q) == RowIds(r) + RowIds(q)
  {
  }

  lemma {:induction false} IdsAgree(
    f: string -> seq<UpgradeItem>, g: string -> seq<InstalledRow>, m: InstalledRow -> seq<InstalledRow>,
    lines: seq<string>)
    requires forall i | 0 <= i < |lines| :: ItemIds(f(lines[i])) == RowIds(Collect(m, g(lines[i])))
    ensures ItemIds(Collect(f, lines)) == RowIds(Collect(m, Collect(g, lines)))
  {
    if lines != [] {
      var front, line := lines[..|lines| - 1], lines[|lines| - 1];
      IdsAgree(f, g, m, front);
      CollectConcat(m, Collect(g, front), g(line));
      IdsOfConcat(Collect(f, front), f(line), Collect(m, Collect(g, front)), Collect(m, g(line)));
    }
  }

  lemma RowsAgree(lower: char -> char, cols: Columns, lines: seq<string>)
    ensures ItemIds(UpgradeRows(lower, cols, lines)) == RowIds(WithoutMentions(lower, InstalledRows(cols, lines)))
  {
    var f, g, m := UpgradeReader(lower, cols), InstalledReader(cols), Unmentioned(lower);
    forall i | 0 <= i < |lines| ensures ItemIds(f(lines[i])) == RowIds(Collect(m, g(lines[i]))) {
      RowAgrees(lower, cols, lines[i]);
    }
    IdsAgree(f, g, m, lines);
  }

  /// For every text, the upgrade parser lists the installed parser's ids, in order, less the rows
  /// that spell "upgrade" or "atualiza" in any letter case.
  lemma ParsersAgree(lower: char -> char, raw: string)
    ensures InstalledIn(lower, raw) == RowIds(InstalledRowsIn(lower, raw))
    ensures ItemIds(UpgradesIn(lower, raw)) == RowIds(WithoutMentions(lower, InstalledRowsIn(lower, raw)))
  {
    var lines := ShownLines(raw);
    var h := HeaderIndex(lower, lines, 0);
    if h >= 0 && h + 1 < |lines| {
      RowsAgree(lower, ReadColumns(lower, lines[h]), lines[DataStart(lines, h)..]);
    }
  }
}
