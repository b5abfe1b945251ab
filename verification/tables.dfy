/** Reading player records out of the HTML tables of the statistics section.  The document is
    given as its tables, each with the cell texts of its first row and all of its rows, and as all
    the rows of the document in order; a row is the text of each of its `td` cells and its whole
    text. */
module TableParser {
  import opened GoStrings
  import opened Models
  import opened LineParser

  datatype Row = Row(cells: seq<string>, text: string)

  datatype Table = Table(headers: seq<string>, rows: seq<Row>)

  datatype Document = Document(tables: seq<Table>, rows: seq<Row>)

  /** The texts of the cells, trimmed. */
  function Trimmed(cells: seq<string>): (r: seq<string>)
    ensures |r| == |cells| && forall i :: 0 <= i < |cells| ==> r[i] == TrimSpace(cells[i])
  {
    seq(|cells|, i requires 0 <= i < |cells| => TrimSpace(cells[i]))
  }

  // ---------------------------------------------------------------- records from cells

  /** The record of a row of at least seven cells: name and rating as they stand, the other
      columns cleaned to digits and dots before they are read. */
  function CellsRecord(ct: seq<string>, team: string): (p: PlayerStat)
    requires |ct| >= 7
    ensures NonNegativeCounts(p)
    ensures p.playerName == ct[0] && p.team == team && p.opponent == "" && p.sancPd == ct[1]
    ensures (forall c :: c in p.ppd ==> IsNumberChar(c)) && (forall c :: c in p.mpr ==> IsNumberChar(c))
  {
    PlayerStat(ct[0], team, "", ct[1], CountCell(ct[2]), CountCell(ct[3]), Sanitized(ct[4]),
      Sanitized(ct[5]), CountCell(ct[6]), CountCell(FieldOr(ct, 7)), CountCell(FieldOr(ct, 8)))
  }

  /** A count column: the cell cleaned to digits and dots, then read as an integer. */
  function CountCell(cell: string): (n: int)
    ensures n >= 0
  {
    SanitizedCountNonNegative(cell);
    AtoiOrZero(Sanitized(cell))
  }

  /** The record of a row, column by column, as both table readers build it. */
  method RecordFromCells(ct: seq<string>, team: string) returns (p: PlayerStat)
    requires |ct| >= 7
    ensures p == CellsRecord(ct, team)
  {
    var gamesPlayed := SanitizeNumberString(ct[2]);
    var gamesWon := SanitizeNumberString(ct[3]);
    var ppd := SanitizeNumberString(ct[4]);
    var mpr := SanitizeNumberString(ct[5]);
    var hatTricks := SanitizeNumberString(ct[6]);
    var highScore, highCheckout := "", "";
    if |ct| > 7 {
      highScore := SanitizeNumberString(ct[7]);
    }
    if |ct| > 8 {
      highCheckout := SanitizeNumberString(ct[8]);
    }
    SanitizedEmpty();
    p := PlayerStat(ct[0], team, "", ct[1], AtoiOrZero(gamesPlayed), AtoiOrZero(gamesWon), ppd, mpr,
      AtoiOrZero(hatTricks), AtoiOrZero(highScore), AtoiOrZero(highCheckout));
  }

  lemma SanitizedEmpty()
    ensures Sanitized("") == ""
  {
  }

  /** Text made only of digits and dots. */
  predicate NumberText(s: string) { forall c :: c in s ==> IsNumberChar(c) }

  /** Text made only of digits and dots is left as it is. */
  lemma {:induction false} SanitizedKeepsNumber(s: string)
    requires NumberText(s)
    ensures Sanitized(s) == s
  {
    NumberTextTrimmed(s);
    NumberTextFiltered(s);
  }

  lemma NumberTextTrimmed(s: string)
    requires NumberText(s)
    ensures TrimSpace(s) == s
  {
    if s != [] {
      assert s[0] in s && s[|s| - 1] in s;
    }
    TrimSpaceKeepsTrimmed(s);
  }

  lemma NumberTextFiltered(s: string)
    requires NumberText(s)
    ensures Filter(s, IsNumberChar) == s
  {
    FilterKeepsAll(s, IsNumberChar);
  }

  /** A count column spelled in decimal is read back as the count. */
  lemma SanitizedDecimal(n: nat)
    ensures Sanitized(DecimalString(n)) == DecimalString(n)
    ensures AtoiOrZero(Sanitized(DecimalString(n))) == n
  {
    var d := DecimalString(n);
    assert NumberText(d) by {
      forall c | c in d ensures IsNumberChar(c) {
        var i :| 0 <= i < |d| && d[i] == c;
      }
    }
    SanitizedKeepsNumber(d);
    AtoiDecimalString(n);
  }

  /** A record laid out as the cells of a table row is read back, for the row's team. */
  lemma CellsOfColumns(p: PlayerStat, team: string)
    requires NonNegativeCounts(p) && p.opponent == "" && NumberText(p.ppd) && NumberText(p.mpr)
    ensures CellsRecord(PlayerColumns(p), team) == p.(team := team)
  {
    SanitizedKeepsNumber(p.ppd);
    SanitizedKeepsNumber(p.mpr);
    SanitizedDecimal(p.gamesPlayed);
    SanitizedDecimal(p.gamesWon);
    SanitizedDecimal(p.hatTricks);
    SanitizedDecimal(p.highScore);
    SanitizedDecimal(p.highCheckout);
  }

  /** The two readers agree: the same nine values give the same record whether they come as the
      cells of a table row or as a statistics line, once the line's record is given the row's
      team. */
  lemma ReadersAgree(p: PlayerStat, team: string)
    requires Printable(p) && NumberText(p.ppd) && NumberText(p.mpr)
    ensures CellsRecord(PlayerColumns(p), team) == PlayerLine(PlayerLineText(p)).(team := team)
  {
    PlayerLineRoundTrip(p);
    CellsOfColumns(p, team);
  }

  // ---------------------------------------------------------------- the header row

  /** Whether some header mentions "Player", whether some mentions "PPD", and the team named by
      the last header that mentions Bridge Inn ("" when none does). */
  datatype HeaderInfo = HeaderInfo(hasPlayer: bool, hasPPD: bool, team: string)

  /** The team a Bridge Inn header names. */
  function HeaderTeam(h: string): string {
    if Contains(h, "1") then "BRIDGE INN 1" else if Contains(h, "2") then "BRIDGE INN 2" else "BRIDGE INN"
  }

  function HeaderScan(headers: seq<string>): HeaderInfo
    decreases |headers|
  {
    if headers == [] then HeaderInfo(false, false, "")
    else
      var info := HeaderScan(headers[..|headers| - 1]);
      var h := TrimSpace(headers[|headers| - 1]);
      HeaderInfo(info.hasPlayer || Contains(h, "Player"), info.hasPPD || Contains(h, "PPD"),
        if Contains(h, "BRIDGE INN") then HeaderTeam(h) else info.team)
  }

  /** Some header, trimmed, contains `word`. */
  predicate AnyHeader(headers: seq<string>, word: string) {
    exists k :: 0 <= k < |headers| && HeaderHas(headers[k], word)
  }

  predicate HeaderHas(header: string, word: string) {
    Contains(TrimSpace(header), word)
  }

  lemma AnyHeaderSnoc(headers: seq<string>, word: string)
    requires headers != []
    ensures AnyHeader(headers, word) <==>
      AnyHeader(headers[..|headers| - 1], word) || HeaderHas(headers[|headers| - 1], word)
  {
    var init := headers[..|headers| - 1];
    if AnyHeader(headers, word) && !HeaderHas(headers[|headers| - 1], word) {
      var k :| 0 <= k < |headers| && HeaderHas(headers[k], word);
      assert init[k] == headers[k];
    }
    if AnyHeader(init, word) {
      var k :| 0 <= k < |init| && HeaderHas(init[k], word);
      assert init[k] == headers[k];
    }
  }

  /** The header scan finds "Player" and "PPD" exactly when some header holds them, and names a
      team exactly when some header mentions Bridge Inn. */
  lemma {:induction false} HeaderScanFinds(headers: seq<string>)
    ensures HeaderScan(headers).hasPlayer <==> AnyHeader(headers, "Player")
    ensures HeaderScan(headers).hasPPD <==> AnyHeader(headers, "PPD")
    ensures HeaderScan(headers).team == "" <==> !AnyHeader(headers, "BRIDGE INN")
    decreases |headers|
  {
    if headers != [] {
      HeaderScanFinds(headers[..|headers| - 1]);
      AnyHeaderSnoc(headers, "Player");
      AnyHeaderSnoc(headers, "PPD");
      AnyHeaderSnoc(headers, "BRIDGE INN");
    }
  }

  /** The team of the header row is that of the last header mentioning Bridge Inn. */
  lemma {:induction false} HeaderScanLastBridge(headers: seq<string>, k: nat)
    requires k < |headers| && Contains(TrimSpace(headers[k]), "BRIDGE INN")
    requires forall j :: k < j < |headers| ==> !Contains(TrimSpace(headers[j]), "BRIDGE INN")
    ensures HeaderScan(headers).team == HeaderTeam(TrimSpace(headers[k]))
    decreases |headers|
  {
    if k < |headers| - 1 {
      var init := headers[..|headers| - 1];
      assert init[k] == headers[k];
      forall j | k < j < |init| ensures !Contains(TrimSpace(init[j]), "BRIDGE INN") {
        assert init[j] == headers[j];
      }
      HeaderScanLastBridge(init, k);
    }
  }

  /** The header loop of one table. */
  method ScanHeaders(headers: seq<string>) returns (info: HeaderInfo)
    ensures info == HeaderScan(headers)
  {
    var hasPlayerColumn, hasPPDColumn, teamNameFromHeader := false, false, "";
    var k := 0;
    while k < |headers|
      invariant 0 <= k <= |headers|
      invariant HeaderInfo(hasPlayerColumn, hasPPDColumn, teamNameFromHeader) == HeaderScan(headers[..k])
    {
      assert headers[..k + 1][..k] == headers[..k];
      var header := TrimSpace(headers[k]);
      if Contains(header, "Player") {
        hasPlayerColumn := true;
      }
      if Contains(header, "PPD") {
        hasPPDColumn := true;
      }
      if Contains(header, "BRIDGE INN") {
        if Contains(header, "1") {
          teamNameFromHeader := "BRIDGE INN 1";
        } else if Contains(header, "2") {
          teamNameFromHeader := "BRIDGE INN 2";
        } else {
          teamNameFromHeader := "BRIDGE INN";
        }
      }
      k := k + 1;
    }
    assert headers[..k] == headers;
    info := HeaderInfo(hasPlayerColumn, hasPPDColumn, teamNameFromHeader);
  }

  // ---------------------------------------------------------------- the rows of a table

  /** The current team and the records read so far. */
  datatype RowState = RowState(team: string, records: seq<PlayerStat>)

  /** A first cell that marks a header or totals row rather than a player. */
  predicate SkippedName(name: string) {
    name == "" || name == "Player" || Contains(name, "Team Totals") || Contains(Lower(name), "player")
  }

  /** One row after the first: a row of at most three cells whose trimmed text is a team-name line
      sets the team to that text as it stands; a row of seven or more cells whose first cell names
      a player gives a record for the current team. */
  function RowStep(st: RowState, row: Row): RowState {
    var teamText := TrimSpace(row.text);
    if |row.cells| <= 3 && TeamNameLine(teamText) then st.(team := teamText)
    else if |row.cells| < 7 then st
    else PlayerRowStep(st, Trimmed(row.cells))
  }

  /** A row of seven or more trimmed cells whose first cell names a player adds its record. */
  function PlayerRowStep(st: RowState, ct: seq<string>): RowState
    requires |ct| >= 7
  {
    if SkippedName(ct[0]) then st
    else
      var p := CellsRecord(ct, st.team);
      if p.playerName != "" && p.playerName != "Combined" then st.(records := st.records + [p])
      else st
  }

  function RowsScan(start: RowState, rows: seq<Row>): RowState
    decreases |rows|
  {
    if rows == [] then start else RowStep(RowsScan(start, rows[..|rows| - 1]), rows[|rows| - 1])
  }

  /** The records of one table: none unless its headers mention "Player" and "PPD"; otherwise its
      rows after the first, starting from the header's team or the default team. */
  function TableRecords(table: Table, defaultTeam: string): seq<PlayerStat> {
    var info := HeaderScan(table.headers);
    if !info.hasPlayer || !info.hasPPD || |table.rows| == 0 then []
    else
      var start := if info.team != "" then info.team else defaultTeam;
      RowsScan(RowState(start, []), table.rows[1..]).records
  }

  /** The body of the row loop of one table. */
  method ReadRow(st: RowState, row: Row) returns (next: RowState)
    ensures next == RowStep(st, row)
  {
    var teamText := TrimSpace(row.text);
    if |row.cells| <= 3 {
      var isTeam := IsTeamNameLine(teamText);
      if isTeam {
        return st.(team := teamText);
      }
    }
    if |row.cells| < 7 {
      return st;
    }
    var cellTexts := TrimCells(row.cells);
    next := ReadPlayerRow(st, cellTexts);
  }

  /** The cell texts of a row, each trimmed. */
  method TrimCells(cells: seq<string>) returns (cellTexts: seq<string>)
    ensures cellTexts == Trimmed(cells)
  {
    cellTexts := [];
    var k := 0;
    while k < |cells|
      invariant 0 <= k <= |cells|
      invariant cellTexts == Trimmed(cells[..k])
    {
      cellTexts := cellTexts + [TrimSpace(cells[k])];
      k := k + 1;
    }
    assert cells[..k] == cells;
  }

  /** The player part of the row loop body, on the trimmed cells. */
  method ReadPlayerRow(st: RowState, cellTexts: seq<string>) returns (next: RowState)
    requires |cellTexts| >= 7
    ensures next == PlayerRowStep(st, cellTexts)
  {
    if |cellTexts| == 0 || cellTexts[0] == "" || cellTexts[0] == "Player" || Contains(cellTexts[0], "Team Totals") {
      return st;
    }
    if Contains(Lower(cellTexts[0]), "player") {
      return st;
    }
    var p := RecordFromCells(cellTexts, st.team);
    if p.playerName != "" && p.playerName != "Combined" {
      next := st.(records := st.records + [p]);
    } else {
      next := st;
    }
  }

  lemma RowsScanSnoc(start: RowState, rows: seq<Row>, r: nat)
    requires r < |rows|
    ensures RowsScan(start, rows[..r + 1]) == RowStep(RowsScan(start, rows[..r]), rows[r])
  {
    assert rows[..r + 1][..r] == rows[..r];
  }

  /** The row loop of one table. */
  method ReadRows(start: RowState, rows: seq<Row>) returns (st: RowState)
    ensures st == RowsScan(start, rows)
  {
    st := start;
    var r := 0;
    while r < |rows|
      invariant 0 <= r <= |rows|
      invariant st == RowsScan(start, rows[..r])
    {
      RowsScanSnoc(start, rows, r);
      st := ReadRow(st, rows[r]);
      r := r + 1;
    }
    assert rows[..r] == rows;
  }

  /** One table: the header loop, then the row loop from the second row. */
  method ReadTable(table: Table, defaultTeam: string) returns (records: seq<PlayerStat>)
    ensures records == TableRecords(table, defaultTeam)
  {
    var info := ScanHeaders(table.headers);
    if !info.hasPlayer || !info.hasPPD || |table.rows| == 0 {
      return [];
    }
    var currentTeam := defaultTeam;
    if info.team != "" {
      currentTeam := info.team;
    }
    var st := ReadRows(RowState(currentTeam, []), table.rows[1..]);
    records := st.records;
  }

  // ---------------------------------------------------------------- the whole document

  function TablesScan(tables: seq<Table>, defaultTeam: string): seq<PlayerStat>
    decreases |tables|
  {
    if tables == [] then []
    else TablesScan(tables[..|tables| - 1], defaultTeam) + TableRecords(tables[|tables| - 1], defaultTeam)
  }

  /** A row of the last-resort scan: a non-empty row whose text, in lower case, mentions neither
      "player" nor "team totals", that holds one of the first names MITCH, STEVE, JOHN or MIKE and
      has at least seven cells, gives a record for the default team, whatever its first cell. */
  function DirectRow(row: Row, defaultTeam: string): Option<PlayerStat> {
    var rowText := TrimSpace(row.text);
    if rowText == "" || Contains(Lower(rowText), "player") || Contains(Lower(rowText), "team totals") then None
    else if Contains(rowText, "MITCH") || Contains(rowText, "STEVE") || Contains(rowText, "JOHN") || Contains(rowText, "MIKE") then
      var ct := Trimmed(row.cells);
      if |ct| >= 7 then Some(CellsRecord(ct, defaultTeam)) else None
    else None
  }

  function DirectScan(rows: seq<Row>, defaultTeam: string): seq<PlayerStat>
    decreases |rows|
  {
    if rows == [] then []
    else
      DirectScan(rows[..|rows| - 1], defaultTeam) +
      match DirectRow(rows[|rows| - 1], defaultTeam)
      case Some(p) => [p]
      case None => []
  }

  lemma DirectScanSnoc(rows: seq<Row>, j: nat, defaultTeam: string)
    requires j < |rows|
    ensures DirectScan(rows[..j + 1], defaultTeam) ==
      DirectScan(rows[..j], defaultTeam) + (match DirectRow(rows[j], defaultTeam) case Some(p) => [p] case None => [])
  {
    assert rows[..j + 1][..j] == rows[..j];
  }

  /** extractPlayerStatsFromTable: the records of every player table in order, or, when there are
      none, those of the last-resort row scan. */
  function FromTables(doc: Document, defaultTeam: string): seq<PlayerStat> {
    var fromTables := TablesScan(doc.tables, defaultTeam);
    if |fromTables| == 0 then DirectScan(doc.rows, defaultTeam) else fromTables
  }

  /** extractPlayerStatsFromTable. */
  method ExtractPlayerStatsFromTable(doc: Document, defaultTeam: string) returns (playerStats: seq<PlayerStat>)
    ensures playerStats == FromTables(doc, defaultTeam)
  {
    playerStats := ReadTables(doc.tables, defaultTeam);
    if |playerStats| == 0 {
      playerStats := ReadDirect(doc.rows, defaultTeam);
    }
  }

  /** The loop over the tables of the document. */
  method ReadTables(tables: seq<Table>, defaultTeam: string) returns (playerStats: seq<PlayerStat>)
    ensures playerStats == TablesScan(tables, defaultTeam)
  {
    playerStats := [];
    var i := 0;
    while i < |tables|
      invariant 0 <= i <= |tables|
      invariant playerStats == TablesScan(tables[..i], defaultTeam)
    {
      assert tables[..i + 1][..i] == tables[..i];
      var records := ReadTable(tables[i], defaultTeam);
      playerStats := playerStats + records;
      i := i + 1;
    }
    assert tables[..i] == tables;
  }

  /** The body of the last-resort loop. */
  method ReadDirectRow(row: Row, defaultTeam: string) returns (found: seq<PlayerStat>)
    ensures found == match DirectRow(row, defaultTeam) case Some(p) => [p] case None => []
  {
    var rowText := TrimSpace(row.text);
    if rowText == "" || Contains(Lower(rowText), "player") || Contains(Lower(rowText), "team totals") {
      return [];
    }
    if Contains(rowText, "MITCH") || Contains(rowText, "STEVE") || Contains(rowText, "JOHN") || Contains(rowText, "MIKE") {
      var cellTexts := TrimCells(row.cells);
      if |cellTexts| >= 7 {
        var p := RecordFromCells(cellTexts, defaultTeam);
        return [p];
      }
    }
    return [];
  }

  /** The last-resort loop over all rows of the document. */
  method ReadDirect(rows: seq<Row>, defaultTeam: string) returns (playerStats: seq<PlayerStat>)
    ensures playerStats == DirectScan(rows, defaultTeam)
  {
    playerStats := [];
    var j := 0;
    while j < |rows|
      invariant 0 <= j <= |rows|
      invariant playerStats == DirectScan(rows[..j], defaultTeam)
    {
      DirectScanSnoc(rows, j, defaultTeam);
      var found := ReadDirectRow(rows[j], defaultTeam);
      playerStats := playerStats + found;
      j := j + 1;
    }
    assert rows[..j] == rows;
  }

  // ---------------------------------------------------------------- properties

  /** What every record of a player table satisfies: a real name, counts at least zero, and PPD
      and MPR reduced to digits and dots. */
  predicate TableRecord(p: PlayerStat) {
    !SkippedName(p.playerName) && p.playerName != "Combined" && NonNegativeCounts(p) &&
    p.opponent == "" &&
    (forall c :: c in p.ppd ==> IsNumberChar(c)) && (forall c :: c in p.mpr ==> IsNumberChar(c))
  }

  lemma {:induction false} RowsScanRecords(start: RowState, rows: seq<Row>)
    requires forall p :: p in start.records ==> TableRecord(p)
    ensures forall p :: p in RowsScan(start, rows).records ==> TableRecord(p)
    decreases |rows|
  {
    if rows != [] {
      RowsScanRecords(start, rows[..|rows| - 1]);
      RowStepRecords(RowsScan(start, rows[..|rows| - 1]), rows[|rows| - 1]);
    }
  }

  lemma RowStepRecords(st: RowState, row: Row)
    requires forall p :: p in st.records ==> TableRecord(p)
    ensures forall p :: p in RowStep(st, row).records ==> TableRecord(p)
  {
    if !(|row.cells| <= 3 && TeamNameLine(TrimSpace(row.text))) && |row.cells| >= 7 {
      PlayerRowRecords(st, Trimmed(row.cells));
    }
  }

  lemma PlayerRowRecords(st: RowState, ct: seq<string>)
    requires |ct| >= 7
    requires forall p :: p in st.records ==> TableRecord(p)
    ensures forall p :: p in PlayerRowStep(st, ct).records ==> TableRecord(p)
  {
    if !SkippedName(ct[0]) {
      var p := CellsRecord(ct, st.team);
      if p.playerName != "" && p.playerName != "Combined" {
        assert PlayerRowStep(st, ct).records == st.records + [p];
        assert TableRecord(p);
        RecordsSnoc(st.records, p);
      }
    }
  }

  lemma RecordsSnoc(records: seq<PlayerStat>, p: PlayerStat)
    requires (forall q :: q in records ==> TableRecord(q)) && TableRecord(p)
    ensures forall q :: q in records + [p] ==> TableRecord(q)
  {
  }

  lemma {:induction false} TablesScanRecords(tables: seq<Table>, defaultTeam: string)
    ensures forall p :: p in TablesScan(tables, defaultTeam) ==> TableRecord(p)
    decreases |tables|
  {
    if tables != [] {
      TablesScanRecords(tables[..|tables| - 1], defaultTeam);
      var t := tables[|tables| - 1];
      if |t.rows| > 0 {
        var info := HeaderScan(t.headers);
        RowsScanRecords(RowState(if info.team != "" then info.team else defaultTeam, []), t.rows[1..]);
      }
    }
  }

  /** A table whose headers mention "Player" nowhere, or "PPD" nowhere, gives no record. */
  lemma NonPlayerTableIgnored(table: Table, defaultTeam: string)
    requires !AnyHeader(table.headers, "Player") || !AnyHeader(table.headers, "PPD")
    ensures TableRecords(table, defaultTeam) == []
  {
    HeaderScanFinds(table.headers);
  }

  /** A short row whose text is a team-name line sets the current team to that text, trimmed but
      not normalised, and adds no record. */
  lemma TeamRowSetsRawText(start: RowState, rows: seq<Row>, row: Row)
    requires |row.cells| <= 3 && TeamNameLine(TrimSpace(row.text))
    ensures RowsScan(start, rows + [row]) ==
      RowState(TrimSpace(row.text), RowsScan(start, rows).records)
  {
    assert (rows + [row])[..|rows|] == rows;
  }

  /** Every record of the last-resort scan has counts at least zero and the default team. */
  lemma {:induction false} DirectScanRecords(rows: seq<Row>, defaultTeam: string)
    ensures forall p :: p in DirectScan(rows, defaultTeam) ==> NonNegativeCounts(p) && p.team == defaultTeam
    decreases |rows|
  {
    if rows != [] {
      DirectScanRecords(rows[..|rows| - 1], defaultTeam);
    }
  }

  /** When no table gives a record, all records come from the last-resort scan. */
  lemma FromTablesRecords(doc: Document, defaultTeam: string)
    ensures forall p :: p in FromTables(doc, defaultTeam) ==> NonNegativeCounts(p)
    ensures |TablesScan(doc.tables, defaultTeam)| > 0 ==>
      forall p :: p in FromTables(doc, defaultTeam) ==> TableRecord(p)
  {
    TablesScanRecords(doc.tables, defaultTeam);
    DirectScanRecords(doc.rows, defaultTeam);
  }

  /** The last-resort scan does not look at the first cell: a row of seven or more cells that
      mentions MIKE and none of the header words gives a record even when its first cell is
      empty, and the record's name is then empty. */
  lemma DirectRowEmptyName(row: Row, defaultTeam: string)
    requires |row.cells| >= 7 && TrimSpace(row.cells[0]) == ""
    requires Contains(TrimSpace(row.text), "MIKE")
    requires !Contains(Lower(TrimSpace(row.text)), "player") && !Contains(Lower(TrimSpace(row.text)), "team totals")
    ensures DirectRow(row, defaultTeam) == Some(CellsRecord(Trimmed(row.cells), defaultTeam))
    ensures DirectRow(row, defaultTeam).value.playerName == ""
  {
    assert TrimSpace(row.text) != "";
  }
}
