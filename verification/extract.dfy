/** ExtractPlayerStats: cutting the statistics section out of a standings page, reading it through
    its tables or, failing that, line by line, and the final correction of one player's team.
    Parsing the section as HTML is a parameter: it gives the section's tables and rows, or fails. */
module Extraction {
  import opened GoStrings
  import opened Models
  import opened LineParser
  import opened TableParser

  // ---------------------------------------------------------------- the section

  const StartMarker := "Combined X01/Cricket games, sorted by Team + PPD:"

  const AlternateMarkers := [
    "All X01 games, sorted by PPD:",
    "X01/Cricket games, sorted by Team",
    "Combined X01/Cricket games",
    "X01 games, sorted by PPD"
  ]

  const EndMarker := "Most Improved Players for week"

  const AllMarkers := [StartMarker] + AlternateMarkers

  /** `markers[k]` is the first of the markers that occurs in the page. */
  predicate FirstFound(html: string, markers: seq<string>, k: int) {
    0 <= k < |markers| && Contains(html, markers[k]) &&
    forall j :: 0 <= j < k ==> !Contains(html, markers[j])
  }

  /** Where the first of `markers` that occurs in the page first occurs, or -1. */
  function FirstMarkerIndex(html: string, markers: seq<string>): (r: int)
    ensures r == -1 <==> forall k :: 0 <= k < |markers| ==> !Contains(html, markers[k])
    ensures r >= 0 ==> exists k :: FirstFound(html, markers, k) && r == IndexOf(html, markers[k])
  {
    if markers == [] then -1
    else
      var i := IndexOf(html, markers[0]);
      if i != -1 then
        assert FirstFound(html, markers, 0);
        i
      else
        var r := FirstMarkerIndex(html, markers[1..]);
        if r >= 0 then
          var k :| FirstFound(html, markers[1..], k) && r == IndexOf(html, markers[1..][k]);
          assert FirstFound(html, markers, k + 1);
          r
        else r
  }

  /** The section of a page as it is meant to be cut: from the first start marker found to just
      before the first end marker after it, or to the end of the page; nothing when no start
      marker occurs. */
  function Cut(html: string, markers: seq<string>, endMarker: string): Option<string> {
    var start := FirstMarkerIndex(html, markers);
    if start < 0 then None
    else
      assert start <= |html| by { FirstMarkerBound(html, markers); }
      var e := IndexOf(html[start..], endMarker);
      Some(if e == -1 then html[start..] else html[start..start + e])
  }

  /** The statistics section: the primary marker, else the alternates in their order. */
  function Section(html: string): Option<string> {
    Cut(html, AllMarkers, EndMarker)
  }

  /** How the cut of the code ends: no start marker, slice bounds out of order (a run-time
      panic in Go), or a section. */
  datatype CutOutcome = NoStart | BoundsPanic | Sliced(section: string)

  /** The cut as the code computes it.  Without an end marker the end index is the length of
      the rest of the page, and the start is not added back to it: the slice stops `start`
      characters short of the page's end, and panics when that end lies before the start. */
  function CutAsWritten(html: string, markers: seq<string>, endMarker: string): CutOutcome {
    var start := FirstMarkerIndex(html, markers);
    if start < 0 then NoStart
    else
      assert start <= |html| by { FirstMarkerBound(html, markers); }
      var e := IndexOf(html[start..], endMarker);
      var endIndex := if e == -1 then |html| - start else e + start;
      if endIndex < start then BoundsPanic else Sliced(html[start..endIndex])
  }

  /** The cut of the code against the intended one: both find no start marker alike, and they
      agree when an end marker follows the start.  Without one, the code panics exactly when the
      start lies past the middle of the page, and otherwise loses the last `start` characters
      of the intended section. */
  lemma CutAsWrittenVersusCut(html: string, markers: seq<string>, endMarker: string)
    ensures CutAsWritten(html, markers, endMarker).NoStart? <==> Cut(html, markers, endMarker).None?
    ensures var start := FirstMarkerIndex(html, markers);
      0 <= start <= |html| && Contains(html[start..], endMarker) ==>
        CutAsWritten(html, markers, endMarker) == Sliced(Cut(html, markers, endMarker).value)
    ensures var start := FirstMarkerIndex(html, markers);
      0 <= start <= |html| && !Contains(html[start..], endMarker) ==>
        (CutAsWritten(html, markers, endMarker).BoundsPanic? <==> |html| < 2 * start)
    ensures var start := FirstMarkerIndex(html, markers);
      var w := CutAsWritten(html, markers, endMarker);
      0 <= start <= |html| && !Contains(html[start..], endMarker) && w.Sliced? ==>
        var c := Cut(html, markers, endMarker).value;
        |c| == |html| - start && w.section == c[..|c| - start]
  {
    FirstMarkerBound(html, markers);
  }

  /** A page of two characters whose start marker is its second one: the intended section is
      "a", the code's is empty; with one more character in front the code panics. */
  lemma CutAsWrittenLosesTail()
    ensures Cut("xa", ["a"], "E") == Some("a")
    ensures CutAsWritten("xa", ["a"], "E") == Sliced("")
    ensures Cut("xxa", ["a"], "E") == Some("a")
    ensures CutAsWritten("xxa", ["a"], "E") == BoundsPanic
  {
    assert OccursAt("xa", "a", 1);
    assert "xa"[0..1] == "x";
    assert OccursAt("xxa", "a", 2);
    assert "xxa"[0..1] == "x" && "xxa"[1..2] == "x";
    assert "a"[0..1] == "a";
    assert !Contains("a", "E");
  }

  lemma FirstMarkerBound(html: string, markers: seq<string>)
    ensures -1 <= FirstMarkerIndex(html, markers) <= |html|
  {
    var r := FirstMarkerIndex(html, markers);
    if r >= 0 {
      var k :| FirstFound(html, markers, k) && r == IndexOf(html, markers[k]);
    }
  }

  /** The search for the start marker: the primary one, then a loop over the alternates. */
  method FindStart(html: string, primary: string, alternates: seq<string>) returns (startIndex: int)
    ensures startIndex == FirstMarkerIndex(html, [primary] + alternates)
  {
    ghost var all := [primary] + alternates;
    assert all[1..] == alternates;
    startIndex := IndexOf(html, primary);
    if startIndex == -1 {
      var m := 0;
      while m < |alternates|
        invariant 0 <= m <= |alternates|
        invariant startIndex == -1
        invariant forall j :: 0 <= j < m ==> !Contains(html, alternates[j])
      {
        startIndex := IndexOf(html, alternates[m]);
        if startIndex != -1 {
          break;
        }
        m := m + 1;
      }
      if startIndex != -1 {
        FirstMarkerFrom(html, alternates, m);
      }
    }
  }

  /** The section locator, as the code computes it; the slice's bounds are checked first, where
      Go would panic. */
  method LocateSection(html: string, primary: string, alternates: seq<string>, endMarker: string)
    returns (section: CutOutcome)
    ensures section == CutAsWritten(html, [primary] + alternates, endMarker)
  {
    var startIndex := FindStart(html, primary, alternates);
    if startIndex == -1 {
      return NoStart;
    }
    FirstMarkerBound(html, [primary] + alternates);
    var endIndex := IndexOf(html[startIndex..], endMarker);
    if endIndex == -1 {
      endIndex := |html| - startIndex;
    } else {
      endIndex := endIndex + startIndex;
    }
    if endIndex < startIndex {
      return BoundsPanic;
    }
    section := Sliced(html[startIndex..endIndex]);
  }

  /** The first marker found by the loop is the one the search finds. */
  lemma {:induction false} FirstMarkerFrom(html: string, markers: seq<string>, m: nat)
    requires m < |markers| && Contains(html, markers[m])
    requires forall j :: 0 <= j < m ==> !Contains(html, markers[j])
    ensures FirstMarkerIndex(html, markers) == IndexOf(html, markers[m])
    decreases m
  {
    if m > 0 {
      FirstMarkerFrom(html, markers[1..], m - 1);
    }
  }

  /** Without any start marker there is no section. */
  lemma NoMarkerNoCut(html: string, markers: seq<string>, endMarker: string)
    requires forall k :: 0 <= k < |markers| ==> !Contains(html, markers[k])
    ensures Cut(html, markers, endMarker).None?
  {
  }

  /** The section is a piece of the page, starting where the first marker found first occurs,
      and it never holds the whole end marker.  It ends just before the first end marker after
      its start, or at the end of the page when none follows. */
  lemma CutBounds(html: string, markers: seq<string>, endMarker: string)
    requires endMarker != [] && Cut(html, markers, endMarker).Some?
    ensures var start := FirstMarkerIndex(html, markers);
      var s := Cut(html, markers, endMarker).value;
      0 <= start && start + |s| <= |html| && s == html[start..start + |s|] && !Contains(s, endMarker)
    ensures var start := FirstMarkerIndex(html, markers);
      var s := Cut(html, markers, endMarker).value;
      0 <= start <= |html| && !Contains(html[start..], endMarker) ==> start + |s| == |html|
    ensures var start := FirstMarkerIndex(html, markers);
      var s := Cut(html, markers, endMarker).value;
      0 <= start <= |html| && Contains(html[start..], endMarker) ==> OccursAt(html[start..], endMarker, |s|)
  {
    var start := FirstMarkerIndex(html, markers);
    FirstMarkerBound(html, markers);
    var rest := html[start..];
    var e := IndexOf(rest, endMarker);
    var s := Cut(html, markers, endMarker).value;
    CutBeforeFirst(rest, endMarker);
    if e == -1 {
      assert s == rest;
    } else {
      assert s == rest[..e];
    }
  }

  /** Cutting a string before the first occurrence of `sub` leaves none. */
  lemma CutBeforeFirst(s: string, sub: string)
    requires sub != []
    ensures var e := IndexOf(s, sub);
      !Contains(if e == -1 then s else s[..e], sub)
  {
    var e := IndexOf(s, sub);
    if e != -1 && Contains(s[..e], sub) {
      var j :| 0 <= j <= e - |sub| && OccursAt(s[..e], sub, j);
      assert s[..e][j..j + |sub|] == s[j..j + |sub|];
      assert OccursAt(s, sub, j);
    }
  }

  // ---------------------------------------------------------------- the line pass

  /** The team of the last team-name line, and the records read so far. */
  datatype LineState = LineState(team: string, players: seq<PlayerStat>, totals: seq<TeamStat>)

  /** One line of the fallback pass: a team-name line sets the team; empty, header, rule and
      totals lines are skipped; any other line whose parse has a name gives a record for the
      current team.  A totals line would give team totals, but totals lines are skipped first. */
  function StatsLineStep(st: LineState, raw: string): LineState {
    var line := TrimSpace(raw);
    if TeamNameLine(line) then st.(team := ExtractTeamName(line))
    else if line == "" || Contains(line, "Player") || Contains(line, "-----") || Contains(line, "Team Totals:") then st
    else
      var p := PlayerLine(line);
      var st1 := if p.playerName != "" then st.(players := st.players + [p.(team := st.team)]) else st;
      if Contains(line, "Team Totals:") then
        var t := TeamTotals(line);
        if t.teamName != "" then st1.(totals := st1.totals + [t.(teamName := st.team)]) else st1
      else st1
  }

  function StatsLinesScan(lines: seq<string>): LineState
    decreases |lines|
  {
    if lines == [] then LineState("", [], [])
    else StatsLineStep(StatsLinesScan(lines[..|lines| - 1]), lines[|lines| - 1])
  }

  lemma StatsLinesSnoc(lines: seq<string>, n: nat)
    requires n < |lines|
    ensures StatsLinesScan(lines[..n + 1]) == StatsLineStep(StatsLinesScan(lines[..n]), lines[n])
  {
    assert lines[..n + 1][..n] == lines[..n];
  }

  /** One line of the fallback pass. */
  method ReadStatsLine(st: LineState, raw: string) returns (next: LineState)
    ensures next == StatsLineStep(st, raw)
  {
    var line := TrimSpace(raw);
    var isTeam := IsTeamNameLine(line);
    if isTeam {
      return st.(team := ExtractTeamName(line));
    }
    if line == "" || Contains(line, "Player") || Contains(line, "-----") || Contains(line, "Team Totals:") {
      return st;
    }
    next := st;
    var playerStat := ParsePlayerStatsLine(line);
    if playerStat.playerName != "" {
      next := next.(players := next.players + [playerStat.(team := st.team)]);
    }
    if Contains(line, "Team Totals:") {
      var teamStat := ParseTeamTotalsLine(line);
      if teamStat.teamName != "" {
        next := next.(totals := next.totals + [teamStat.(teamName := st.team)]);
      }
    }
  }

  /** The fallback pass never gives team totals: a totals line is skipped before it is read. */
  lemma {:induction false} NoTeamTotals(lines: seq<string>)
    ensures StatsLinesScan(lines).totals == []
    decreases |lines|
  {
    if lines != [] {
      NoTeamTotals(lines[..|lines| - 1]);
    }
  }

  /** Every record of the fallback pass has a one-field name: no space in it. */
  lemma {:induction false} LinePassNamesAreOneField(lines: seq<string>)
    ensures forall p :: p in StatsLinesScan(lines).players ==>
      p.playerName != "" && forall c :: c in p.playerName ==> !IsReSpace(c)
    decreases |lines|
  {
    if lines != [] {
      LinePassNamesAreOneField(lines[..|lines| - 1]);
      NameIsOneField(TrimSpace(lines[|lines| - 1]));
    }
  }

  /** A player line in capitals with a '1' or a '2' in it, short enough and without a statistics
      word, is taken for a team name: it adds no record and becomes the current team. */
  lemma CapitalPlayerLineAddsNoPlayer(st: LineState, line: string)
    requires CapitalLine(line)
    ensures StatsLineStep(st, line) == st.(team := ExtractTeamName(line))
  {
    CapitalLineIsTeamLine(line);
    TeamLineStep(st, line);
  }

  lemma TeamLineStep(st: LineState, raw: string)
    requires TeamNameLine(TrimSpace(raw))
    ensures StatsLineStep(st, raw) == st.(team := ExtractTeamName(TrimSpace(raw)))
  {
  }

  // ---------------------------------------------------------------- the correction pass

  const SteveName := "STEVE WHEELOCK"

  /** The records after the correction: a player named Steve Wheelock, in any case, plays for
      Bridge Inn 2. */
  function Reassigned(ps: seq<PlayerStat>): (r: seq<PlayerStat>)
    ensures |r| == |ps|
  {
    seq(|ps|, i requires 0 <= i < |ps| =>
      if Upper(ps[i].playerName) == SteveName then ps[i].(team := "BRIDGE INN 2") else ps[i])
  }

  /** The correction pass, in place. */
  method ReassignTeams(playerStats: array<PlayerStat>)
    modifies playerStats
    ensures playerStats[..] == Reassigned(old(playerStats[..]))
  {
    var i := 0;
    while i < playerStats.Length
      invariant 0 <= i <= playerStats.Length
      invariant forall j :: 0 <= j < i ==> playerStats[j] == Reassigned(old(playerStats[..]))[j]
      invariant forall j :: i <= j < playerStats.Length ==> playerStats[j] == old(playerStats[j])
    {
      if Upper(playerStats[i].playerName) == SteveName {
        playerStats[i] := playerStats[i].(team := "BRIDGE INN 2");
      }
      i := i + 1;
    }
  }

  /** The correction changes only the team of Steve Wheelock's records; names and every other
      field stay, and every other record is unchanged. */
  lemma ReassignedOnlySteve(ps: seq<PlayerStat>)
    ensures forall i :: 0 <= i < |ps| ==>
      Reassigned(ps)[i].playerName == ps[i].playerName &&
      (Upper(ps[i].playerName) != SteveName ==> Reassigned(ps)[i] == ps[i]) &&
      (Upper(ps[i].playerName) == SteveName ==> Reassigned(ps)[i] == ps[i].(team := "BRIDGE INN 2"))
    ensures Reassigned(Reassigned(ps)) == Reassigned(ps)
  {
  }

  /** A name without a space never reads as "STEVE WHEELOCK", so the correction leaves the
      records of the fallback pass alone. */
  lemma OneFieldNameNotSteve(name: string)
    requires forall c :: c in name ==> !IsReSpace(c)
    ensures Upper(name) != SteveName
  {
    if |name| == |SteveName| {
      assert name[5] in name;
    }
  }

  lemma {:induction false} LinePassUntouched(lines: seq<string>)
    ensures Reassigned(StatsLinesScan(lines).players) == StatsLinesScan(lines).players
  {
    var ps := StatsLinesScan(lines).players;
    LinePassNamesAreOneField(lines);
    forall i | 0 <= i < |ps| ensures Upper(ps[i].playerName) != SteveName {
      assert ps[i] in ps;
      OneFieldNameNotSteve(ps[i].playerName);
    }
  }

  // ---------------------------------------------------------------- the whole extraction

  /** The records of a section: nothing when it does not parse; the records of its tables, or
      when they give none those of the line pass; then the correction. */
  function ReadSection(section: string, parse: string -> Option<Document>): (seq<PlayerStat>, seq<TeamStat>) {
    match parse(section)
    case None => ([], [])
    case Some(doc) =>
      var fromTables := FromTables(doc, "");
      if |fromTables| == 0 then
        var st := StatsLinesScan(SplitOn(section, '\n'));
        (Reassigned(st.players), st.totals)
      else (Reassigned(fromTables), [])
  }

  /** ExtractPlayerStats as it is meant to work: nothing without a section, else the records of
      the intended section. */
  function Extraction(html: string, parse: string -> Option<Document>): (seq<PlayerStat>, seq<TeamStat>) {
    match Section(html)
    case None => ([], [])
    case Some(section) => ReadSection(section, parse)
  }

  /** A run of ExtractPlayerStats: it panics, or returns its two lists. */
  datatype Run = Panicked | Returned(playerStats: seq<PlayerStat>, teamStats: seq<TeamStat>)

  /** ExtractPlayerStats as the code computes it, on the code's cut. */
  function ExtractionAsWritten(html: string, parse: string -> Option<Document>): Run {
    match CutAsWritten(html, AllMarkers, EndMarker)
    case NoStart => Returned([], [])
    case BoundsPanic => Panicked
    case Sliced(section) =>
      var r := ReadSection(section, parse);
      Returned(r.0, r.1)
  }

  /** The code returns what is intended whenever it finds no start marker or finds an end marker
      after it. */
  lemma AsWrittenAgreesWithEndMarker(html: string, parse: string -> Option<Document>)
    requires var start := FirstMarkerIndex(html, AllMarkers);
      start < 0 || (start <= |html| && Contains(html[start..], EndMarker))
    ensures ExtractionAsWritten(html, parse) ==
      Returned(Extraction(html, parse).0, Extraction(html, parse).1)
  {
    CutAsWrittenVersusCut(html, AllMarkers, EndMarker);
    match Section(html)
    case None =>
    case Some(section) =>
      assert CutAsWritten(html, AllMarkers, EndMarker) == Sliced(section);
  }

  /** The fallback pass over the section's lines. */
  method ReadStatsLines(lines: seq<string>) returns (st: LineState)
    ensures st == StatsLinesScan(lines)
  {
    st := LineState("", [], []);
    var n := 0;
    while n < |lines|
      invariant 0 <= n <= |lines|
      invariant st == StatsLinesScan(lines[..n])
    {
      StatsLinesSnoc(lines, n);
      st := ReadStatsLine(st, lines[n]);
      n := n + 1;
    }
    assert lines[..n] == lines;
  }

  /** The correction pass, run on a copy of the records. */
  method Reassign(ps: seq<PlayerStat>) returns (r: seq<PlayerStat>)
    ensures r == Reassigned(ps)
  {
    var a := new PlayerStat[|ps|](i requires 0 <= i < |ps| => ps[i]);
    assert a[..] == ps;
    ReassignTeams(a);
    r := a[..];
  }

  /** ExtractPlayerStats, as the code runs it: the panic of the cut is its outcome. */
  method ExtractPlayerStats(html: string, parse: string -> Option<Document>) returns (run: Run)
    ensures run == ExtractionAsWritten(html, parse)
  {
    var section := LocateSection(html, StartMarker, AlternateMarkers, EndMarker);
    if section.NoStart? {
      return Returned([], []);
    }
    if section.BoundsPanic? {
      return Panicked;
    }
    var sectionHTML := section.section;
    var doc := parse(sectionHTML);
    if doc.None? {
      return Returned([], []);
    }
    var playerStats := ExtractPlayerStatsFromTable(doc.value, "");
    var teamStats := [];
    if |playerStats| == 0 {
      var st := ReadStatsLines(SplitOn(sectionHTML, '\n'));
      playerStats, teamStats := st.players, st.totals;
    }
    playerStats := Reassign(playerStats);
    run := Returned(playerStats, teamStats);
  }

  /** ExtractPlayerStats never returns team totals, as meant or as written. */
  lemma TeamStatsAlwaysEmpty(html: string, parse: string -> Option<Document>)
    ensures Extraction(html, parse).1 == []
    ensures ExtractionAsWritten(html, parse).Returned? ==> ExtractionAsWritten(html, parse).teamStats == []
  {
    match Section(html)
    case None =>
    case Some(section) =>
      SectionNoTotals(section, parse);
    match CutAsWritten(html, AllMarkers, EndMarker)
    case NoStart =>
    case BoundsPanic =>
    case Sliced(section) =>
      SectionNoTotals(section, parse);
  }

  lemma SectionNoTotals(section: string, parse: string -> Option<Document>)
    ensures ReadSection(section, parse).1 == []
  {
    NoTeamTotals(SplitOn(section, '\n'));
  }

  /** Without a start marker both lists are empty. */
  lemma NoMarkerNothing(html: string, parse: string -> Option<Document>)
    requires forall k :: 0 <= k < |AllMarkers| ==> !Contains(html, AllMarkers[k])
    ensures Extraction(html, parse) == ([], [])
    ensures ExtractionAsWritten(html, parse) == Returned([], [])
  {
    NoMarkerNoCut(html, AllMarkers, EndMarker);
  }
}
