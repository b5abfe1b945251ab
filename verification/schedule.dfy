/** The league schedule: the schedule read from the text of the schedule document, in the
    parser package's version and in main.go's version that also reads BYE lines, and the fixed
    fallback schedule. */
module Schedule {
  import opened GoStrings
  import opened Models

  // ---------------------------------------------------------------- reading the text

  /** The three regular expressions of the schedule reader, as functions of one trimmed line.
      `weekDate` gives the two groups of the week header (the week number and the date) when the
      line has a header; `matchups` gives the two groups of every matchup in the line, left to
      right; `bye` gives the group of the BYE pattern (the team) when the line has one. */
  datatype ScheduleMatchers = ScheduleMatchers(
    weekDate: string -> Option<(string, string)>,
    matchups: string -> seq<(string, string)>,
    bye: string -> Option<string>)

  /** The current week and date, and the entries read so far. */
  datatype ScanState = ScanState(week: int, date: string, entries: seq<MatchSchedule>)

  const Start := ScanState(0, "", [])

  /** A week header whose number parses: the new week and date. */
  function Header(m: ScheduleMatchers, line: string): Option<(int, string)> {
    match m.weekDate(line)
    case None => None
    case Some(groups) =>
      match Atoi(groups.0)
      case None => None
      case Some(n) => Some((n, groups.1))
  }

  /** The entries of the matchups found on one line: one per matchup, only once a week is set. */
  function MatchupEntries(week: int, date: string, found: seq<(string, string)>): seq<MatchSchedule>
    decreases |found|
  {
    if found == [] then []
    else
      var last := found[|found| - 1];
      MatchupEntries(week, date, found[..|found| - 1]) +
      (if week > 0 then [MatchSchedule(week, date, TrimSpace(last.0), TrimSpace(last.1))] else [])
  }

  /** One line of the parser package's reader. */
  function LineStep(m: ScheduleMatchers, st: ScanState, line: string): ScanState {
    var t := TrimSpace(line);
    match Header(m, t)
    case Some(h) => ScanState(h.0, h.1, st.entries)
    case None => st.(entries := st.entries + MatchupEntries(st.week, st.date, m.matchups(t)))
  }

  /** One line of main.go's reader: a BYE line, once a week is set, gives one entry against "BYE"
      and nothing else. */
  function ByeLineStep(m: ScheduleMatchers, st: ScanState, line: string): ScanState {
    var t := TrimSpace(line);
    match Header(m, t)
    case Some(h) => ScanState(h.0, h.1, st.entries)
    case None =>
      if m.bye(t).Some? && st.week > 0 then
        st.(entries := st.entries + [MatchSchedule(st.week, st.date, TrimSpace(m.bye(t).value), "BYE")])
      else
        st.(entries := st.entries + MatchupEntries(st.week, st.date, m.matchups(t)))
  }

  /** One line of either reader. */
  function Step(m: ScheduleMatchers, withBye: bool, st: ScanState, line: string): ScanState {
    if withBye then ByeLineStep(m, st, line) else LineStep(m, st, line)
  }

  /** The state after reading `lines` in order, in either version. */
  function Scan(m: ScheduleMatchers, withBye: bool, lines: seq<string>): ScanState
    decreases |lines|
  {
    if lines == [] then Start
    else Step(m, withBye, Scan(m, withBye, lines[..|lines| - 1]), lines[|lines| - 1])
  }

  /** The schedule read from a text: its lines are the pieces between newlines. */
  function ScheduleOf(m: ScheduleMatchers, withBye: bool, text: string): seq<MatchSchedule> {
    Scan(m, withBye, SplitOn(text, '\n')).entries
  }

  /** Reading one more line is one more step. */
  lemma ScanSnoc(m: ScheduleMatchers, withBye: bool, lines: seq<string>, n: nat)
    requires n < |lines|
    ensures Scan(m, withBye, lines[..n + 1]) == Step(m, withBye, Scan(m, withBye, lines[..n]), lines[n])
  {
    assert lines[..n + 1][..n] == lines[..n];
  }

  /** One more matchup is one more entry, once a week is set. */
  lemma MatchupSnoc(week: int, date: string, found: seq<(string, string)>, k: nat)
    requires k < |found|
    ensures week > 0 ==> (MatchupEntries(week, date, found[..k + 1]) ==
      MatchupEntries(week, date, found[..k]) + [MatchSchedule(week, date, TrimSpace(found[k].0), TrimSpace(found[k].1))])
    ensures week <= 0 ==> MatchupEntries(week, date, found[..k + 1]) == MatchupEntries(week, date, found[..k])
  {
    assert found[..k + 1][..k] == found[..k];
    if week <= 0 {
      var done := MatchupEntries(week, date, found[..k]);
      assert done + [] == done;
    }
  }

  lemma AppendAssoc(a: seq<MatchSchedule>, b: seq<MatchSchedule>, c: seq<MatchSchedule>)
    ensures a + b + c == a + (b + c)
  {
  }

  /** The matchups of one line, appended one by one, as the reader's inner loop does. */
  method AppendMatchups(week: int, date: string, found: seq<(string, string)>, before: seq<MatchSchedule>)
    returns (schedules: seq<MatchSchedule>)
    ensures schedules == before + MatchupEntries(week, date, found)
  {
    schedules := before;
    var k := 0;
    while k < |found|
      invariant 0 <= k <= |found|
      invariant schedules == before + MatchupEntries(week, date, found[..k])
    {
      MatchupSnoc(week, date, found, k);
      if week > 0 {
        var home := TrimSpace(found[k].0);
        var away := TrimSpace(found[k].1);
        AppendAssoc(before, MatchupEntries(week, date, found[..k]), [MatchSchedule(week, date, home, away)]);
        schedules := schedules + [MatchSchedule(week, date, home, away)];
      }
      k := k + 1;
    }
    assert found[..k] == found;
  }

  /** One line of the reader's outer loop. */
  method ReadLine(m: ScheduleMatchers, withBye: bool, st: ScanState, raw: string) returns (next: ScanState)
    ensures next == Step(m, withBye, st, raw)
  {
    var line := TrimSpace(raw);
    var header := Header(m, line);
    if header.Some? {
      next := ScanState(header.value.0, header.value.1, st.entries);
    } else if withBye && m.bye(line).Some? && st.week > 0 {
      var team := TrimSpace(m.bye(line).value);
      next := st.(entries := st.entries + [MatchSchedule(st.week, st.date, team, "BYE")]);
    } else {
      var schedules := AppendMatchups(st.week, st.date, m.matchups(line), st.entries);
      next := st.(entries := schedules);
    }
  }

  /** ExtractScheduleFromText of the parser package (`withBye` false) and of main.go (`withBye`
      true). */
  method ExtractScheduleFromText(m: ScheduleMatchers, withBye: bool, text: string)
    returns (schedules: seq<MatchSchedule>)
    ensures schedules == ScheduleOf(m, withBye, text)
  {
    var lines := SplitOn(text, '\n');
    var st := Start;
    var n := 0;
    while n < |lines|
      invariant 0 <= n <= |lines|
      invariant st == Scan(m, withBye, lines[..n])
    {
      ScanSnoc(m, withBye, lines, n);
      st := ReadLine(m, withBye, st, lines[n]);
      n := n + 1;
    }
    assert lines[..n] == lines;
    schedules := st.entries;
  }

  // ---------------------------------------------------------------- properties of the reader

  /** The entries of one line's matchups carry the given week and date, one per matchup, and
      there are none before a week is set. */
  lemma {:induction false} MatchupEntriesCarryState(week: int, date: string, found: seq<(string, string)>)
    ensures forall e :: e in MatchupEntries(week, date, found) ==> e.week == week && e.date == date
    ensures week <= 0 ==> MatchupEntries(week, date, found) == []
    ensures week > 0 ==> |MatchupEntries(week, date, found)| == |found|
    decreases |found|
  {
    if found != [] {
      MatchupEntriesCarryState(week, date, found[..|found| - 1]);
    }
  }

  /** Every entry read has a positive week. */
  lemma {:induction false} EntriesHavePositiveWeek(m: ScheduleMatchers, withBye: bool, lines: seq<string>)
    ensures forall e :: e in Scan(m, withBye, lines).entries ==> e.week > 0
    decreases |lines|
  {
    if lines != [] {
      var st := Scan(m, withBye, lines[..|lines| - 1]);
      EntriesHavePositiveWeek(m, withBye, lines[..|lines| - 1]);
      MatchupEntriesCarryState(st.week, st.date, m.matchups(TrimSpace(lines[|lines| - 1])));
    }
  }

  /** Some line of `lines` is a header for this week and date. */
  predicate FromHeader(m: ScheduleMatchers, lines: seq<string>, week: int, date: string) {
    exists l :: l in lines && Header(m, TrimSpace(l)) == Some((week, date))
  }

  /** The current week, once set, and every entry's week and date come from a header line. */
  predicate Explained(m: ScheduleMatchers, lines: seq<string>, st: ScanState) {
    (st.week > 0 ==> FromHeader(m, lines, st.week, st.date)) &&
    forall e :: e in st.entries ==> FromHeader(m, lines, e.week, e.date)
  }

  lemma FromHeaderGrows(m: ScheduleMatchers, lines: seq<string>, line: string, week: int, date: string)
    requires FromHeader(m, lines, week, date)
    ensures FromHeader(m, lines + [line], week, date)
  {
    var l :| l in lines && Header(m, TrimSpace(l)) == Some((week, date));
    assert l in lines + [line];
  }

  lemma StepExplained(m: ScheduleMatchers, withBye: bool, lines: seq<string>, st: ScanState, line: string)
    requires Explained(m, lines, st)
    ensures Explained(m, lines + [line], Step(m, withBye, st, line))
  {
    var t := TrimSpace(line);
    var next := Step(m, withBye, st, line);
    assert line in lines + [line];
    if st.week > 0 {
      FromHeaderGrows(m, lines, line, st.week, st.date);
    }
    forall e | e in st.entries
      ensures FromHeader(m, lines + [line], e.week, e.date)
    {
      FromHeaderGrows(m, lines, line, e.week, e.date);
    }
    MatchupEntriesCarryState(st.week, st.date, m.matchups(t));
  }

  /** Every entry's week and date are those of some header line of the text: no entry is read
      before the first header, and each carries a header's own date. */
  lemma {:induction false} EntriesComeFromHeaders(m: ScheduleMatchers, withBye: bool, lines: seq<string>)
    ensures Explained(m, lines, Scan(m, withBye, lines))
    ensures forall e :: e in Scan(m, withBye, lines).entries ==>
      exists l :: l in lines && Header(m, TrimSpace(l)) == Some((e.week, e.date))
    decreases |lines|
  {
    if lines != [] {
      var init := lines[..|lines| - 1];
      EntriesComeFromHeaders(m, withBye, init);
      StepExplained(m, withBye, init, Scan(m, withBye, init), lines[|lines| - 1]);
      assert init + [lines[|lines| - 1]] == lines;
    }
  }

  /** The week and date of the most recent header line, or week 0 before any. */
  function LastHeader(m: ScheduleMatchers, lines: seq<string>): (int, string)
    decreases |lines|
  {
    if lines == [] then (0, "")
    else
      match Header(m, TrimSpace(lines[|lines| - 1]))
      case Some(h) => h
      case None => LastHeader(m, lines[..|lines| - 1])
  }

  /** A line that is not a header keeps the week and date, and only appends entries that carry
      them. */
  lemma NonHeaderKeepsWeek(m: ScheduleMatchers, withBye: bool, st: ScanState, line: string)
    requires Header(m, TrimSpace(line)).None?
    ensures var next := Step(m, withBye, st, line);
      next.week == st.week && next.date == st.date && st.entries <= next.entries &&
      forall e :: e in next.entries[|st.entries|..] ==> e.week == st.week && e.date == st.date
  {
    var t := TrimSpace(line);
    var next := Step(m, withBye, st, line);
    if withBye && m.bye(t).Some? && st.week > 0 {
      assert next.entries[|st.entries|..] == [MatchSchedule(st.week, st.date, TrimSpace(m.bye(t).value), "BYE")];
    } else {
      var added := MatchupEntries(st.week, st.date, m.matchups(t));
      MatchupEntriesCarryState(st.week, st.date, m.matchups(t));
      assert next.entries == st.entries + added;
      assert next.entries[|st.entries|..] == added;
    }
  }

  /** The reader's week and date are always those of the most recent header line. */
  lemma {:induction false} ScanTracksLastHeader(m: ScheduleMatchers, withBye: bool, lines: seq<string>)
    ensures (Scan(m, withBye, lines).week, Scan(m, withBye, lines).date) == LastHeader(m, lines)
    decreases |lines|
  {
    if lines != [] {
      var init := lines[..|lines| - 1];
      var line := lines[|lines| - 1];
      ScanTracksLastHeader(m, withBye, init);
      if Header(m, TrimSpace(line)).None? {
        NonHeaderKeepsWeek(m, withBye, Scan(m, withBye, init), line);
      }
    }
  }

  /** The entries line `n` adds carry the week and date of the most recent header line before it,
      not of any earlier one. */
  lemma LineEntriesCarryLastHeader(m: ScheduleMatchers, withBye: bool, lines: seq<string>, n: nat)
    requires n < |lines|
    ensures var before := Scan(m, withBye, lines[..n]).entries;
      var after := Scan(m, withBye, lines[..n + 1]).entries;
      before <= after &&
      forall e :: e in after[|before|..] ==> (e.week, e.date) == LastHeader(m, lines[..n])
  {
    ScanSnoc(m, withBye, lines, n);
    var st := Scan(m, withBye, lines[..n]);
    ScanTracksLastHeader(m, withBye, lines[..n]);
    if Header(m, TrimSpace(lines[n])).None? {
      NonHeaderKeepsWeek(m, withBye, st, lines[n]);
    } else {
      var after := Scan(m, withBye, lines[..n + 1]).entries;
      assert after == st.entries;
      assert after[|st.entries|..] == [];
    }
  }

  /** A text without a week header gives no entries, and the week stays unset. */
  lemma {:induction false} NoHeaderNoEntries(m: ScheduleMatchers, withBye: bool, lines: seq<string>)
    requires forall l :: l in lines ==> Header(m, TrimSpace(l)).None?
    ensures Scan(m, withBye, lines).entries == [] && Scan(m, withBye, lines).week == 0
    decreases |lines|
  {
    if lines != [] {
      var init := lines[..|lines| - 1];
      assert forall l :: l in init ==> l in lines;
      NoHeaderNoEntries(m, withBye, init);
      var st := Scan(m, withBye, init);
      var last := lines[|lines| - 1];
      assert last in lines;
      MatchupEntriesCarryState(st.week, st.date, m.matchups(TrimSpace(last)));
    }
  }

  /** A step keeps the entries read so far. */
  lemma StepAppends(m: ScheduleMatchers, withBye: bool, st: ScanState, line: string)
    ensures st.entries <= Step(m, withBye, st, line).entries
  {
  }

  /** Reading more lines only appends entries: the entries of a prefix of the text are a prefix of
      the entries of the text. */
  lemma {:induction false} ScanOnlyAppends(m: ScheduleMatchers, withBye: bool, lines: seq<string>, n: nat)
    requires n <= |lines|
    ensures Scan(m, withBye, lines[..n]).entries <= Scan(m, withBye, lines).entries
    decreases |lines| - n
  {
    if n < |lines| {
      ScanOnlyAppends(m, withBye, lines, n + 1);
      ScanSnoc(m, withBye, lines, n);
      StepAppends(m, withBye, Scan(m, withBye, lines[..n]), lines[n]);
    } else {
      assert lines[..n] == lines;
    }
  }

  /** A header line sets the week and date and adds no entry. */
  lemma HeaderLineAddsNothing(m: ScheduleMatchers, withBye: bool, lines: seq<string>, line: string)
    requires Header(m, TrimSpace(line)).Some?
    ensures var st := Scan(m, withBye, lines + [line]);
      st.entries == Scan(m, withBye, lines).entries &&
      (st.week, st.date) == Header(m, TrimSpace(line)).value
  {
    assert (lines + [line])[..|lines|] == lines;
  }

  /** In main.go's reader a BYE line after a header adds exactly one entry: the team against "BYE"
      in the current week. */
  lemma ByeLineAddsOneEntry(m: ScheduleMatchers, lines: seq<string>, line: string)
    requires Header(m, TrimSpace(line)).None? && m.bye(TrimSpace(line)).Some?
    requires Scan(m, true, lines).week > 0
    ensures var st := Scan(m, true, lines);
      Scan(m, true, lines + [line]).entries ==
        st.entries + [MatchSchedule(st.week, st.date, TrimSpace(m.bye(TrimSpace(line)).value), "BYE")]
  {
    assert (lines + [line])[..|lines|] == lines;
  }

  /** On a text without BYE lines the two readers agree. */
  lemma {:induction false} ReadersAgreeWithoutBye(m: ScheduleMatchers, lines: seq<string>)
    requires forall l :: l in lines ==> m.bye(TrimSpace(l)).None?
    ensures Scan(m, true, lines) == Scan(m, false, lines)
    decreases |lines|
  {
    if lines != [] {
      var init := lines[..|lines| - 1];
      assert forall l :: l in init ==> l in lines;
      ReadersAgreeWithoutBye(m, init);
      assert lines[|lines| - 1] in lines;
    }
  }

  // ---------------------------------------------------------------- the fallback schedule

  /** The nine teams of the fallback schedule, in the source's order. */
  const Roster: seq<string> := [
    "THE HUTCH", "CAPITALIZE", "GRAND AVE", "HARBOR HILLS", "HARBOR HILLS TOO",
    "HILLS HAS EYES", "REDHEADS", "SIR JAMES PUB DOS", "SPEARS N BEERS"
  ]

  const Weeks := 26

  /** Pairs per week: the ninth team has no partner. */
  const PairsPerWeek := 4

  /** The `k`-th match of week `week`: teams 2k and 2k+1, the first at home in even weeks. */
  function ManualEntry(week: int, k: int): MatchSchedule
    requires 0 <= k < PairsPerWeek && week >= 0
  {
    var date := "Week " + DecimalString(week) + ", 2024";
    if week % 2 == 0 then MatchSchedule(week, date, Roster[2 * k], Roster[2 * k + 1])
    else MatchSchedule(week, date, Roster[2 * k + 1], Roster[2 * k])
  }

  /** The fallback schedule: four matches a week for weeks 1 to 26, week by week. */
  function ManualSchedule(): seq<MatchSchedule> {
    seq(Weeks * PairsPerWeek, j requires 0 <= j < Weeks * PairsPerWeek => ManualEntry(j / PairsPerWeek + 1, j % PairsPerWeek))
  }

  /** ParseScheduleManually. */
  method ParseScheduleManually() returns (schedules: seq<MatchSchedule>)
    ensures schedules == ManualSchedule()
  {
    var teams := Roster;
    schedules := [];
    var week := 1;
    while week <= 26
      invariant 1 <= week <= 27
      invariant |schedules| == (week - 1) * PairsPerWeek
      invariant forall j :: 0 <= j < |schedules| ==> schedules[j] == ManualEntry(j / PairsPerWeek + 1, j % PairsPerWeek)
    {
      var i := 0;
      while i < |teams|
        invariant 0 <= i <= 10 && i % 2 == 0
        invariant |schedules| == (week - 1) * PairsPerWeek + (if i <= 8 then i / 2 else PairsPerWeek)
        invariant forall j :: 0 <= j < |schedules| ==> schedules[j] == ManualEntry(j / PairsPerWeek + 1, j % PairsPerWeek)
      {
        if i + 1 >= |teams| {
          i := i + 2;
          continue;
        }
        var homeTeam, awayTeam;
        if week % 2 == 0 {
          homeTeam, awayTeam := teams[i], teams[i + 1];
        } else {
          homeTeam, awayTeam := teams[i + 1], teams[i];
        }
        var date := "Week " + DecimalString(week) + ", 2024";
        ghost var j := |schedules|;
        assert j / PairsPerWeek + 1 == week && j % PairsPerWeek == i / 2;
        schedules := schedules + [MatchSchedule(week, date, homeTeam, awayTeam)];
        i := i + 2;
      }
      week := week + 1;
    }
  }

  // ---------------------------------------------------------------- properties of the fallback

  /** 104 matches, with weeks 1 to 26 in ascending order, four in each week. */
  lemma ManualScheduleShape()
    ensures |ManualSchedule()| == Weeks * PairsPerWeek
    ensures forall j :: 0 <= j < |ManualSchedule()| ==> 1 <= ManualSchedule()[j].week <= Weeks
    ensures forall j, j' :: 0 <= j <= j' < |ManualSchedule()| ==> ManualSchedule()[j].week <= ManualSchedule()[j'].week
    ensures forall j :: 0 <= j < |ManualSchedule()| ==> ManualSchedule()[j].week == j / PairsPerWeek + 1
  {
  }

  /** Each match of the fallback pairs two different roster teams, the ninth team never plays,
      and the date names the week. */
  lemma ManualEntryTeams(week: int, k: int)
    requires 0 <= k < PairsPerWeek && week >= 0
    ensures var e := ManualEntry(week, k);
      e.homeTeam in Roster[..8] && e.awayTeam in Roster[..8] && e.homeTeam != e.awayTeam &&
      e.homeTeam != "SPEARS N BEERS" && e.awayTeam != "SPEARS N BEERS" &&
      e.date == "Week " + DecimalString(week) + ", 2024"
  {
  }

  /** Home and away swap from one week to the next. */
  lemma ManualHomeAwaySwap(week: int, k: int)
    requires 0 <= k < PairsPerWeek && week >= 0
    ensures ManualEntry(week + 1, k).homeTeam == ManualEntry(week, k).awayTeam
    ensures ManualEntry(week + 1, k).awayTeam == ManualEntry(week, k).homeTeam
  {
  }

  /** Within a week, the four matches involve eight different teams: no team plays twice. */
  lemma ManualWeekDisjoint(week: int, k: int, k': int)
    requires 0 <= k < PairsPerWeek && 0 <= k' < PairsPerWeek && k != k' && week >= 0
    ensures var a, b := ManualEntry(week, k), ManualEntry(week, k');
      a.homeTeam != b.homeTeam && a.homeTeam != b.awayTeam &&
      a.awayTeam != b.homeTeam && a.awayTeam != b.awayTeam
  {
  }
}
