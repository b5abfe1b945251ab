/** The line-oriented reader of the statistics section: which lines name a team, the team name a
    line gives, player lines, team-totals lines, and the clean-up of numeric cells. */
module LineParser {
  import opened GoStrings
  import opened Models

  // ---------------------------------------------------------------- team-name lines

  predicate HasUpperLetter(t: string) { exists j :: 0 <= j < |t| && IsUpperLetter(t[j]) }

  predicate HasDigit(t: string) { exists j :: 0 <= j < |t| && IsDigit(t[j]) }

  /** Text that marks a line as a header or a statistics line rather than a team name. */
  predicate HasStatsWord(t: string) {
    Contains(t, "Player") || Contains(t, "Team Totals") || Contains(t, "PPD") ||
    Contains(t, "MPR") || Contains(t, "Wins") || Contains(t, "Games")
  }

  /** isTeamNameLine: the trimmed line is 3 to 40 characters long, and either mentions Bridge Inn
      in any case, or has an upper-case letter, no digit unless it has a '1' or a '2', and none of
      the statistics words. */
  predicate TeamNameLine(line: string) {
    var t := TrimSpace(line);
    3 <= |t| <= 40 && (Contains(Upper(t), "BRIDGE INN") || PlainTeamLine(t))
  }

  /** The test for lines that do not mention Bridge Inn. */
  predicate PlainTeamLine(t: string) {
    HasUpperLetter(t) && (!HasDigit(t) || Contains(t, "1") || Contains(t, "2")) && !HasStatsWord(t)
  }

  /** isTeamNameLine, with its scan for a digit and an upper-case letter. */
  method IsTeamNameLine(line: string) returns (b: bool)
    ensures b == TeamNameLine(line)
  {
    var t := TrimSpace(line);
    if |t| < 3 || |t| > 40 {
      return false;
    }
    if Contains(Upper(t), "BRIDGE INN") {
      return true;
    }
    var hasLetter, hasNumber := ScanLetterDigit(t);
    if hasNumber && !Contains(t, "1") && !Contains(t, "2") {
      return false;
    }
    b := hasLetter && !HasStatsWord(t);
  }

  /** The scan of isTeamNameLine for an upper-case letter and a digit. */
  method ScanLetterDigit(t: string) returns (hasLetter: bool, hasNumber: bool)
    ensures hasLetter == HasUpperLetter(t) && hasNumber == HasDigit(t)
  {
    hasLetter, hasNumber := false, false;
    var i := 0;
    while i < |t|
      invariant 0 <= i <= |t|
      invariant hasNumber <==> exists j :: 0 <= j < i && IsDigit(t[j])
      invariant hasLetter <==> exists j :: 0 <= j < i && IsUpperLetter(t[j])
    {
      if '0' <= t[i] <= '9' {
        hasNumber := true;
      }
      if 'A' <= t[i] <= 'Z' {
        hasLetter := true;
      }
      i := i + 1;
    }
  }

  /** A trimmed line of 3 to 40 characters in capitals, with a letter and a '1' or a '2', and
      with no 'P' or 'M' that could start a statistics word. */
  predicate CapitalLine(line: string) {
    TrimSpace(line) == line && 3 <= |line| <= 40 &&
    HasUpperLetter(line) && ('1' in line || '2' in line) &&
    forall c :: c in line ==> !IsLowerLetter(c) && c != 'P' && c != 'M'
  }

  /** A player line written in capitals whose fields hold a '1' or a '2' is taken for a team name
      when it is short enough and shows none of the statistics words: its capitals are the letter,
      and no lower-case letter, 'P' or 'M' leaves room for a statistics word. */
  lemma CapitalLineIsTeamLine(line: string)
    requires CapitalLine(line)
    ensures TeamNameLine(line) && TeamNameLine(TrimSpace(line))
  {
    var t := TrimSpace(line);
    assert t == line;
    CapitalLinePlain(t);
    PlainIsTeamLine(line);
  }

  lemma PlainIsTeamLine(line: string)
    requires 3 <= |TrimSpace(line)| <= 40 && PlainTeamLine(TrimSpace(line))
    ensures TeamNameLine(line)
  {
  }

  lemma CapitalLinePlain(line: string)
    requires HasUpperLetter(line) && ('1' in line || '2' in line)
    requires forall c :: c in line ==> !IsLowerLetter(c) && c != 'P' && c != 'M'
    ensures PlainTeamLine(line)
  {
    if '1' in line {
      var k :| 0 <= k < |line| && line[k] == '1';
      assert OccursAt(line, "1", k);
    } else {
      var k :| 0 <= k < |line| && line[k] == '2';
      assert OccursAt(line, "2", k);
    }
    Missing(line, "Player", 0);
    Missing(line, "Team Totals", 1);
    Missing(line, "PPD", 0);
    Missing(line, "MPR", 0);
    Missing(line, "Wins", 1);
    Missing(line, "Games", 1);
  }

  // ---------------------------------------------------------------- team names

  /** The characters `[^\w\s]` does not match: those the name clean-up keeps. */
  predicate KeptInName(c: char) { IsWordChar(c) || IsReSpace(c) }

  /** The Bridge Inn rule of extractTeamName on the upper-cased name. */
  function BridgeInnRule(up: string): Option<string> {
    if !Contains(up, "BRIDGE INN") then None
    else if Contains(up, "1") || (Contains(up, "I") && !Contains(up, "II")) then Some("BRIDGE INN 1")
    else if Contains(up, "2") || Contains(up, "II") then Some("BRIDGE INN 2")
    else None
  }

  /** The Sir James Pub rule of extractTeamName on the upper-cased name. */
  function SirJamesPubRule(up: string): Option<string> {
    if !Contains(up, "SIR JAMES PUB") then None
    else if Contains(up, "1") && !Contains(up, "DOS") then Some("SIR JAMES PUB 1")
    else if Contains(up, "2") || (Contains(up, "DOS") && !Contains(up, "3")) then Some("SIR JAMES PUB 2")
    else if Contains(up, "3") then Some("SIR JAMES PUB 3")
    else None
  }

  /** Removing every character that is neither a word character nor a space, then trimming. */
  function CleanName(name: string): string {
    TrimSpace(Filter(name, KeptInName))
  }

  /** The name of a line once its first "Team:" is removed. */
  function NamePart(line: string): string {
    ReplaceFirst(TrimSpace(line), "Team:", "")
  }

  /** extractTeamName: after removing the first "Team:", a line mentioning Bridge Inn or Sir James
      Pub is read by its digits, "I"s and "DOS"; any other line, and one those rules leave
      undecided, is cleaned. */
  function ExtractTeamName(line: string): string {
    var name := NamePart(line);
    var up := Upper(name);
    match BridgeInnRule(up)
    case Some(team) => team
    case None =>
      match SirJamesPubRule(up)
      case Some(team) => team
      case None => CleanName(name)
  }

  /** The Bridge Inn rule always decides, and gives "BRIDGE INN 1" except for a name with no '1'
      but a doubled "I": "BRIDGE INN" itself holds an "I", so a plain '2' is not enough. */
  lemma BridgeInnRuleDecides(up: string)
    requires Contains(up, "BRIDGE INN")
    ensures BridgeInnRule(up) == Some(if Contains(up, "1") || !Contains(up, "II") then "BRIDGE INN 1" else "BRIDGE INN 2")
  {
    assert OccursAt("BRIDGE INN", "I", 2);
    ContainsTransitive(up, "BRIDGE INN", "I");
  }

  /** Text with no two "I"s in a row does not contain "II". */
  lemma NoDoubleI(s: string)
    requires forall i :: 0 <= i < |s| - 1 ==> s[i] != 'I' || s[i + 1] != 'I'
    ensures !Contains(s, "II")
  {
    forall i | 0 <= i <= |s| - 2
      ensures !OccursAt(s, "II", i)
    {
      assert s[i] != 'I' || s[i + 1] != 'I';
    }
  }

  /** A trimmed line without lower-case letters, so without "Team:", is its own upper-cased
      name. */
  lemma PlainNameLine(line: string)
    requires TrimSpace(line) == line
    requires forall c :: c in line ==> !IsLowerLetter(c)
    ensures Upper(NamePart(line)) == line
  {
    var t := TrimSpace(line);
    assert t == line;
    assert forall c :: c in line ==> c != 'e';
    Missing(t, "Team:", 1);
    NoTeamTag(t);
    UpperKeeps(t);
  }

  /** Without "Team:" there is nothing to remove. */
  lemma NoTeamTag(s: string)
    requires !Contains(s, "Team:")
    ensures ReplaceFirst(s, "Team:", "") == s
  {
  }

  const BridgeTwo := "BRIDGE INN 2"

  lemma BridgeTwoLetters(up: string)
    requires up == BridgeTwo
    ensures Contains(up, "BRIDGE INN") && !Contains(up, "1") && !Contains(up, "II")
  {
    assert OccursAt(up, "BRIDGE INN", 0);
    Missing(up, "1", 0);
    NoDoubleI(up);
  }

  /** A line whose name reads "BRIDGE INN 2" is given to team 1. */
  lemma BridgeInnTwoNamesOne(line: string)
    requires Upper(NamePart(line)) == BridgeTwo
    ensures ExtractTeamName(line) == "BRIDGE INN 1"
  {
    var up := Upper(NamePart(line));
    BridgeTwoLetters(up);
    BridgeInnRuleDecides(up);
  }

  const BridgeOne := "BRIDGE INN 1"

  lemma BridgeOneLetters(up: string)
    requires up == BridgeOne
    ensures Contains(up, "BRIDGE INN") && Contains(up, "1")
  {
    assert OccursAt(up, "BRIDGE INN", 0);
    assert OccursAt(up, "1", 11);
  }

  /** A line whose name reads "BRIDGE INN 1" is given to team 1. */
  lemma BridgeInnOneNamesOne(line: string)
    requires Upper(NamePart(line)) == BridgeOne
    ensures ExtractTeamName(line) == "BRIDGE INN 1"
  {
    var up := Upper(NamePart(line));
    BridgeOneLetters(up);
    BridgeInnRuleDecides(up);
  }

  /** A line that mentions Bridge Inn in any case and has a fitting length names a team, whatever
      else it holds. */
  lemma BridgeLineIsTeamLine(line: string)
    requires 3 <= |TrimSpace(line)| <= 40 && Contains(Upper(TrimSpace(line)), "BRIDGE INN")
    ensures TeamNameLine(line)
  {
  }

  /** A cleaned name keeps only word characters and spaces, and neither starts nor ends with a
      space. */
  lemma CleanNameIsClean(name: string)
    ensures var r := CleanName(name);
      (forall c :: c in r ==> KeptInName(c)) && (r == [] || (!IsSpace(r[0]) && !IsSpace(r[|r| - 1])))
  {
    TrimSpaceChars(Filter(name, KeptInName));
  }

  /** The clean-up loses no word character: they all survive, in order. */
  lemma CleanNameKeepsWords(name: string)
    ensures Filter(CleanName(name), IsWordChar) == Filter(name, IsWordChar)
  {
    WordsOfKept(name);
    WordsIgnoreTrim(Filter(name, KeptInName));
  }

  /** Removing characters other than word characters and spaces keeps the word characters. */
  lemma {:induction false} WordsOfKept(s: string)
    ensures Filter(Filter(s, KeptInName), IsWordChar) == Filter(s, IsWordChar)
  {
    if s != [] {
      WordsOfKept(s[1..]);
      var rest := Filter(s[1..], KeptInName);
      if KeptInName(s[0]) {
        var k := [s[0]] + rest;
        assert Filter(s, KeptInName) == k;
        assert k[1..] == rest;
        assert Filter(k, IsWordChar) == (if IsWordChar(s[0]) then [s[0]] else []) + Filter(rest, IsWordChar);
      } else {
        assert Filter(s, KeptInName) == rest;
        assert !IsWordChar(s[0]);
      }
    }
  }

  /** Trimming drops only white space, so no word character. */
  lemma WordsIgnoreTrim(t: string)
    ensures Filter(TrimSpace(t), IsWordChar) == Filter(t, IsWordChar)
  {
    var p, q := TrimSpaceSplit(t);
    NoWords(t[..p]);
    NoWords(t[q..]);
    FilterAppend(TrimSpace(t), t[q..], IsWordChar);
    FilterAppend(t[..p], TrimSpace(t) + t[q..], IsWordChar);
  }

  lemma {:induction false} NoWords(s: string)
    requires forall i :: 0 <= i < |s| ==> IsSpace(s[i])
    ensures Filter(s, IsWordChar) == []
  {
    if s != [] {
      NoWords(s[1..]);
    }
  }

  /** A name no venue rule decides is cleaned: every word character of the name survives, in
      order, and nothing else but single inner spaces. */
  lemma ExtractTeamNameKeepsWords(line: string)
    requires BridgeInnRule(Upper(NamePart(line))).None? && SirJamesPubRule(Upper(NamePart(line))).None?
    ensures Filter(ExtractTeamName(line), IsWordChar) == Filter(NamePart(line), IsWordChar)
  {
    CleanNameKeepsWords(NamePart(line));
  }

  /** extractTeamName gives one of the five venue team names, or a clean name. */
  lemma ExtractTeamNameRange(line: string)
    ensures var r := ExtractTeamName(line);
      r in ["BRIDGE INN 1", "BRIDGE INN 2", "SIR JAMES PUB 1", "SIR JAMES PUB 2", "SIR JAMES PUB 3"] ||
      ((forall c :: c in r ==> KeptInName(c)) && (r == [] || (!IsSpace(r[0]) && !IsSpace(r[|r| - 1]))))
  {
    CleanNameIsClean(NamePart(line));
  }

  // ---------------------------------------------------------------- player lines

  /** isPlayerRating: at most three characters, all upper-case letters; the empty text passes. */
  predicate IsPlayerRating(s: string) {
    |s| <= 3 && forall i :: 0 <= i < |s| ==> IsUpperLetter(s[i])
  }

  /** The first field at or after `i` that is a rating, or -1. */
  function FirstRating(fields: seq<string>, i: nat): (r: int)
    requires i <= |fields|
    ensures r == -1 || (i <= r < |fields| && IsPlayerRating(fields[r]))
    ensures forall j :: i <= j < |fields| && (r == -1 || j < r) ==> !IsPlayerRating(fields[j])
    decreases |fields| - i
  {
    if i == |fields| then -1
    else if IsPlayerRating(fields[i]) then i
    else FirstRating(fields, i + 1)
  }

  /** The field at `i`, or the empty text past the end: a field that is not there leaves the zero
      value, as the empty text does. */
  function FieldOr(fields: seq<string>, i: int): string {
    if 0 <= i < |fields| then fields[i] else ""
  }

  /** parsePlayerStatsLine: fewer than seven fields give the empty record.  Otherwise the name is
      the first field; the first rating-looking field after it is the rating and the seven fields
      after that are the numbers; with no rating field, fields 1 to 8 are read in place. */
  function PlayerLine(line: string): PlayerStat {
    var fields := SplitWs(line);
    if |fields| < 7 then NoPlayer
    else
      var r := FirstRating(fields, 1);
      if r < 0 then
        PlayerStat(fields[0], "", "", fields[1], AtoiOrZero(fields[2]), AtoiOrZero(fields[3]),
          fields[4], fields[5], AtoiOrZero(fields[6]), AtoiOrZero(FieldOr(fields, 7)),
          AtoiOrZero(FieldOr(fields, 8)))
      else
        PlayerStat(fields[0], "", "", fields[r], AtoiOrZero(FieldOr(fields, r + 1)),
          AtoiOrZero(FieldOr(fields, r + 2)), FieldOr(fields, r + 3), FieldOr(fields, r + 4),
          AtoiOrZero(FieldOr(fields, r + 5)), AtoiOrZero(FieldOr(fields, r + 6)),
          AtoiOrZero(FieldOr(fields, r + 7)))
  }

  /** parsePlayerStatsLine, with its search for the rating field and its field-by-field reads. */
  method ParsePlayerStatsLine(line: string) returns (p: PlayerStat)
    ensures p == PlayerLine(line)
  {
    var fields := SplitWs(line);
    if |fields| < 7 {
      return NoPlayer;
    }
    p := NoPlayer.(playerName := fields[0]);
    var ratingIndex := -1;
    var i := 1;
    while i < |fields|
      invariant 1 <= i <= |fields|
      invariant forall j :: 1 <= j < i ==> !IsPlayerRating(fields[j])
    {
      if IsPlayerRating(fields[i]) {
        ratingIndex := i;
        p := p.(sancPd := fields[i]);
        break;
      }
      i := i + 1;
    }
    assert ratingIndex == FirstRating(fields, 1);
    if ratingIndex == -1 {
      p := p.(sancPd := fields[1]);
      p := p.(gamesPlayed := AtoiOrZero(fields[2]));
      p := p.(gamesWon := AtoiOrZero(fields[3]));
      p := p.(ppd := fields[4]);
      p := p.(mpr := fields[5]);
      p := p.(hatTricks := AtoiOrZero(fields[6]));
      if |fields| > 7 {
        p := p.(highScore := AtoiOrZero(fields[7]));
      }
      if |fields| > 8 {
        p := p.(highCheckout := AtoiOrZero(fields[8]));
      }
    } else {
      if ratingIndex + 1 < |fields| {
        p := p.(gamesPlayed := AtoiOrZero(fields[ratingIndex + 1]));
      }
      if ratingIndex + 2 < |fields| {
        p := p.(gamesWon := AtoiOrZero(fields[ratingIndex + 2]));
      }
      if ratingIndex + 3 < |fields| {
        p := p.(ppd := fields[ratingIndex + 3]);
      }
      if ratingIndex + 4 < |fields| {
        p := p.(mpr := fields[ratingIndex + 4]);
      }
      if ratingIndex + 5 < |fields| {
        p := p.(hatTricks := AtoiOrZero(fields[ratingIndex + 5]));
      }
      if ratingIndex + 6 < |fields| {
        p := p.(highScore := AtoiOrZero(fields[ratingIndex + 6]));
      }
      if ratingIndex + 7 < |fields| {
        p := p.(highCheckout := AtoiOrZero(fields[ratingIndex + 7]));
      }
    }
  }

  /** A field: non-empty text without a `\s` character. */
  predicate IsToken(s: string) { s != [] && forall c :: c in s ==> !IsReSpace(c) }

  /** A record a statistics line can spell: single-token name and PPD/MPR, a non-empty rating,
      counts at least zero, and no team yet. */
  predicate Printable(p: PlayerStat) {
    p.team == "" && p.opponent == "" && IsToken(p.playerName) && p.sancPd != [] &&
    IsPlayerRating(p.sancPd) && IsToken(p.ppd) && IsToken(p.mpr) && NonNegativeCounts(p)
  }

  /** The nine columns of a record, in the order both the statistics lines and the table rows
      give them. */
  function PlayerColumns(p: PlayerStat): (cols: seq<string>)
    requires NonNegativeCounts(p)
    ensures |cols| == 9
  {
    [p.playerName, p.sancPd, DecimalString(p.gamesPlayed), DecimalString(p.gamesWon),
      p.ppd, p.mpr, DecimalString(p.hatTricks), DecimalString(p.highScore),
      DecimalString(p.highCheckout)]
  }

  /** The statistics line of a record: its columns, one space apart. */
  function PlayerLineText(p: PlayerStat): string
    requires Printable(p)
  {
    JoinWith(PlayerColumns(p), ' ')
  }

  /** Decimal digits hold no space. */
  lemma DecimalIsToken(n: nat)
    ensures IsToken(DecimalString(n))
  {
    var s := DecimalString(n);
    forall c | c in s ensures !IsReSpace(c) {
      var k :| 0 <= k < |s| && s[k] == c;
      assert IsDigit(s[k]);
    }
  }

  /** Reading the statistics line of a record gives the record back. */
  lemma PlayerLineRoundTrip(p: PlayerStat)
    requires Printable(p)
    ensures PlayerLine(PlayerLineText(p)) == p
  {
    var fields := [p.playerName, p.sancPd, DecimalString(p.gamesPlayed), DecimalString(p.gamesWon),
      p.ppd, p.mpr, DecimalString(p.hatTricks), DecimalString(p.highScore),
      DecimalString(p.highCheckout)];
    DecimalIsToken(p.gamesPlayed);
    DecimalIsToken(p.gamesWon);
    DecimalIsToken(p.hatTricks);
    DecimalIsToken(p.highScore);
    DecimalIsToken(p.highCheckout);
    SplitWsJoin(fields);
    assert FirstRating(fields, 1) == 1;
    AtoiDecimalString(p.gamesPlayed);
    AtoiDecimalString(p.gamesWon);
    AtoiDecimalString(p.hatTricks);
    AtoiDecimalString(p.highScore);
    AtoiDecimalString(p.highCheckout);
  }

  /** The name is one field: a line with a two-word name yields only its first word, and the
      second word, when it looks like a rating, is taken for the rating. */
  lemma NameIsOneField(line: string)
    ensures var p := PlayerLine(line);
      forall c :: c in p.playerName ==> !IsReSpace(c)
    ensures var fields := SplitWs(line);
      |fields| >= 7 && IsPlayerRating(fields[1]) ==>
        PlayerLine(line).playerName == fields[0] && PlayerLine(line).sancPd == fields[1]
  {
  }

  /** A line whose fields are those of "JOHN DOE AA 10 7 2.50 1.20 1 100 50" reads as the player
      "JOHN" rated "DOE", with every number taken from the field after its own. */
  lemma SpacedFieldsRead(line: string)
    requires SplitWs(line) == SpacedPlayerFields
    ensures PlayerLine(line) == PlayerStat("JOHN", "", "", "DOE", 0, 10, "7", "2.50", 0, 1, 100)
  {
    var fields := SpacedPlayerFields;
    assert IsPlayerRating(fields[1]);
    assert FirstRating(fields, 1) == 1;
    SpacedNumbers();
  }

  lemma SpacedNumbers()
    ensures AtoiOrZero("AA") == 0 && AtoiOrZero("10") == 10 && AtoiOrZero("1.20") == 0
    ensures AtoiOrZero("1") == 1 && AtoiOrZero("100") == 100
  {
    assert !IsDigit("AA"[0]);
    assert !IsDigit("1.20"[1]);
    assert DigitsValue("10") == 10;
    assert DigitsValue("100") == 100;
  }

  const SpacedPlayerFields: seq<string> := ["JOHN", "DOE", "AA", "10", "7", "2.50", "1.20", "1", "100", "50"]

  /** Numbers are not cleaned on this path: a signed count is read as it stands. */
  lemma LineCountsMayBeNegative()
    ensures PlayerLine(JoinWith(["X", "A", "-3", "0", "1.0", "1.0", "0"], ' ')).gamesPlayed == -3
  {
    var fields := ["X", "A", "-3", "0", "1.0", "1.0", "0"];
    SplitWsJoin(fields);
    NegativeFieldsRead(JoinWith(fields, ' '));
  }

  lemma NegativeFieldsRead(line: string)
    requires SplitWs(line) == ["X", "A", "-3", "0", "1.0", "1.0", "0"]
    ensures PlayerLine(line).gamesPlayed == -3
  {
    var fields := SplitWs(line);
    assert FirstRating(fields, 1) == 1;
    assert Atoi("-3") == Some(-3);
  }

  // ---------------------------------------------------------------- team-totals lines

  /** The loop over the fields of a totals line: whether a field with "Totals:" has been passed,
      and the non-empty fields after it. */
  function TotalsScan(fields: seq<string>): (bool, seq<string>)
    decreases |fields|
  {
    if fields == [] then (false, [])
    else
      var prev := TotalsScan(fields[..|fields| - 1]);
      var f := fields[|fields| - 1];
      if prev.0 then (true, if f != "" then prev.1 + [f] else prev.1)
      else (Contains(f, "Totals:"), prev.1)
  }

  /** parseTeamTotalsLine: the empty record unless the line has "Team Totals:", at least five
      fields and at least four non-empty fields after the first field holding "Totals:"; then the
      name is the placeholder "TEAM" and those four fields give games, wins, PPD and MPR. */
  function TeamTotals(line: string): TeamStat {
    if !Contains(line, "Team Totals:") then NoTeam
    else
      var fields := SplitWs(line);
      if |fields| < 5 then NoTeam
      else
        var data := TotalsScan(fields).1;
        if |data| < 4 then NoTeam
        else TeamStat("TEAM", AtoiOrZero(data[0]), AtoiOrZero(data[1]), data[2], data[3])
  }

  /** parseTeamTotalsLine, with its `foundTotals` flag. */
  method ParseTeamTotalsLine(line: string) returns (teamStat: TeamStat)
    ensures teamStat == TeamTotals(line)
  {
    if !Contains(line, "Team Totals:") {
      return NoTeam;
    }
    var fields := SplitWs(line);
    if |fields| < 5 {
      return NoTeam;
    }
    var dataFields: seq<string> := [];
    var foundTotals := false;
    var i := 0;
    while i < |fields|
      invariant 0 <= i <= |fields|
      invariant (foundTotals, dataFields) == TotalsScan(fields[..i])
    {
      assert fields[..i + 1][..i] == fields[..i];
      var field := fields[i];
      if foundTotals {
        if field != "" {
          dataFields := dataFields + [field];
        }
      } else if Contains(field, "Totals:") {
        foundTotals := true;
      }
      i := i + 1;
    }
    assert fields[..i] == fields;
    if |dataFields| < 4 {
      return NoTeam;
    }
    teamStat := TeamStat("TEAM", AtoiOrZero(dataFields[0]), AtoiOrZero(dataFields[1]), dataFields[2], dataFields[3]);
  }

  /** The fields collected after "Totals:" are non-empty, and none are collected before it. */
  lemma {:induction false} TotalsScanFields(fields: seq<string>)
    ensures forall f :: f in TotalsScan(fields).1 ==> f != "" && f in fields
    ensures !TotalsScan(fields).0 ==>
      (TotalsScan(fields).1 == [] && forall j :: 0 <= j < |fields| ==> !Contains(fields[j], "Totals:"))
    decreases |fields|
  {
    if fields != [] {
      var init := fields[..|fields| - 1];
      TotalsScanFields(init);
      assert forall f :: f in init ==> f in fields;
      assert fields == init + [fields[|fields| - 1]];
    }
  }

  /** The totals line of four numbers. */
  function TotalsLineText(games: nat, wins: nat, ppd: string, mpr: string): string
    requires IsToken(ppd) && IsToken(mpr)
  {
    JoinWith(["Team", "Totals:", DecimalString(games), DecimalString(wins), ppd, mpr], ' ')
  }

  /** Reading the totals line of four numbers gives them back under the placeholder name. */
  lemma TotalsRoundTrip(games: nat, wins: nat, ppd: string, mpr: string)
    requires IsToken(ppd) && IsToken(mpr)
    ensures TeamTotals(TotalsLineText(games, wins, ppd, mpr)) == TeamStat("TEAM", games, wins, ppd, mpr)
  {
    var fields := ["Team", "Totals:", DecimalString(games), DecimalString(wins), ppd, mpr];
    var text := TotalsLineText(games, wins, ppd, mpr);
    DecimalIsToken(games);
    DecimalIsToken(wins);
    SplitWsJoin(fields);
    TotalsLineStarts(fields, text);
    TotalsFieldsScan(fields, DecimalString(games), DecimalString(wins), ppd, mpr);
    AtoiDecimalString(games);
    AtoiDecimalString(wins);
  }

  lemma TotalsLineStarts(fields: seq<string>, text: string)
    requires |fields| == 6 && fields[0] == "Team" && fields[1] == "Totals:" && text == JoinWith(fields, ' ')
    ensures Contains(text, "Team Totals:")
  {
    var rest := JoinWith(fields[2..], ' ');
    assert fields[1..][1..] == fields[2..];
    assert text == "Team" + [' '] + ("Totals:" + [' '] + rest);
    assert text == "Team Totals:" + ([' '] + rest);
    assert OccursAt(text, "Team Totals:", 0);
  }

  lemma TotalsFieldsScan(fields: seq<string>, a: string, b: string, c: string, d: string)
    requires fields == ["Team", "Totals:", a, b, c, d] && a != "" && b != "" && c != "" && d != ""
    ensures TotalsScan(fields).1 == [a, b, c, d]
  {
    assert OccursAt("Totals:", "Totals:", 0);
    assert fields[..1][..0] == [];
    assert !Contains(fields[0], "Totals:");
    assert TotalsScan(fields[..1]) == (false, []);
    assert fields[..2][..1] == fields[..1];
    assert TotalsScan(fields[..2]) == (true, []);
    TotalsScanCollects(fields, 2);
    TotalsScanCollects(fields, 3);
    TotalsScanCollects(fields, 4);
    TotalsScanCollects(fields, 5);
    assert fields[..6] == fields;
  }

  /** Once "Totals:" has been passed, a non-empty field is collected. */
  lemma TotalsScanCollects(fields: seq<string>, n: nat)
    requires n < |fields| && TotalsScan(fields[..n]).0 && fields[n] != ""
    ensures TotalsScan(fields[..n + 1]) == (true, TotalsScan(fields[..n]).1 + [fields[n]])
  {
    assert fields[..n + 1][..n] == fields[..n];
  }

  // ---------------------------------------------------------------- numeric cells

  predicate IsNumberChar(c: char) { IsDigit(c) || c == '.' }

  /** sanitizeNumberString: the digits and dots of the trimmed text, in order. */
  function Sanitized(s: string): (r: string)
    ensures forall c :: c in r ==> IsNumberChar(c)
  {
    Filter(TrimSpace(s), IsNumberChar)
  }

  /** Cleaning only deletes characters: the cleaned text is a subsequence of the cell. */
  lemma SanitizedSubsequence(s: string)
    ensures IsSubsequence(Sanitized(s), s)
  {
    var t := TrimSpace(s);
    FilterIsSubsequence(t, IsNumberChar);
    TrimmedSubsequence(Filter(t, IsNumberChar), s);
  }

  /** sanitizeNumberString, with its accumulating loop. */
  method SanitizeNumberString(s: string) returns (result: string)
    ensures result == Sanitized(s)
  {
    var t := TrimSpace(s);
    result := "";
    var i := 0;
    while i < |t|
      invariant 0 <= i <= |t|
      invariant result == Filter(t[..i], IsNumberChar)
    {
      FilterSnoc(t, i, IsNumberChar);
      var c := t[i];
      if ('0' <= c <= '9') || c == '.' {
        result := result + [c];
      }
      i := i + 1;
    }
    assert t[..i] == t;
  }

  /** Deleting characters from a middle part of `s` deletes characters from `s`. */
  lemma TrimmedSubsequence(a: string, s: string)
    requires IsSubsequence(a, TrimSpace(s))
    ensures IsSubsequence(a, s)
  {
    var t := TrimSpace(s);
    var p, q := TrimSpaceSplit(s);
    SubsequenceAppend(a, t, s[q..]);
    SubsequencePrepend(a, s[..p], t + s[q..]);
  }

  lemma {:induction false} SubsequencePrepend(a: string, c: string, b: string)
    requires IsSubsequence(a, b)
    ensures IsSubsequence(a, c + b)
    decreases |c|
  {
    if c != [] {
      SubsequencePrepend(a, c[1..], b);
      assert (c + b)[1..] == c[1..] + b;
    } else {
      assert c + b == b;
    }
  }

  lemma {:induction false} SubsequenceAppend(a: string, b: string, d: string)
    requires IsSubsequence(a, b)
    ensures IsSubsequence(a, b + d)
    decreases |b|
  {
    if b == [] {
      assert a == [] && b + d == d;
      EmptySubsequence(d);
    } else {
      assert (b + d)[1..] == b[1..] + d;
      if a != [] && a[0] == b[0] && IsSubsequence(a[1..], b[1..]) {
        SubsequenceAppend(a[1..], b[1..], d);
      } else {
        SubsequenceAppend(a, b[1..], d);
      }
    }
  }

  lemma {:induction false} EmptySubsequence(d: string)
    ensures IsSubsequence([], d)
    decreases |d|
  {
    if d != [] {
      EmptySubsequence(d[1..]);
    }
  }

  /** Cleaning a cleaned number changes nothing. */
  lemma SanitizeIdempotent(s: string)
    ensures Sanitized(Sanitized(s)) == Sanitized(s)
  {
    var r := Sanitized(s);
    if r != [] {
      assert r[0] in r && r[|r| - 1] in r;
    }
    TrimSpaceKeepsTrimmed(r);
    FilterKeepsAll(r, IsNumberChar);
  }

  /** A cleaned number has no sign, so the whole number read from it is never negative. */
  lemma SanitizedCountNonNegative(s: string)
    ensures AtoiOrZero(Sanitized(s)) >= 0
  {
    var r := Sanitized(s);
    if r != [] {
      assert IsNumberChar(r[0]);
    }
  }
}
