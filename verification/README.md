# Dart league statistics scraper: a verified model of its text rules

The scraper reads a dart league's schedules and weekly standings pages. It finds the block of
player statistics in a standings page and reads player records out of that block. It reads
them from its HTML tables when it can, and otherwise from its text lines. It also turns
schedule text into matchups, maps the many spellings of a team to one canonical name, and
finds a team's opponent in a given week. Finally it repairs and resolves the URLs it fetches.
This project models those rules in Dafny and proves what they promise.

Modules, one per concern of the program:

- `GoStrings` (`strings.dfy`): the parts of Go's `strings`, `strconv` and `regexp` the rules
  rely on, over ASCII text:
  - `ToUpper`, `Contains`, `Index`, `TrimSpace`, `Replace(…, 1)`, `ReplaceAll`;
  - `Split` on a separator, and `Split` on `\s+`;
  - `Atoi`.
- `Models` (`models.dfy`): the records of `pkg/models/player.go`.
- `Teams` (`teams.dfy`): `NormalizeTeamName`, and `FindOpponent` with its BYE-aware variant
  from `main.go`.
- `Schedule` (`schedule.dfy`): `ExtractScheduleFromText`, both with and without the BYE
  handling of `main.go`, and `ParseScheduleManually`.
- `LineParser` (`lines.dfy`): `isTeamNameLine`, `extractTeamName`, `parsePlayerStatsLine`,
  `isPlayerRating`, `parseTeamTotalsLine` and `sanitizeNumberString`.
- `TableParser` (`tables.dfy`): `extractPlayerStatsFromTable`, working on a document given as
  its tables and rows of cell texts.
- `Extraction` (`extract.dfy`): `ExtractPlayerStats`, covering:
  - the choice of start marker and the cut of the section;
  - the table path, then the line-by-line fallback;
  - the in-place pass that moves Steve Wheelock to Bridge Inn 2.
- `Urls` (`urls.dfy`): `NormalizeURL` from `main.go`, and `ResolveRelativeURL` and
  `ExtractWeekNumber` from the scraper package.

How the model is built:

- **Loops.** Code that loops with accumulators is modelled as methods with loops and
  invariants. Each method is proved equal to a specification function that folds over the
  input's prefixes, and the properties are proved about those functions.
- **In-place update.** The post-pass, which rewrites records where they are, works on an
  `array`.
- **Shared logic.** `pkg/parser/parser.go` and `main.go` hold two copies of the same logic;
  it is modelled once. The `main.go` differences each get their own member:
  - BYE in `FindOpponent`;
  - BYE lines in `ExtractScheduleFromText`;
  - `NormalizeURL`.

**A line that looks like a player record.** One might expect the line
`JOHN DOE AA 10 7 2.50 1.20 1 100 50` to read as a player record. The code handles it otherwise,
and the model follows the code:
- **The line is a team name.** The line is trimmed, 35 characters long, written in capitals,
  holds a '1' and has no statistics word. So the line loop of `ExtractPlayerStats` takes it
  for a team name (`pkg/parser/parser.go:536`) and never parses it as a player.
  `Extraction.CapitalPlayerLineAddsNoPlayer` proves this for every such line.
- **If parsed, the fields do not line up.** Suppose the line were parsed as a player record.
  `parsePlayerStatsLine` would take only `JOHN` as the name. `DOE` passes `isPlayerRating`,
  so it becomes the rating. The numbers then shift by one column, and `Atoi("AA")` fails to 0.
  `LineParser.SpacedFieldsRead` states the resulting record.

## Model

| member | source | states |
|---|---|---|
| `GoStrings.IndexOf` | pkg/parser/parser.go:503 | `strings.Index`: -1 exactly when the text has no occurrence; otherwise the position of the first occurrence |
| `GoStrings.TrimSpace` | pkg/parser/parser.go:227 | `strings.TrimSpace`: the result is a slice of the input that neither starts nor ends with white space |
| `GoStrings.TrimSpaceSplit` | pkg/parser/parser.go:227 | the text is a dropped prefix, the trimmed result and a dropped suffix, and everything dropped is white space, so the result is the longest such middle part |
| `GoStrings.TrimSpaceIdempotent` | pkg/parser/parser.go:533 | trimming an already trimmed line changes nothing |
| `GoStrings.SplitWs` | pkg/parser/parser.go:306 | `regexp.MustCompile("\s+").Split`: there is always at least one field, and no field holds a white-space character |
| `GoStrings.SplitWsJoin` | pkg/parser/parser.go:306 | splitting tokens joined by single spaces gives the tokens back |
| `GoStrings.SplitOnJoin` | pkg/parser/parser.go:531 | `strings.Split(text, "\n")` gives pieces with no newline that join back to the text |
| `GoStrings.Atoi` | pkg/parser/parser.go:337 | `strconv.Atoi` on unbounded integers: a text is read exactly when it is an optional sign followed by one or more digits, and its value is the digits' value, negated after '-' |
| `GoStrings.AtoiSignedDecimal` | pkg/parser/parser.go:337 | a '-' or '+' in front of the decimal form of n reads as -n or n |
| `GoStrings.AtoiZeroPadded` | pkg/parser/parser.go:337 | leading zeros in front of the decimal form of n still read as n |
| `GoStrings.AtoiDecimalString` | pkg/parser/parser.go:447 | reading the decimal form of a natural number gives the number back |
| `GoStrings.Filter` | pkg/parser/parser.go:459-463 | a character filter keeps only accepted characters of the input and never grows it |
| `GoStrings.FilterIsSubsequence` | pkg/parser/parser.go:459-463 | a filtered text is a subsequence of the input |
| `GoStrings.ReplaceAllCharPrefixBack` | main.go:385 | after replacing every occurrence of a character by a non-empty text, a prefix without that text's first character was already a prefix before |
| `Teams.AliasLookup` | pkg/parser/parser.go:203-219 | the alias table answers exactly when some key occurs in the compressed name, with one of the values of the keys that occur |
| `Teams.NormalizeIsAnOrder` | pkg/parser/parser.go:215-219 | the fixed order the model uses for the table is one of the orders Go's map iteration may take |
| `Teams.NormalizeRange` | pkg/parser/parser.go:173-222 | the result is a canonical name, or, when no venue rule and no alias key applies, the upper-cased input itself rather than its compressed form |
| `Teams.NormalizeIdempotent` | pkg/parser/parser.go:173-222 | normalising a normalised name changes nothing |
| `Teams.NormalizesToIdempotent` | pkg/parser/parser.go:215-219 | for every order of the alias table: a name normalises to r, and r normalises to r and to nothing else |
| `Teams.CanonicalNamesFixed` | pkg/parser/parser.go:178-213 | every fixed output (the two Bridge Inn names, the three Sir James Pub names, each alias value) is its own unique normal form |
| `Teams.VenueRuleCanonical` | pkg/parser/parser.go:178-196 | the Bridge Inn and Sir James Pub rules only ever give one of the five venue names |
| `Teams.AliasValuesCanonical` | pkg/parser/parser.go:203-213 | every value the alias table can give is one of the canonical alias names |
| `Teams.UpperSettles` | pkg/parser/parser.go:221 | when no rule applies, the upper-cased name is its own unique normal form |
| `Teams.NormalizeIgnoresCase` | pkg/parser/parser.go:175-200 | two names that agree once upper-cased normalise alike, in every order of the alias table |
| `Teams.SirJamesDosAmbiguity` | pkg/parser/parser.go:210-211 | "SIRJAMESPUBDOS" holds two alias keys, so Go may return "SIR JAMES PUB 2" or "SIR JAMES PUB" |
| `Teams.HarborHillsTooAlias` | pkg/parser/parser.go:199-205 | a lower-case spelling is compressed and matched: "harborhillstoo" gives "HARBOR HILLS TOO" |
| `Teams.FindOpponentUnknown` | pkg/parser/parser.go:154-170 | with no entry of that week naming the team on either side (after normalising), the answer is "Unknown" |
| `Teams.FindOpponentFirstMatch` | pkg/parser/parser.go:154-170 | otherwise the first such entry decides; home is tried before away, and the other side is returned as written |
| `Teams.FindOpponentWithByeUnknown` | main.go:295-321 | the BYE-aware variant answers "Unknown" under the same condition |
| `Teams.FindOpponentWithByeFirstMatch` | main.go:295-321 | the first matching entry decides, and a side spelled BYE in any case gives the literal "BYE" |
| `Teams.WithByeAgreesOtherwise` | main.go:304-311 | whenever the BYE-aware variant does not answer "BYE", it agrees with the library version |
| `Teams.WithByeOnlyRespells` | main.go:304-311 | when it answers "BYE", the library version answers BYE in some spelling |
| `Teams.ByeScenario` | main.go:295-321 | a team facing BYE that week gets "BYE"; an empty schedule gives "Unknown" for both versions |
| `Schedule.ExtractScheduleFromText` | pkg/parser/parser.go:43-96 | the line loop gives exactly the schedule of the fold over the lines of the text, in the library version and in the BYE-aware version of main.go:158-236 |
| `Schedule.AppendMatchups` | pkg/parser/parser.go:76-92 | the inner loop appends one entry per matchup of the line, in match order, and none before a week is set |
| `Schedule.MatchupEntriesCarryState` | pkg/parser/parser.go:77-89 | each matchup entry carries the current week and date; nothing is emitted while the week is 0 |
| `Schedule.EntriesHavePositiveWeek` | pkg/parser/parser.go:77 | every emitted entry has a week above 0 |
| `Schedule.ScanTracksLastHeader` | pkg/parser/parser.go:56-72 | the reader's week and date are always those of the most recent header line, or week 0 before any |
| `Schedule.NonHeaderKeepsWeek` | pkg/parser/parser.go:74-92 | a line that is not a header keeps the week and date and only appends entries that carry them |
| `Schedule.LineEntriesCarryLastHeader` | pkg/parser/parser.go:59-92 | the entries a line adds carry the week and date of the most recent header line before it |
| `Schedule.EntriesComeFromHeaders` | pkg/parser/parser.go:63-71 | every entry's week and date are those of a week header among the lines read |
| `Schedule.NoHeaderNoEntries` | pkg/parser/parser.go:56-93 | a text without a week header gives no entry |
| `Schedule.ScanOnlyAppends` | pkg/parser/parser.go:89 | entries follow line order: reading more lines only appends |
| `Schedule.HeaderLineAddsNothing` | pkg/parser/parser.go:63-71 | a header line emits nothing and sets the week and date |
| `Schedule.ByeLineAddsOneEntry` | main.go:193-207 | under a week above 0, a BYE line emits exactly one entry, the trimmed team against "BYE", and no matchup of that line |
| `Schedule.ReadersAgreeWithoutBye` | main.go:193-207 | on text with no BYE line the two readers agree |
| `Schedule.ParseScheduleManually` | pkg/parser/parser.go:100-151 | the nested loops build exactly the manual schedule |
| `Schedule.ManualScheduleShape` | pkg/parser/parser.go:117-147 | 104 entries, weeks 1 to 26 in ascending order, four per week |
| `Schedule.ManualEntryTeams` | pkg/parser/parser.go:119-136 | each entry pairs two different teams of the first eight, never "SPEARS N BEERS", dated "Week N, 2024" |
| `Schedule.ManualHomeAwaySwap` | pkg/parser/parser.go:127-133 | consecutive weeks swap home and away |
| `Schedule.ManualWeekDisjoint` | pkg/parser/parser.go:119-133 | within a week no team plays twice |
| `LineParser.IsTeamNameLine` | pkg/parser/parser.go:225-265 | the method decides exactly the team-line test: the trimmed line has 3 to 40 characters and either mentions Bridge Inn in any case, or has a capital letter, no digit unless a '1' or '2', and no statistics word |
| `LineParser.ScanLetterDigit` | pkg/parser/parser.go:240-249 | the loop finds a capital letter and a digit exactly when the line has one |
| `LineParser.CapitalLineIsTeamLine` | pkg/parser/parser.go:253-264 | a short trimmed line in capitals with a '1' or '2' and no 'P' or 'M' passes the team-line test |
| `LineParser.BridgeLineIsTeamLine` | pkg/parser/parser.go:230-236 | a line of fitting length that mentions Bridge Inn in any case is a team line, whatever else it holds |
| `LineParser.BridgeInnRuleDecides` | pkg/parser/parser.go:274-281 | once Bridge Inn is mentioned the rule always decides, and gives team 1 unless there is no '1' and a doubled "I" |
| `LineParser.BridgeInnTwoNamesOne` | pkg/parser/parser.go:276-277 | a name reading "BRIDGE INN 2" is given to team 1, because "BRIDGE INN" holds an "I" |
| `LineParser.BridgeInnOneNamesOne` | pkg/parser/parser.go:276-277 | a name reading "BRIDGE INN 1" is given to team 1 |
| `LineParser.PlainNameLine` | pkg/parser/parser.go:270-274 | a trimmed line without lower-case letters (so without "Team:") is its own name before the venue rules |
| `LineParser.ExtractTeamNameRange` | pkg/parser/parser.go:268-299 | the result is a venue team name, or a name of word characters and spaces that neither starts nor ends with a space |
| `LineParser.CleanNameIsClean` | pkg/parser/parser.go:295-298 | the clean-up keeps only word characters and spaces and trims the ends |
| `LineParser.CleanNameKeepsWords` | pkg/parser/parser.go:295-298 | the clean-up loses no word character: the word characters of the result are those of the name, in order |
| `LineParser.ExtractTeamNameKeepsWords` | pkg/parser/parser.go:268-299 | a name no venue rule decides keeps all its word characters, in order, after "Team:" is removed |
| `LineParser.FirstRating` | pkg/parser/parser.go:320-327 | the search returns the first field from the given index that passes `isPlayerRating`, or -1 when none does |
| `LineParser.ParsePlayerStatsLine` | pkg/parser/parser.go:302-383 | the parse gives exactly the record of the field rules: fewer than 7 fields give the empty record; otherwise the first field is the name, and the numbers follow the rating or sit at fixed places |
| `LineParser.PlayerLineRoundTrip` | pkg/parser/parser.go:302-383 | a record with a one-token name, a rating that passes `isPlayerRating`, non-negative counts and one-token PPD and MPR is read back from its printed line |
| `LineParser.NameIsOneField` | pkg/parser/parser.go:317 | the name is the first field only and holds no space; with a rating in the second field, name and rating are the first two fields |
| `LineParser.SpacedFieldsRead` | pkg/parser/parser.go:317-379 | the fields of `JOHN DOE AA 10 7 2.50 1.20 1 100 50` give name JOHN, rating DOE, games 0, wins 10, PPD "7", MPR "2.50", hat tricks 0, high score 1, high checkout 100 |
| `LineParser.LineCountsMayBeNegative` | pkg/parser/parser.go:337-360 | the line path reads counts unsanitised, so a "-3" field gives -3 games |
| `LineParser.ParseTeamTotalsLine` | pkg/parser/parser.go:411-453 | the parse gives exactly the totals record of the rules: empty unless "Team Totals:", at least 5 fields and 4 non-empty fields after the "Totals:" field |
| `LineParser.TotalsScanFields` | pkg/parser/parser.go:427-438 | the collected data fields are non-empty fields of the line; without a "Totals:" field nothing is collected |
| `LineParser.TotalsRoundTrip` | pkg/parser/parser.go:441-450 | a printed totals line reads back as team "TEAM" with its games, wins, PPD and MPR |
| `LineParser.SanitizeNumberString` | pkg/parser/parser.go:456-465 | the loop keeps exactly the digits and dots of the trimmed text, in order |
| `LineParser.Sanitized` | pkg/parser/parser.go:456-465 | the cleaned text holds only digits and dots |
| `LineParser.SanitizedSubsequence` | pkg/parser/parser.go:456-465 | the cleaned text is a subsequence of the input |
| `LineParser.SanitizeIdempotent` | pkg/parser/parser.go:456-465 | cleaning twice is cleaning once |
| `LineParser.SanitizedCountNonNegative` | pkg/parser/parser.go:689-707 | a count read from a cleaned cell is never negative |
| `TableParser.CellsRecord` | pkg/parser/parser.go:679-708 | a row's record has non-negative counts, the first cell as name, the second as rating, the given team, and PPD and MPR of digits and dots |
| `TableParser.RecordFromCells` | pkg/parser/parser.go:679-708 | the column-by-column build gives that record |
| `TableParser.ReadersAgree` | pkg/parser/parser.go:679-708 | the table reader and the line reader (pkg/parser/parser.go:302-383) agree: the same nine values with digit-and-dot PPD and MPR give the same record, as table cells or as a statistics line, once the line's record gets the row's team |
| `TableParser.CellsOfColumns` | pkg/parser/parser.go:679-708 | a record laid out as the cells of a table row is read back for the row's team |
| `TableParser.SanitizedKeepsNumber` | pkg/parser/parser.go:456-465 | cleaning text made only of digits and dots leaves it as it is |
| `TableParser.ScanHeaders` | pkg/parser/parser.go:602-619 | the header loop gives exactly the header summary |
| `TableParser.HeaderScanFinds` | pkg/parser/parser.go:602-619 | "Player" and "PPD" are found exactly when some header holds them; a team is named exactly when some header mentions Bridge Inn |
| `TableParser.HeaderScanLastBridge` | pkg/parser/parser.go:610-618 | the last header mentioning Bridge Inn names the team |
| `TableParser.ReadRow` | pkg/parser/parser.go:636-716 | one row follows the row rules: a short team-line row sets the team; a row under 7 cells is dropped; otherwise the player part applies |
| `TableParser.ReadPlayerRow` | pkg/parser/parser.go:668-713 | a skipped first cell or a "Combined" name gives no record; any other row appends its record |
| `TableParser.ReadTable` | pkg/parser/parser.go:590-717 | a table gives records only when its headers hold "Player" and "PPD", reading from its second row and starting from the header's team or the default |
| `TableParser.ExtractPlayerStatsFromTable` | pkg/parser/parser.go:583-788 | the records of all player tables in order, or the last-resort row scan when there are none |
| `TableParser.ReadDirectRow` | pkg/parser/parser.go:722-782 | last-resort scan: a row is read when its text avoids "player" and "team totals", names MITCH, STEVE, JOHN or MIKE, and has at least 7 cells |
| `TableParser.TablesScanRecords` | pkg/parser/parser.go:668-713 | every table record has a name that is not empty, not "Combined" and holds neither "Team Totals" nor "player" in any case, no opponent, non-negative counts and cleaned PPD and MPR |
| `TableParser.RowsScanRecords` | pkg/parser/parser.go:636-716 | the row loop keeps that property of the records |
| `TableParser.NonPlayerTableIgnored` | pkg/parser/parser.go:621-624 | a table whose headers miss "Player" or "PPD" gives nothing |
| `TableParser.TeamRowSetsRawText` | pkg/parser/parser.go:645-652 | a short team-line row sets the team to its trimmed text as written, not normalised, and adds no record |
| `TableParser.DirectScanRecords` | pkg/parser/parser.go:748-779 | every last-resort record has non-negative counts and the default team |
| `TableParser.FromTablesRecords` | pkg/parser/parser.go:583-788 | every record of the table reader has non-negative counts, and table records satisfy the table rules |
| `TableParser.DirectRowEmptyName` | pkg/parser/parser.go:736-752 | the last-resort scan does not look at the first cell: a MIKE row with an empty first cell gives a record with an empty name |
| `Extraction.FirstMarkerIndex` | pkg/parser/parser.go:479-501 | -1 exactly when no marker occurs; otherwise the position of the first marker, in list order, that occurs |
| `Extraction.FindStart` | pkg/parser/parser.go:479-501 | the marker loop tries the primary marker, then the alternates in order |
| `Extraction.FirstMarkerFrom` | pkg/parser/parser.go:482-494 | the first marker in the list that occurs is the one used |
| `Extraction.LocateSection` | pkg/parser/parser.go:476-513 | the locator computes the code's cut: none without a start marker; from the marker to the first end marker after it; without an end marker, the slice from the start to the length of the rest of the page, or a panic when those bounds are out of order |
| `Extraction.CutAsWrittenVersusCut` | pkg/parser/parser.go:503-513 | the code's cut and the intended one agree on a missing start marker and whenever an end marker follows; without one, the code panics exactly when the start lies past the middle of the page, and otherwise loses the last `start` characters of the intended section |
| `Extraction.CutAsWrittenLosesTail` | pkg/parser/parser.go:503-513 | on "xa" with start marker "a" the intended section is "a" and the code's is empty; on "xxa" the code panics |
| `Extraction.CutBounds` | pkg/parser/parser.go:503-513 | the intended section is the slice of the page from the start index and never contains the end marker; it ends just before the first end marker after the start, or at the end of the page when none follows |
| `Extraction.CutBeforeFirst` | pkg/parser/parser.go:503-510 | text cut before the first occurrence of a marker does not contain it |
| `Extraction.ReadStatsLine` | pkg/parser/parser.go:532-566 | one line of the fallback follows the rules: team lines set the team; empty, header, rule and totals lines are skipped; other lines with a name add a record |
| `Extraction.ReadStatsLines` | pkg/parser/parser.go:531-567 | the fallback loop gives exactly the fold of those rules over the lines |
| `Extraction.NoTeamTotals` | pkg/parser/parser.go:543-562 | the fallback never yields team totals, since totals lines are skipped first |
| `Extraction.LinePassNamesAreOneField` | pkg/parser/parser.go:549-552 | every fallback record has a non-empty name without spaces |
| `Extraction.CapitalPlayerLineAddsNoPlayer` | pkg/parser/parser.go:536-540 | a short capital line with a '1' or '2' only sets the team and adds no record |
| `Extraction.ReassignTeams` | pkg/parser/parser.go:570-576 | the in-place pass leaves the array equal to the corrected records |
| `Extraction.ReassignedOnlySteve` | pkg/parser/parser.go:570-576 | only records named Steve Wheelock, in any case, change, and only their team; the pass is idempotent |
| `Extraction.LinePassUntouched` | pkg/parser/parser.go:570-576 | the pass never changes a record of the line fallback, whose names are one field |
| `Extraction.Reassign` | pkg/parser/parser.go:570-576 | running the in-place pass on a copy gives the corrected records |
| `Extraction.ExtractPlayerStats` | pkg/parser/parser.go:468-580 | the whole extraction on the code's cut: a panic where the cut panics; nothing without a start marker or when the section cannot be parsed; else the table path, the line fallback when the tables give nothing, then the correction pass |
| `Extraction.AsWrittenAgreesWithEndMarker` | pkg/parser/parser.go:468-580 | when no start marker occurs, or an end marker follows it, the code returns exactly the intended extraction |
| `Extraction.TeamStatsAlwaysEmpty` | pkg/parser/parser.go:543-565 | the team-statistics list is always empty, in the intended extraction and in every run of the code that returns |
| `Extraction.NoMarkerNothing` | pkg/parser/parser.go:497-500 | without any start marker both lists are empty, as intended and as written |
| `Urls.NormalizeURL` | main.go:375-388 | the output holds no space |
| `Urls.NormalizeURLScheme` | main.go:377-381 | a scheme missing a slash is repaired, and a correct scheme is kept |
| `Urls.NormalizeURLIdempotent` | main.go:375-388 | normalising twice is normalising once |
| `Urls.EncodingKeepsScheme` | main.go:385 | encoding spaces neither creates nor destroys a prefix without spaces or '%' |
| `Urls.FixBaseOnlyPrepends` | pkg/scraper/scraper.go:133-142 | the base fix only prepends "https://" to a base without a scheme; the two repair branches never fire |
| `Urls.BaseDir` | pkg/scraper/scraper.go:145-151 | the directory ends in '/', is a prefix of the base plus "/", no '/' of the base lies after it, and when the base's last '/' is not its first character the directory is the base cut just after that '/' |
| `Urls.ResolveRelativeURL` | pkg/scraper/scraper.go:126-155 | an absolute URL is returned unchanged; anything else is appended to a directory of the repaired base that ends in '/' |
| `Urls.ResolvedCutsAtLastSlash` | pkg/scraper/scraper.go:126-155 | the result is always absolute (it starts with "https://" or "http://"), and a relative link is appended to the repaired base cut just after its last '/'; the branch that appends a '/' is never taken |
| `Urls.HostOnlyBase` | pkg/scraper/scraper.go:145-155 | a host-only base resolves to "https://" plus the relative URL, since the last '/' belongs to the scheme |
| `Urls.FindTag` | pkg/scraper/scraper.go:160-161 | the search finds the leftmost "Wk" followed by a digit |
| `Urls.DigitRunEnd` | pkg/scraper/scraper.go:160 | `(\d+)` takes the longest run of digits |
| `Urls.ExtractWeekNumber` | pkg/scraper/scraper.go:159-169 | never negative; 0 without a week tag; otherwise the value of the digits after the leftmost tag |
| `Urls.WeekNumberRoundTrip` | pkg/scraper/scraper.go:159-169 | a URL holding "Wk" and the decimal form of n, with no earlier 'W' and no digit after it, gives n |
| `Urls.WeekZeroIsNoWeek` | pkg/scraper/scraper.go:160-168 | "Wk0" cannot be told from a URL without a week |

## Findings

| source | as written | input that shows it | evidently intended | confidence | as-written member | corrected member |
|---|---|---|---|---|---|---|
| pkg/parser/parser.go:503-513 | without an end marker, `endIndex` is set to the length of the rest of the page and the start index is not added back, so `htmlContent[startIndex:endIndex]` ends `startIndex` bytes short of the page (main.go:699-705 has the same code) | the page "xa" with start marker "a": the section is empty instead of "a"; the page "xxa" panics with slice bounds out of range | the section runs from the start marker to the end of the page, as the comment at line 505 says | high; not executed | `Extraction.CutAsWrittenLosesTail` | `Extraction.CutBounds` |

`Extraction.LocateSection` and `Extraction.ExtractPlayerStats` follow the code as written, panic
included (`CutAsWritten`, `ExtractionAsWritten`). The intended cut (`Cut`, `Section`) and
extraction (`Extraction`) are kept beside them; `CutAsWrittenVersusCut` and
`AsWrittenAgreesWithEndMarker` state where the two agree and how they differ.

## Left out

- I/O is not modelled: HTTP fetching, PDF reading, file writing, the debug dump of the section, logging, console and CSV output, and the command line.
- The goquery HTML parser is not modelled. `ExtractPlayerStats` takes it as a parameter that turns the section into a document or fails. A document is given as its tables (header cells and rows) and all its rows, each row as its cell texts and whole text.
- The regular expressions for week headers, matchups and BYE lines are not modelled as RE2. They are abstract matchers passed in, giving the header's week and date, the matchups' two sides, and the BYE team; only the loop around them is modelled.
- Floating point is not modelled: PPD and MPR are kept as the token that `ParseFloat` would read. `isNumeric`, sorting by PPD and `%.2f` formatting are left out.
- `Atoi` works on unbounded integers, so its out-of-range error is not modelled. Where the source ignores that error, as the readers of counts do, Go's Atoi would clamp the value. In `ExtractWeekNumber`, which checks the error, a week number too large for an `int` would give 0 rather than the number.
- Upper- and lower-casing and `\w` cover ASCII only. White space for `TrimSpace` is the Latin-1 part of `unicode.IsSpace`; U+1680, U+2000 to U+200A, U+2028, U+2029, U+202F, U+205F and U+3000 are not treated as white space.
- Text is a sequence of characters, while Go's `len` counts bytes. The model therefore counts characters in the 3-to-40 length test of `isTeamNameLine` (pkg/parser/parser.go:230) and in the at-most-3 test of `isPlayerRating` (pkg/parser/parser.go:395); these agree with Go only on ASCII text.
- `Teams.NormalizeTeamName` iterates its alias table in one fixed order, while Go iterates a map in any order. The relation `NormalizesTo` allows every order, and the idempotence and case results are proved for every order.
- `Teams.SirJamesDosAmbiguity` states that both values can be the answer for "SIRJAMESPUBDOS", not which one Go returns on a given run.
- `Extraction.CutBounds` does not prove that the section starts with the chosen marker, only that it is the slice of the page from the marker's position.
- The duplicates in `main.go` of the parser functions are modelled once; only its BYE handling and `NormalizeURL` are separate members.
- `ReadPDFText`, `isNumeric`, `ProcessStandingsPage`, `FetchURL`, `ExtractStandingsLinks` and the rest of `main.go`'s driver are not part of this model.
