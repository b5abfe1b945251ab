/** The records of the league data: one player's line of statistics, a team's totals, one
    scheduled match, and the bundle produced for one week.

    PPD (points per dart) and MPR (marks per round) are floating-point numbers in the system.
    Here each holds the token that was handed to the float parser; its value is the number that
    token spells, or 0 when it does not parse.  The empty token therefore stands for 0, which is
    also the value of a field the parser never set. */
module Models {

  datatype PlayerStat = PlayerStat(
    playerName: string,
    team: string,
    opponent: string,
    sancPd: string,       // sanction rating, such as "A" or "AA"
    gamesPlayed: int,
    gamesWon: int,
    ppd: string,
    mpr: string,
    hatTricks: int,
    highScore: int,
    highCheckout: int)

  datatype TeamStat = TeamStat(
    teamName: string,
    gamesPlayed: int,
    gamesWon: int,
    ppd: string,
    mpr: string)

  datatype MatchSchedule = MatchSchedule(
    week: int,
    date: string,
    homeTeam: string,
    awayTeam: string)

  datatype WeeklyStats = WeeklyStats(
    week: int,
    playerStats: seq<PlayerStat>,
    teamStats: seq<TeamStat>)

  /** The zero value of a player record: what a parser returns when it rejects a line. */
  const NoPlayer := PlayerStat("", "", "", "", 0, 0, "", "", 0, 0, 0)

  /** The zero value of a team record. */
  const NoTeam := TeamStat("", 0, 0, "", "")

  /** Every whole-number field of a player record is at least zero. */
  predicate NonNegativeCounts(p: PlayerStat) {
    p.gamesPlayed >= 0 && p.gamesWon >= 0 && p.hatTricks >= 0 && p.highScore >= 0 &&
    p.highCheckout >= 0
  }
}
