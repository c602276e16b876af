/** The records the core works on: play-by-play events, stints on court, lineup rows. */
module Records {
  import opened Wrappers
  import opened Clock

  /** Category code of a substitution. */
  const Substitution: nat := 8
  /** Category code of the end of a period. */
  const PeriodEnd: nat := 13
  /** Categories up to this code are plays whose participants are on court. */
  const LastPlayCategory: nat := 5

  /**
   * One row of the play-by-play table. Participant ids are nullable; only the first
   * participant's team is read by the core.
   */
  datatype Event = Event(
    gameId: nat,
    eventNum: nat,
    period: nat,
    clock: PlayClock,
    category: nat,
    player1: Option<nat>,
    player1Team: Option<nat>,
    player2: Option<nat>,
    player3: Option<nat>)

  /** A closed stint on court: checked in at `timeIn`, out at `timeOut` (times remaining). */
  datatype Interval = Interval(playerId: nat, teamId: nat, timeIn: nat, timeOut: nat)

  /** One row of the lineup table: the five players of each side at one event. */
  datatype LineupRow = LineupRow(gameId: nat, eventNum: nat, home: seq<nat>, visitor: seq<nat>)

  /** What one game is played between: the two rosters and the two team ids. */
  datatype Game = Game(homeRoster: seq<nat>, visitorRoster: seq<nat>, homeId: nat, visitorId: nat)

  /** The ways the original pipeline aborts. */
  datatype Error =
    | MissingPlayer(eventNum: nat)          // a null participant used as a time-bank key
    | UnknownPlayer(playerId: nat)          // a participant in neither roster used as a key
    | NotCheckedIn(playerId: nat)           // a player on court at period end without a check-in
    | UnclosedInterval(playerId: nat)       // check-in and check-out lists of unequal length
    | LineupSizeMismatch(teamId: nat, index: nat)  // not exactly five players found

  /** The event's clock as time remaining in the game. */
  function GameTimeRemaining(e: Event): nat
  {
    PlayClockToSeconds(e.clock, e.period).gameTimeRemaining
  }

  /** The team a roster player belongs to: home if on the home roster, visitor otherwise. */
  function TeamOf(g: Game, p: nat): (team: nat)
    ensures p in g.homeRoster ==> team == g.homeId
    ensures DisjointRosters(g) && p in g.visitorRoster ==> team == g.visitorId
  {
    if p in g.homeRoster then g.homeId else g.visitorId
  }

  predicate DisjointRosters(g: Game)
  {
    forall p :: p in g.homeRoster ==> p !in g.visitorRoster
  }

  predicate NoDup(s: seq<nat>)
  {
    forall i, j :: 0 <= i < j < |s| ==> s[i] != s[j]
  }
}
