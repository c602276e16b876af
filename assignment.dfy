/**
 * Lineup assignment: for every event of the sorted log, the five players of each
 * side on court, read off the table of stints by comparing each stint with the
 * event's time remaining. A stint [timeIn, timeOut] counts down, so a stint
 * "covers" an instant t when timeOut <= t <= timeIn.
 */
module Assignment {
  import opened Wrappers
  import opened Clock
  import opened Records

  /** The number of players a side has on court. */
  const LineupSize: nat := 5

  /** The four ways an event's instant is compared with a stint. */
  datatype Rule =
    | EndsAt          // the stint ends at the instant (period end)
    | AfterSwap       // the stint started at or before the instant and goes on past it (substitution)
    | Covers          // the instant lies in the closed stint (other events)
    | CoversAfterStart  // as Covers, but not a stint that starts at the instant (tie-break)

  predicate Holds(rule: Rule, t: nat, iv: Interval)
  {
    match rule
    case EndsAt => iv.timeOut == t
    case AfterSwap => iv.timeIn >= t && iv.timeOut < t
    case Covers => iv.timeIn >= t && iv.timeOut <= t
    case CoversAfterStart => iv.timeIn > t && iv.timeOut <= t
  }

  /** The stints of `team` that satisfy `rule` at `t`, in table order. */
  function Select(ivs: seq<Interval>, team: nat, rule: Rule, t: nat): seq<Interval>
  {
    if |ivs| == 0 then []
    else
      var rest := Select(ivs[1..], team, rule, t);
      if ivs[0].teamId == team && Holds(rule, t, ivs[0]) then [ivs[0]] + rest else rest
  }

  /** A selection holds exactly the stints of the team that satisfy the rule. */
  lemma {:induction false} SelectMembers(ivs: seq<Interval>, team: nat, rule: Rule, t: nat)
    ensures forall iv :: iv in Select(ivs, team, rule, t) <==> iv in ivs && iv.teamId == team && Holds(rule, t, iv)
  {
    if |ivs| > 0 {
      assert ivs == [ivs[0]] + ivs[1..];
      SelectMembers(ivs[1..], team, rule, t);
    }
  }

  /** A selection takes each stint at most as often as the table holds it. */
  lemma {:induction false} SelectSubMultiset(ivs: seq<Interval>, team: nat, rule: Rule, t: nat)
    ensures multiset(Select(ivs, team, rule, t)) <= multiset(ivs)
  {
    if |ivs| > 0 {
      assert ivs == [ivs[0]] + ivs[1..];
      SelectSubMultiset(ivs[1..], team, rule, t);
    }
  }

  /** Selecting by a rule that implies another can be done on the other's selection. */
  lemma {:induction false} TieBreakNarrowsCovers(ivs: seq<Interval>, team: nat, t: nat)
    ensures Select(ivs, team, CoversAfterStart, t) == Select(Select(ivs, team, Covers, t), team, CoversAfterStart, t)
  {
    if |ivs| > 0 {
      TieBreakNarrowsCovers(ivs[1..], team, t);
    }
  }

  /** What the tie-break drops: exactly the covering stints that begin at the instant. */
  lemma TieBreakDrops(ivs: seq<Interval>, team: nat, t: nat, iv: Interval)
    requires iv in Select(ivs, team, Covers, t)
    ensures iv !in Select(ivs, team, CoversAfterStart, t) <==> iv.timeIn == t
  {
    SelectMembers(ivs, team, Covers, t);
    SelectMembers(ivs, team, CoversAfterStart, t);
  }

  /** The player id of each stint, in order. */
  function Ids(rows: seq<Interval>): seq<nat>
  {
    seq(|rows|, k requires 0 <= k < |rows| => rows[k].playerId)
  }

  /** The rule an event is read with, before any tie-break. */
  function RuleFor(ev: Event): Rule
  {
    if ev.category == PeriodEnd then EndsAt
    else if ev.category == Substitution then AfterSwap
    else Covers
  }

  /**
   * The stints of `team` on court at `ev`. For an ordinary event, when more than five
   * stints cover the instant, those that begin at it are dropped.
   */
  function OnCourtStints(ivs: seq<Interval>, team: nat, ev: Event): seq<Interval>
  {
    var t := GameTimeRemaining(ev);
    var rows := Select(ivs, team, RuleFor(ev), t);
    if RuleFor(ev) == Covers && |rows| > LineupSize then Select(ivs, team, CoversAfterStart, t) else rows
  }

  /**
   * Every stint read at an event is one of the team's stints. At a period end or a
   * substitution they are exactly the team's stints that satisfy the event's rule;
   * at any other event each of them covers the instant, and all covering stints are
   * read unless more than five cover it.
   */
  lemma OnCourtStintsSound(ivs: seq<Interval>, team: nat, ev: Event)
    ensures forall iv :: iv in OnCourtStints(ivs, team, ev) ==> iv in ivs && iv.teamId == team
    ensures RuleFor(ev) != Covers ==>
      forall iv :: iv in OnCourtStints(ivs, team, ev) <==>
        iv in ivs && iv.teamId == team && Holds(RuleFor(ev), GameTimeRemaining(ev), iv)
    ensures RuleFor(ev) == Covers ==>
      forall iv :: iv in OnCourtStints(ivs, team, ev) ==> Holds(Covers, GameTimeRemaining(ev), iv)
    ensures RuleFor(ev) == Covers && |Select(ivs, team, Covers, GameTimeRemaining(ev))| <= LineupSize ==>
      OnCourtStints(ivs, team, ev) == Select(ivs, team, Covers, GameTimeRemaining(ev))
  {
    var t := GameTimeRemaining(ev);
    SelectMembers(ivs, team, RuleFor(ev), t);
    SelectMembers(ivs, team, CoversAfterStart, t);
  }

  /** The player ids of `team` on court at `ev`. */
  function OnCourtPlayers(ivs: seq<Interval>, team: nat, ev: Event): seq<nat>
  {
    Ids(OnCourtStints(ivs, team, ev))
  }

  /**
   * A stint strictly inside an ordinary event's instant is always read, tie-break
   * or not: its player is listed on court.
   */
  lemma InteriorStintListed(ivs: seq<Interval>, ev: Event, iv: Interval)
    requires RuleFor(ev) == Covers && iv in ivs
    requires iv.timeOut <= GameTimeRemaining(ev) < iv.timeIn
    ensures iv.playerId in OnCourtPlayers(ivs, iv.teamId, ev)
  {
    var r := OnCourtStints(ivs, iv.teamId, ev);
    OnCourtStintsSound(ivs, iv.teamId, ev);
    SelectMembers(ivs, iv.teamId, Covers, GameTimeRemaining(ev));
    SelectMembers(ivs, iv.teamId, CoversAfterStart, GameTimeRemaining(ev));
    assert iv in r;
    var k :| 0 <= k < |r| && r[k] == iv;
    assert OnCourtPlayers(ivs, iv.teamId, ev)[k] == iv.playerId;
  }

  /** At a substitution the incoming stint is read and the outgoing one is not. */
  lemma SubstitutionReadsIncoming(ivs: seq<Interval>, ev: Event, incoming: Interval, outgoing: Interval)
    requires ev.category == Substitution && incoming in ivs && outgoing in ivs
    requires incoming.timeIn == GameTimeRemaining(ev) > incoming.timeOut
    requires outgoing.timeOut == GameTimeRemaining(ev)
    ensures incoming in OnCourtStints(ivs, incoming.teamId, ev)
    ensures outgoing !in OnCourtStints(ivs, outgoing.teamId, ev)
  {
    OnCourtStintsSound(ivs, incoming.teamId, ev);
    OnCourtStintsSound(ivs, outgoing.teamId, ev);
  }

  /** Both sides have exactly five players at `ev`. */
  predicate FullLineups(ivs: seq<Interval>, homeId: nat, visitorId: nat, ev: Event)
  {
    |OnCourtPlayers(ivs, homeId, ev)| == LineupSize && |OnCourtPlayers(ivs, visitorId, ev)| == LineupSize
  }

  /** `i` is the first event at which a side does not have five players. */
  predicate FirstShortfall(ivs: seq<Interval>, homeId: nat, visitorId: nat, pbp: seq<Event>, i: nat)
  {
    i < |pbp| && !FullLineups(ivs, homeId, visitorId, pbp[i]) &&
    forall k :: 0 <= k < i ==> FullLineups(ivs, homeId, visitorId, pbp[k])
  }

  /** The lineup row of `ev`. */
  function RowFor(ivs: seq<Interval>, homeId: nat, visitorId: nat, ev: Event): LineupRow
  {
    LineupRow(ev.gameId, ev.eventNum, OnCourtPlayers(ivs, homeId, ev), OnCourtPlayers(ivs, visitorId, ev))
  }

  /**
   * The lineup row of one event, home side first, or the team that does not have
   * exactly five players.
   */
  method EventLineups(subs: seq<Interval>, ev: Event, homeId: nat, visitorId: nat)
    returns (r: Result<LineupRow, nat>)
    ensures r.Ok? <==> FullLineups(subs, homeId, visitorId, ev)
    ensures r.Ok? ==> r.value == RowFor(subs, homeId, visitorId, ev)
    ensures r.Err? ==> r.error == ShortSide(subs, homeId, visitorId, ev)
  {
    var teams := [homeId, visitorId];
    var lineups: seq<seq<nat>> := [];
    var j := 0;
    while j < |teams|
      invariant j <= |teams| && |lineups| == j
      invariant forall m :: 0 <= m < j ==> lineups[m] == OnCourtPlayers(subs, teams[m], ev)
      invariant forall m :: 0 <= m < j ==> |lineups[m]| == LineupSize
    {
      var onCourt := OnCourtPlayers(subs, teams[j], ev);
      if |onCourt| != LineupSize {
        if j == 1 {
          assert lineups[0] == OnCourtPlayers(subs, homeId, ev);
        }
        return Err(teams[j]);
      }
      lineups := lineups + [onCourt];
      j := j + 1;
    }
    assert lineups[0] == OnCourtPlayers(subs, homeId, ev) && lineups[1] == OnCourtPlayers(subs, visitorId, ev);
    r := Ok(LineupRow(ev.gameId, ev.eventNum, lineups[0], lineups[1]));
  }

  /** The side named when an event's lineups are not full: home if it is short, else the visitors. */
  function ShortSide(ivs: seq<Interval>, homeId: nat, visitorId: nat, ev: Event): nat
  {
    if |OnCourtPlayers(ivs, homeId, ev)| != LineupSize then homeId else visitorId
  }

  /** What one event contributes to the table: its row, or the side that is short. */
  function EventOutcome(ivs: seq<Interval>, homeId: nat, visitorId: nat, ev: Event): Result<LineupRow, nat>
  {
    if FullLineups(ivs, homeId, visitorId, ev) then Ok(RowFor(ivs, homeId, visitorId, ev))
    else Err(ShortSide(ivs, homeId, visitorId, ev))
  }

  /** The per-event outcome of a game's stints, as a value the table is folded with. */
  function Outcomes(ivs: seq<Interval>, homeId: nat, visitorId: nat): Event -> Result<LineupRow, nat>
  {
    ev => EventOutcome(ivs, homeId, visitorId, ev)
  }

  /**
   * The lineup table of the events: the rows of the events, in order, or a failure
   * at the first event whose outcome names a short side.
   */
  function LineupTable(pbp: seq<Event>, outcome: Event -> Result<LineupRow, nat>): Result<seq<LineupRow>, Error>
    decreases |pbp|
  {
    if |pbp| == 0 then Ok([])
    else
      var i := |pbp| - 1;
      match LineupTable(pbp[..i], outcome)
      case Err(e) => Err(e)
      case Ok(rows) =>
        match outcome(pbp[i])
        case Ok(row) => Ok(rows + [row])
        case Err(team) => Err(LineupSizeMismatch(team, i))
  }

  /**
   * The table succeeds exactly when every event yields a row, and then holds one
   * row per event, in order.
   */
  lemma {:induction false} LineupTableRows(pbp: seq<Event>, outcome: Event -> Result<LineupRow, nat>)
    ensures LineupTable(pbp, outcome).Ok? <==> forall k :: 0 <= k < |pbp| ==> outcome(pbp[k]).Ok?
    ensures LineupTable(pbp, outcome).Ok? ==>
      var rows := LineupTable(pbp, outcome).value;
      |rows| == |pbp| && forall k :: 0 <= k < |pbp| ==> Ok(rows[k]) == outcome(pbp[k])
    decreases |pbp|
  {
    if |pbp| > 0 {
      var i := |pbp| - 1;
      assert forall k :: 0 <= k < i ==> pbp[..i][k] == pbp[k];
      LineupTableRows(pbp[..i], outcome);
    }
  }

  /** A failing table fails at the first event without a row, naming the side its outcome names. */
  lemma {:induction false} LineupTableFailure(pbp: seq<Event>, outcome: Event -> Result<LineupRow, nat>)
    ensures LineupTable(pbp, outcome).Err? ==>
      var e := LineupTable(pbp, outcome).error;
      e.LineupSizeMismatch? && e.index < |pbp| && outcome(pbp[e.index]) == Err(e.teamId) &&
      forall k :: 0 <= k < e.index ==> outcome(pbp[k]).Ok?
    decreases |pbp|
  {
    if |pbp| > 0 {
      var i := |pbp| - 1;
      assert forall k :: 0 <= k < i ==> pbp[..i][k] == pbp[k];
      LineupTableFailure(pbp[..i], outcome);
      LineupTableRows(pbp[..i], outcome);
    }
  }

  /**
   * For a game's stints: the table succeeds exactly when both sides have five
   * players at every event, and then holds each event's row in order; otherwise it
   * fails at the first shortfall, naming the home side if it is short and the
   * visitors otherwise.
   */
  lemma AssignmentTable(ivs: seq<Interval>, homeId: nat, visitorId: nat, pbp: seq<Event>)
    ensures LineupTable(pbp, Outcomes(ivs, homeId, visitorId)).Ok? <==>
      forall k :: 0 <= k < |pbp| ==> FullLineups(ivs, homeId, visitorId, pbp[k])
    ensures LineupTable(pbp, Outcomes(ivs, homeId, visitorId)).Ok? ==>
      var rows := LineupTable(pbp, Outcomes(ivs, homeId, visitorId)).value;
      |rows| == |pbp| && forall k :: 0 <= k < |pbp| ==> rows[k] == RowFor(ivs, homeId, visitorId, pbp[k])
    ensures LineupTable(pbp, Outcomes(ivs, homeId, visitorId)).Err? ==>
      var e := LineupTable(pbp, Outcomes(ivs, homeId, visitorId)).error;
      e.LineupSizeMismatch? && FirstShortfall(ivs, homeId, visitorId, pbp, e.index) &&
      e.teamId == ShortSide(ivs, homeId, visitorId, pbp[e.index])
  {
    var outcome := Outcomes(ivs, homeId, visitorId);
    LineupTableRows(pbp, outcome);
    LineupTableFailure(pbp, outcome);
    assert forall k :: 0 <= k < |pbp| ==> outcome(pbp[k]) == EventOutcome(ivs, homeId, visitorId, pbp[k]);
  }

  /** The table is built event by event, stopping at the first shortfall. */
  method AssignPlayersOnCourt(subs: seq<Interval>, pbp: seq<Event>, homeId: nat, visitorId: nat)
    returns (r: Result<seq<LineupRow>, Error>)
    ensures r == LineupTable(pbp, Outcomes(subs, homeId, visitorId))
  {
    var rows: seq<LineupRow> := [];
    var i := 0;
    while i < |pbp|
      invariant i <= |pbp|
      invariant LineupTable(pbp[..i], Outcomes(subs, homeId, visitorId)) == Ok(rows)
    {
      assert pbp[..i + 1][..i] == pbp[..i];
      var row := EventLineups(subs, pbp[i], homeId, visitorId);
      if row.Err? {
        LineupFailureSticks(pbp, Outcomes(subs, homeId, visitorId), i + 1, LineupSizeMismatch(row.error, i));
        return Err(LineupSizeMismatch(row.error, i));
      }
      rows := rows + [row.value];
      i := i + 1;
    }
    assert pbp[..i] == pbp;
    r := Ok(rows);
  }

  /** Once the table has failed on a prefix of the events it fails the same way on all of them. */
  lemma {:induction false} LineupFailureSticks(pbp: seq<Event>, outcome: Event -> Result<LineupRow, nat>, k: nat, e: Error)
    requires k <= |pbp| && LineupTable(pbp[..k], outcome) == Err(e)
    ensures LineupTable(pbp, outcome) == Err(e)
    decreases |pbp| - k
  {
    if k < |pbp| {
      assert pbp[..k + 1][..k] == pbp[..k];
      LineupFailureSticks(pbp, outcome, k + 1, e);
    } else {
      assert pbp[..k] == pbp;
    }
  }
}
