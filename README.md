# WNBA playing time: who is on court, modelled in Dafny

The model covers the core of `utils.py` in the wnba-playing-time project. That code
reconstructs which five players of each team were on court at every play-by-play
event. It has three parts:

- **Clock normalisation** (`play_clock_to_seconds`). A play clock `"M:SS"` and a
  period give two numbers: the time left in the game, and the value that number had
  when the period began. Regulation periods last ten minutes. An overtime lasts five
  minutes and is counted on its own.
- **The time-bank pass** (`process_pbp_data`). The log is sorted by time left
  (descending), then period, then event number. One pass over the sorted log keeps
  these pieces of state:
  - the home and visitor on-court lists;
  - a period counter;
  - for each roster player, a record holding playing time, an optional open
    check-in, the check-in and check-out lists, and the period of each check-out.

  Events are handled by category:
  - A substitution (8) swaps two players.
  - A period end (13) checks everybody out.
  - A play (categories up to 5) puts any named participant who is not yet on court
    on court, checked in at the start of the period.

  At the end the paired check-in/check-out lists are flushed into a table of stints
  `(player, team, time in, time out)`.
- **Lineup assignment** (`assign_players_on_court`). For each event and each team,
  the stints are filtered by a rule that depends on the event category. For an
  ordinary event there is a tie-break when more than five stints match. The
  assignment fails unless exactly five remain.

All times are integers counting tenths of a second: "5:30" is 3300, and a regulation
period is 6000. The original computes in (float) seconds. Every failure of the
original is an `Err` value of `Result`:
- a `KeyError` on a null or unknown player id;
- a `TypeError` from subtracting from a missing check-in;
- a table built from lists of unequal length;
- the lineup-size assertion.

Modules:
- `Wrappers` holds `Option` and `Result`.
- `Clock` holds the conversion and the splitting of the clock string.
- `Records` holds events, stints, lineup rows and errors.
- `Sequencer` holds the sort key and the sort.
- `TimeBank` holds the pass as pure functions: `Step` on one event, and `Run` folding
  `Step` over the log.
- `Intervals` holds the flush and the whole of `process_pbp_data` as a function
  (`Processed`).
- `Invariants` holds the state invariant, and the accounting theorem for well-formed
  logs.
- `Pass` is the imperative pass. It has local lists, a counter and a bank, updated in
  loops, and is proved equal to `Processed`.
- `Assignment` holds the lineup rules and the imperative table builder.

## Model

| member | source | states |
|---|---|---|
| `Clock.PlayClockToSeconds` | utils.py:10-37 | the drop from the period-start value is the time already played in the period; the period-start value is 6000·(5−period) in regulation and 3000 in every overtime; a clock within its period lands between the period's start and end |
| `Clock.RegulationChronology` | utils.py:29-37 | within regulation an earlier period never has less time remaining than a later one, and they tie only at the shared boundary instant (0:00 of one, 10:00 of the next) |
| `Clock.OvertimeIgnoresWhichOvertime` | utils.py:33-37 | every overtime gives the same pair for the same clock, and the time remaining is just the clock |
| `Clock.SecondPeriodExample` | utils.py:26-37 | "5:30" in period 2 gives 1530.0 s remaining and 1800.0 s at period start |
| `Clock.SecondOvertimeExample` | utils.py:26-37 | "0:00" in period 6 gives 0 remaining and 300.0 s at period start |
| `Clock.ParseClock` | utils.py:22-27 | a clock is read only if it contains ':' (the original then indexes the second field of the split) |
| `Clock.ParseClockFields` | utils.py:22-27 | a digit minutes field, ':' and a seconds field without ':' are read as those two fields, and fail exactly when the seconds field does |
| `Clock.ParseFormatSeconds` | utils.py:22-27 | a seconds field written "S.t" contains no ':' and reads back as the same number of tenths |
| `Clock.ParseFormatRoundTrip` | utils.py:22-27 | writing a clock as "M:S.t" and splitting it at ':' gives the same minutes and tenths back |
| `Clock.ParseWholeSeconds` | utils.py:22-27 | "M:SS" with plain digit fields is read as M minutes and SS seconds |
| `Sequencer.Insert` | utils.py:63 | inserting into a sorted sequence keeps it sorted by the three-part key and adds exactly that event |
| `Sequencer.SortEvents` | utils.py:62-63 | the processing order is sorted by time remaining descending, then period, then event number, and is a permutation of the input |
| `Sequencer.SortedRegulationChronological` | utils.py:62-63 | in the sorted log, two regulation events never go back to an earlier period |
| `Sequencer.OvertimeInterleaves` | utils.py:62-63 | a 4:00 overtime play sorts before a 1:00 fourth-period play, so the key is not chronological across the overtime boundary |
| `TimeBank.InitialState` | utils.py:56-68 | the pass starts with empty lists, period 1 and a record for every roster player |
| `TimeBank.Close` | utils.py:89-96 | closing a stint: stated by `Invariants.CloseBalanced`, which keeps counts and playing time equal to the sum of closed pairs |
| `TimeBank.CheckOut` | utils.py:88-96 | the outgoing player's check-out, from an open check-in or from the period start: stated by `Invariants.CheckOutBalanced` and `Invariants.ImplicitStarterCheckOut` |
| `TimeBank.CheckIn` | utils.py:99-100 | the incoming player's check-in: stated by `Invariants.CheckInBalanced` |
| `TimeBank.AddIfAbsent` | utils.py:76-84 | append-if-absent: stated by `TimeBank.AddIfAbsentMembers` |
| `TimeBank.RemoveFirst` | utils.py:75-76 | removing the outgoing player takes exactly one occurrence off the list |
| `TimeBank.RemoveFirstMembers` | utils.py:75-76 | on a list without duplicates, removing the outgoing player leaves exactly the other players, still without duplicates |
| `TimeBank.AddIfAbsentMembers` | utils.py:83-85 | appending the incoming player only when absent keeps the list without duplicates and adds exactly that player |
| `TimeBank.SwapLists` | utils.py:73-85 | after the swap the incoming player is on the list; when the old list has no duplicates, the new one has none and holds exactly the old players other than the outgoing one, plus the incoming one |
| `TimeBank.SubstitutionStep` | utils.py:73-100 | fails exactly when a participant is null or has no record; otherwise the tagged team's list is swapped and the other list is unchanged; the outgoing player is checked out (from the period start if never checked in), the incoming player is checked in at t, and every other record is unchanged |
| `TimeBank.CloseAll` | utils.py:103-107 | the period-end closing loop: stated by `TimeBank.CloseAllSpec` |
| `TimeBank.CloseAllSpec` | utils.py:103-107 | succeeds exactly when the players are distinct and each has an open check-in; then each listed player's stint is closed at t in the current period and every other record is unchanged |
| `TimeBank.PeriodEndStep` | utils.py:101-111 | after a period end both lists are empty and the period has advanced by one |
| `TimeBank.DiscoverOne` | utils.py:113-123 | a null participant changes nothing; a roster player not on their list joins it and is checked in at the period start; lists keep no duplicates |
| `TimeBank.Discover` | utils.py:112-123 | after a play the home list is the old list plus the named home roster players (the visitor list likewise, when rosters are disjoint); exactly the newcomers are checked in and every other record is unchanged |
| `TimeBank.Step` | utils.py:70-123 | one event keeps the bank's keys, advances the period only at a period end, and leaves the state unchanged for any category other than 8, 13 and those up to 5 |
| `TimeBank.Run` | utils.py:70-123 | the pass keeps the bank's keys and ends in the starting period plus the number of period ends |
| `TimeBank.RunFailureSticks` | utils.py:70-123 | a failure part-way through the log is the failure of the whole pass |
| `Intervals.Dedup` | utils.py:66-68 | the flush order holds exactly the roster players, each once |
| `Intervals.FirstPos` | utils.py:66-68 | the position of a value's first occurrence, or the length when absent |
| `Intervals.DedupFirstSeen` | utils.py:66-126 | the flush order follows first-seen order: a player listed earlier first appears earlier in the rosters, as the bank dictionary's insertion order gives |
| `Intervals.FlushPlayers` | utils.py:125-139 | the flush fails exactly when some player's check-in and check-out lists differ in length; every stint it emits belongs to a listed player and carries that player's team (home if on the home roster) |
| `Records.TeamOf` | utils.py:127-130 | a home roster player is tagged with the home id; with disjoint rosters a visitor roster player gets the visitor id |
| `Intervals.Zip` | utils.py:131-138 | one player's stints, i-th check-in with i-th check-out: stated by `Intervals.ZipDuration` and `Intervals.FlushEmitsZippedPairs` |
| `Intervals.ZipDuration` | utils.py:125-139 | the durations of a player's zipped stints add up to the sum of their check-in minus check-out pairs |
| `Intervals.FlushEmitsZippedPairs` | utils.py:125-139 | the stints of a player in the flushed table are exactly that player's zipped pairs, tagged with their team, and nothing for unlisted players |
| `Intervals.Processed` | utils.py:40-141 | the log returned alongside the stints is sorted by the key and a permutation of the input |
| `Invariants.StepKeepsNoDup` | utils.py:73-123 | every event, well formed or not, keeps both on-court lists free of duplicates |
| `Invariants.RunKeepsNoDup` | utils.py:70-123 | over any log the pass either fails or ends with both on-court lists free of duplicates |
| `Invariants.DiscoverKeepsTimeInLast` | utils.py:112-123 | plays keep every open check-in equal to the last entry of its check-in list |
| `Invariants.StepKeepsTimeInLast` | utils.py:70-123 | every event keeps an open check-in equal to the last check-in logged |
| `Invariants.RunKeepsTimeInLast` | utils.py:70-123 | over any log, an open check-in is always the last check-in logged |
| `Invariants.CloseBalanced` | utils.py:104-107 | closing an open stint keeps the record balanced: one check-out and one period per closed pair, and playing time equal to the sum of the closed pairs |
| `Invariants.CheckOutBalanced` | utils.py:87-96 | checking out, from an open check-in or from the period start, keeps playing time equal to the sum of closed pairs and leaves no open check-in |
| `Invariants.CheckInBalanced` | utils.py:99-100 | a check-in leaves one open pair and the banked playing time unchanged |
| `Invariants.InitialInv` | utils.py:56-68 | the initial state satisfies the invariant when the rosters are disjoint |
| `Invariants.SubstitutionKeepsInv` | utils.py:73-100 | a well-formed substitution succeeds and keeps the invariant: lists without duplicates and within their rosters, check-ins open exactly for players on court, playing time equal to the closed pairs |
| `Invariants.PeriodEndKeepsInv` | utils.py:101-111 | a period end in an invariant state always succeeds, keeps the invariant and leaves nobody checked in |
| `Invariants.DiscoverKeepsInv` | utils.py:112-123 | plays keep the invariant |
| `Invariants.StepKeepsInv` | utils.py:70-123 | a well-formed event succeeds and keeps the invariant |
| `Invariants.RunKeepsInv` | utils.py:70-123 | a well-formed log is processed without failure and keeps the invariant throughout |
| `Invariants.WellFormedGameAccounting` | utils.py:40-141 | a well-formed log ending in a period end is processed without failure; nobody is left on court; each player's flushed stints are exactly their zipped pairs, whose durations add up to their banked playing time |
| `Invariants.ImplicitStarterCheckOut` | utils.py:87-100 | a starter never checked in and subbed out at 1500.0 s in period 2 banks 300.0 s and gets the stint (1800.0, 1500.0) |
| `Pass.NewBank` | utils.py:66-68 | the loop builds an empty record for exactly the roster players |
| `Pass.Substitute` | utils.py:73-100 | the imperative substitution branch computes exactly `SubstitutionStep` |
| `Pass.CloseOnCourt` | utils.py:101-107 | the period-end loop over both lists computes exactly `CloseAll`, stopping at the first failure |
| `Pass.DiscoverParticipants` | utils.py:112-123 | the loop over the three participants computes exactly `Discover` |
| `Pass.Flush` | utils.py:125-139 | the flush loop computes exactly `FlushPlayers`, stopping at the first player whose lists differ in length |
| `Pass.ApplyEvent` | utils.py:70-123 | the branch on the event category computes exactly `Step` |
| `Pass.RunPass` | utils.py:70-123 | the loop over the sorted log computes exactly `Run` from the initial state, stopping at the first failing event |
| `Pass.ProcessPbpData` | utils.py:40-141 | the imperative pass returns exactly `Processed`: the stints and the log, sorted and a permutation of the input, or the first failure |
| `Assignment.Select` | utils.py:160-177 | one boolean mask over the stint table, in table order: stated by `Assignment.SelectMembers` and `Assignment.SelectSubMultiset` |
| `Assignment.OnCourtStints` | utils.py:160-179 | the stints read for a team at an event: stated by `Assignment.OnCourtStintsSound` |
| `Assignment.SelectMembers` | utils.py:160-177 | a selection holds exactly the team's stints that satisfy the rule |
| `Assignment.SelectSubMultiset` | utils.py:160-177 | a selection takes each stint at most as often as the table holds it |
| `Assignment.TieBreakNarrowsCovers` | utils.py:174-177 | the tie-break selection is the covering selection narrowed further, in table order |
| `Assignment.TieBreakDrops` | utils.py:174-177 | the tie-break drops exactly the covering stints that begin at the event's instant |
| `Assignment.OnCourtStintsSound` | utils.py:160-179 | every stint read belongs to the team; at a period end they are exactly the stints ending at t; at a substitution they are exactly those with time in ≥ t > time out; otherwise each covers t, and all covering stints are read when at most five cover it |
| `Assignment.InteriorStintListed` | utils.py:170-179 | for an ordinary event, a stint with time in > t ≥ time out is always listed, tie-break or not |
| `Assignment.SubstitutionReadsIncoming` | utils.py:166-169 | at a substitution, the stint starting at t is read and the stint ending at t is not |
| `Assignment.EventLineups` | utils.py:159-196 | one event yields a row with both lineups, home first, exactly when both sides have five players; otherwise it names the first side that does not |
| `Assignment.LineupTable` | utils.py:157-200 | the table folded over the events: stated by `Assignment.LineupTableRows`, `Assignment.LineupTableFailure` and `Assignment.AssignmentTable` |
| `Assignment.LineupTableRows` | utils.py:157-200 | for any per-event outcome, the table succeeds exactly when every event yields a row, and then holds one row per event, in order |
| `Assignment.LineupTableFailure` | utils.py:158-181 | for any per-event outcome, a failing table fails at the first event without a row, at that event's position, naming the side the outcome names |
| `Assignment.AssignmentTable` | utils.py:157-200 | for a game's stints, the table succeeds exactly when both sides have five players at every event and then holds each event's row (game id, event number, home lineup, visitor lineup) in order; otherwise it fails at the first shortfall, naming home if home is short and the visitors otherwise |
| `Assignment.AssignPlayersOnCourt` | utils.py:143-200 | the loop over the events computes exactly `LineupTable` with each event's outcome from the stints |

## Left out

- `main.py` and its data-ingest module are not part of this model. The rosters, the team ids and the log are inputs.
- pandas mechanics are modelled as operations on sequences of records:
  - `sort_values`/`reset_index` become an insertion sort;
  - `iterrows` becomes a loop;
  - DataFrame construction and `concat` become appending zipped stints;
  - the home/visitor `merge` becomes pairing the two lineups in one row.
- The clock arrives as `PlayClock(minutes, tenths)`. `Clock.ParseClock` models splitting the clock string only for digit fields with at most one tenths digit. It does not model `float()` parsing of other forms (exponents, signs, several decimals) or the exceptions `int()` and `float()` raise.
- Times are tenths of a second, not floating-point seconds. Play-by-play clocks carry at most tenths, so no rounding is modelled.
- The diagnostic `print` calls (utils.py:79, 85) are left out.
- Chronological order across the regulation/overtime boundary is not claimed: `Sequencer.OvertimeInterleaves` shows it fails.
- Only `player1`'s team id is carried on an event; the other participants' team ids are never read by the core.
- An `Err` carries the kind of failure, not Python's exception type or message.
- When both rosters are empty, the original's stint table has no columns. Filtering it raises a `KeyError`. The model reports a lineup-size failure at the first event instead.
- `Invariants.WellFormedGameAccounting`: the ordering, non-overlap and distinctness of each player's stints are not proved. Neither is the distinctness of the five ids in a lineup.
- `Invariants.WellFormedGameAccounting` assumes disjoint rosters and a log whose every substitution names two players of the tagged team. The original does not check these conditions.
