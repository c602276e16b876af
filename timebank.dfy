/**
 * The lineup and time-bank state machine, as pure functions: one step per event,
 * and the pass over a sorted log as a fold of those steps. The imperative pass in
 * module Pass is proved to compute exactly this.
 */
module TimeBank {
  import opened Wrappers
  import opened Clock
  import opened Records

  /**
   * A player's time bank: time played so far, the time of the open check-in if any,
   * every check-in and check-out time, and the period of each check-out.
   */
  datatype PlayerRecord = PlayerRecord(
    playingTime: int,
    timeIn: Option<nat>,
    timeInList: seq<nat>,
    timeOutList: seq<nat>,
    periodList: seq<nat>)

  const EmptyRecord := PlayerRecord(0, None, [], [], [])

  /** Everything the pass carries from one event to the next. */
  datatype PassState = PassState(
    homeOnCourt: seq<nat>,
    visitorOnCourt: seq<nat>,
    period: nat,
    bank: map<nat, PlayerRecord>)

  /** Before the first event: nobody on court, period 1, an empty bank per roster player. */
  function InitialState(g: Game): (st: PassState)
    ensures RostersInBank(g, st.bank)
  {
    PassState([], [], 1, map p | p in g.homeRoster + g.visitorRoster :: EmptyRecord)
  }

  /** The bank holds a record for every roster player (its keys never change). */
  predicate RostersInBank(g: Game, bank: map<nat, PlayerRecord>)
  {
    (forall p :: p in g.homeRoster ==> p in bank) && (forall p :: p in g.visitorRoster ==> p in bank)
  }

  // ---------------------------------------------------------------------------
  // One player's record

  /** Ends a stint begun at `since`: the time played is banked and the check-out logged. */
  function Close(rec: PlayerRecord, since: nat, t: nat, period: nat): PlayerRecord
  {
    rec.(playingTime := rec.playingTime + (since - t), timeIn := None,
         timeOutList := rec.timeOutList + [t], periodList := rec.periodList + [period])
  }

  /**
   * The outgoing player of a substitution. A player with no open check-in is taken
   * to have been on court since the period began, and that check-in is logged first.
   */
  function CheckOut(rec: PlayerRecord, t: nat, maxPeriodTime: nat, period: nat): PlayerRecord
  {
    match rec.timeIn
    case None => Close(rec.(timeInList := rec.timeInList + [maxPeriodTime]), maxPeriodTime, t, period)
    case Some(since) => Close(rec, since, t, period)
  }

  /** Opens a stint at `t`. */
  function CheckIn(rec: PlayerRecord, t: nat): PlayerRecord
  {
    rec.(timeIn := Some(t), timeInList := rec.timeInList + [t])
  }

  /** The time of the closed stints: check-in minus check-out, summed over the pairs. */
  function SumPairs(ins: seq<nat>, outs: seq<nat>): int
    requires |outs| <= |ins|
  {
    if |outs| == 0 then 0
    else SumPairs(ins, outs[..|outs| - 1]) + (ins[|outs| - 1] as int - outs[|outs| - 1])
  }

  /** Check-ins past the last check-out do not count towards the closed stints. */
  lemma {:induction false} SumPairsIgnoresOpen(ins: seq<nat>, more: seq<nat>, outs: seq<nat>)
    requires |outs| <= |ins|
    ensures SumPairs(ins + more, outs) == SumPairs(ins, outs)
  {
    if |outs| > 0 {
      SumPairsIgnoresOpen(ins, more, outs[..|outs| - 1]);
    }
  }

  // ---------------------------------------------------------------------------
  // On-court lists

  /** Drops the first occurrence of `x`, leaving the order of the rest. */
  function RemoveFirst(s: seq<nat>, x: nat): (r: seq<nat>)
    ensures multiset(r) == multiset(s) - multiset{x}
  {
    if |s| == 0 then []
    else if s[0] == x then
      assert s == [s[0]] + s[1..];
      s[1..]
    else
      assert s == [s[0]] + s[1..];
      [s[0]] + RemoveFirst(s[1..], x)
  }

  /** Removing a value that is not there changes nothing. */
  lemma {:induction false} RemoveAbsent(s: seq<nat>, x: nat)
    requires x !in s
    ensures RemoveFirst(s, x) == s
  {
    if |s| > 0 {
      assert x !in s[1..];
      RemoveAbsent(s[1..], x);
    }
  }

  /** Appends `x` unless it is already there. */
  function AddIfAbsent(s: seq<nat>, x: nat): seq<nat>
  {
    if x in s then s else s + [x]
  }

  /** `after` is `before` with `out` taken off and `incoming` put on, without duplicates. */
  ghost predicate Swapped(before: seq<nat>, after: seq<nat>, out: nat, incoming: nat)
  {
    incoming in after &&
    (NoDup(before) ==> NoDup(after) && forall q :: q in after <==> (q in before && q != out) || q == incoming)
  }

  lemma NoDupMultiset(s: seq<nat>, r: seq<nat>)
    requires NoDup(s) && multiset(r) <= multiset(s)
    ensures NoDup(r)
  {
    forall i, j | 0 <= i < j < |r| ensures r[i] != r[j] {
      if r[i] == r[j] {
        assert multiset{r[i], r[j]} <= multiset(r) by {
          assert r == r[..i] + [r[i]] + r[i + 1..j] + [r[j]] + r[j + 1..];
        }
        DistinctCount(s, r[i]);
      }
    }
  }

  lemma DistinctCount(s: seq<nat>, x: nat)
    requires NoDup(s)
    ensures multiset(s)[x] <= 1
  {
    if |s| > 0 {
      assert s == [s[0]] + s[1..];
      DistinctCount(s[1..], x);
      if s[0] == x {
        assert x !in s[1..] by {
          forall j | 0 <= j < |s[1..]| ensures s[1..][j] != x {
            assert s[1..][j] == s[j + 1];
          }
        }
      }
    }
  }

  /** Without duplicates, removing `out` leaves exactly the other players, still without duplicates. */
  lemma RemoveFirstMembers(before: seq<nat>, out: nat)
    requires NoDup(before)
    ensures NoDup(RemoveFirst(before, out))
    ensures forall q :: q in RemoveFirst(before, out) <==> q in before && q != out
  {
    var removed := RemoveFirst(before, out);
    NoDupMultiset(before, removed);
    DistinctCount(before, out);
    forall q ensures q in removed <==> q in before && q != out {
      assert q in removed <==> multiset(removed)[q] > 0;
      assert q in before <==> multiset(before)[q] > 0;
    }
  }

  /** Appending a value only when absent keeps a list free of duplicates. */
  lemma AddIfAbsentMembers(s: seq<nat>, x: nat)
    requires NoDup(s)
    ensures NoDup(AddIfAbsent(s, x))
    ensures forall q :: q in AddIfAbsent(s, x) <==> q in s || q == x
  {
    var after := AddIfAbsent(s, x);
    if x !in s {
      forall i, j | 0 <= i < j < |after| ensures after[i] != after[j] {
        if j == |s| {
          assert after[i] == s[i];
        }
      }
    }
  }

  lemma SwapLists(before: seq<nat>, out: nat, incoming: nat)
    ensures Swapped(before, AddIfAbsent(RemoveFirst(before, out), incoming), out, incoming)
  {
    if NoDup(before) {
      RemoveFirstMembers(before, out);
      AddIfAbsentMembers(RemoveFirst(before, out), incoming);
    }
  }

  // ---------------------------------------------------------------------------
  // The three kinds of event

  /** Whether a substitution's team tag names the home team (anything else means visitor). */
  predicate HomeTagged(g: Game, ev: Event)
  {
    ev.player1Team == Some(g.homeId)
  }

  /**
   * Substitution: `player1` leaves the tagged team's list, `player2` joins it, the
   * outgoing stint is closed and the incoming one opened at `t`.
   */
  function SubstitutionStep(g: Game, st: PassState, ev: Event, t: nat, maxPeriodTime: nat): (r: Result<PassState, Error>)
    ensures r.Err? <==> (ev.player1.None? || ev.player2.None? ||
                         ev.player1.value !in st.bank || ev.player2.value !in st.bank)
    ensures r.Ok? ==>
      var p1, p2, s := ev.player1.value, ev.player2.value, r.value;
      s.bank.Keys == st.bank.Keys && s.period == st.period &&
      (HomeTagged(g, ev) ==>
        s.visitorOnCourt == st.visitorOnCourt && Swapped(st.homeOnCourt, s.homeOnCourt, p1, p2)) &&
      (!HomeTagged(g, ev) ==>
        s.homeOnCourt == st.homeOnCourt && Swapped(st.visitorOnCourt, s.visitorOnCourt, p1, p2)) &&
      (p1 != p2 ==> s.bank[p1] == CheckOut(st.bank[p1], t, maxPeriodTime, st.period)) &&
      s.bank[p2] == CheckIn(if p1 == p2 then CheckOut(st.bank[p1], t, maxPeriodTime, st.period) else st.bank[p2], t) &&
      (forall q :: q in st.bank && q != p1 && q != p2 ==> s.bank[q] == st.bank[q])
  {
    if ev.player1.None? then Err(MissingPlayer(ev.eventNum))
    else
      var p1 := ev.player1.value;
      if p1 !in st.bank then Err(UnknownPlayer(p1))
      else if ev.player2.None? then Err(MissingPlayer(ev.eventNum))
      else
        var p2 := ev.player2.value;
        var bank := st.bank[p1 := CheckOut(st.bank[p1], t, maxPeriodTime, st.period)];
        if p2 !in bank then Err(UnknownPlayer(p2))
        else
          var bank' := bank[p2 := CheckIn(bank[p2], t)];
          if HomeTagged(g, ev) then
            SwapLists(st.homeOnCourt, p1, p2);
            Ok(st.(homeOnCourt := AddIfAbsent(RemoveFirst(st.homeOnCourt, p1), p2), bank := bank'))
          else
            SwapLists(st.visitorOnCourt, p1, p2);
            Ok(st.(visitorOnCourt := AddIfAbsent(RemoveFirst(st.visitorOnCourt, p1), p2), bank := bank'))
  }

  /**
   * Closes the stint of every listed player at `t`, in list order. It fails on a
   * player without a record or without an open check-in, which is what a player
   * listed twice meets the second time.
   */
  function CloseAll(bank: map<nat, PlayerRecord>, players: seq<nat>, t: nat, period: nat): Result<map<nat, PlayerRecord>, Error>
    decreases |players|
  {
    if |players| == 0 then Ok(bank)
    else
      match CloseAll(bank, players[..|players| - 1], t, period)
      case Err(e) => Err(e)
      case Ok(b) => CloseOne(b, players[|players| - 1], t, period)
  }

  /**
   * Closing succeeds exactly when the players are distinct and each has an open
   * check-in; then it closes each listed player's stint and touches no other record.
   */
  lemma {:induction false} CloseAllSpec(bank: map<nat, PlayerRecord>, players: seq<nat>, t: nat, period: nat)
    ensures CloseAll(bank, players, t, period).Ok? <==>
      NoDup(players) && forall p :: p in players ==> p in bank && bank[p].timeIn.Some?
    ensures CloseAll(bank, players, t, period).Ok? ==>
      var r := CloseAll(bank, players, t, period).value;
      r.Keys == bank.Keys &&
      (forall p :: p in bank && p !in players ==> r[p] == bank[p]) &&
      (forall p :: p in players ==> r[p] == Close(bank[p], bank[p].timeIn.value, t, period))
    decreases |players|
  {
    if |players| > 0 {
      var rest := players[..|players| - 1];
      var p := players[|players| - 1];
      assert players == rest + [p];
      assert forall q :: q in players <==> q in rest || q == p;
      NoDupSnoc(rest, p);
      CloseAllSpec(bank, rest, t, period);
    }
  }

  /** Closes one player's stint: fails when the player has no record or no open check-in. */
  function CloseOne(bank: map<nat, PlayerRecord>, p: nat, t: nat, period: nat): Result<map<nat, PlayerRecord>, Error>
  {
    if p !in bank then Err(UnknownPlayer(p))
    else
      match bank[p].timeIn
      case None => Err(NotCheckedIn(p))
      case Some(since) => Ok(bank[p := Close(bank[p], since, t, period)])
  }

  /** Closing one more player continues from the prefix's result. */
  lemma CloseAllSnoc(bank: map<nat, PlayerRecord>, players: seq<nat>, j: nat, t: nat, period: nat)
    requires j < |players|
    ensures CloseAll(bank, players[..j + 1], t, period) ==
      match CloseAll(bank, players[..j], t, period)
      case Err(e) => Err(e)
      case Ok(b) => CloseOne(b, players[j], t, period)
  {
    assert players[..j + 1][..j] == players[..j];
  }

  /** Once closing has failed on a prefix of the players it fails the same way on all of them. */
  lemma {:induction false} CloseAllFailureSticks(bank: map<nat, PlayerRecord>, players: seq<nat>, t: nat, period: nat, k: nat, e: Error)
    requires k <= |players| && CloseAll(bank, players[..k], t, period) == Err(e)
    ensures CloseAll(bank, players, t, period) == Err(e)
    decreases |players| - k
  {
    if k < |players| {
      assert players[..k + 1][..k] == players[..k];
      CloseAllFailureSticks(bank, players, t, period, k + 1, e);
    } else {
      assert players[..k] == players;
    }
  }

  lemma NoDupSnoc(s: seq<nat>, x: nat)
    ensures NoDup(s + [x]) <==> NoDup(s) && x !in s
  {
    var r := s + [x];
    if NoDup(r) {
      forall i, j | 0 <= i < j < |s| ensures s[i] != s[j] {
        assert r[i] == s[i] && r[j] == s[j];
      }
      forall k | 0 <= k < |s| ensures s[k] != x {
        assert r[k] == s[k] && r[|s|] == x;
      }
    }
  }

  /** Period end: every player on either list is closed out, the lists empty, the period advances. */
  function PeriodEndStep(st: PassState, t: nat): (r: Result<PassState, Error>)
    ensures r.Ok? ==> r.value.homeOnCourt == [] && r.value.visitorOnCourt == [] && r.value.period == st.period + 1
  {
    match CloseAll(st.bank, st.homeOnCourt + st.visitorOnCourt, t, st.period)
    case Err(e) => Err(e)
    case Ok(bank) => Ok(PassState([], [], st.period + 1, bank))
  }

  /**
   * One participant of a play: a roster player not yet on their team's list joins it,
   * checked in at the start of the period.
   */
  function DiscoverOne(g: Game, st: PassState, participant: Option<nat>, maxPeriodTime: nat): (r: PassState)
    requires RostersInBank(g, st.bank)
    ensures r.bank.Keys == st.bank.Keys && r.period == st.period
    ensures forall q :: q in r.homeOnCourt <==> q in st.homeOnCourt || (participant == Some(q) && q in g.homeRoster)
    ensures NoDup(st.homeOnCourt) ==> NoDup(r.homeOnCourt)
    ensures NoDup(st.visitorOnCourt) ==> NoDup(r.visitorOnCourt)
    ensures DisjointRosters(g) ==>
      (forall q :: q in r.visitorOnCourt <==> q in st.visitorOnCourt || (participant == Some(q) && q in g.visitorRoster)) &&
      (forall q :: q in st.bank ==>
        r.bank[q] == if Joined(st, r, q) then CheckIn(st.bank[q], maxPeriodTime) else st.bank[q])
  {
    match participant
    case None => st
    case Some(p) =>
      NoDupSnoc(st.homeOnCourt, p);
      NoDupSnoc(st.visitorOnCourt, p);
      if p in g.homeRoster && p !in st.homeOnCourt then
        st.(homeOnCourt := st.homeOnCourt + [p], bank := st.bank[p := CheckIn(st.bank[p], maxPeriodTime)])
      else if p in g.visitorRoster && p !in st.visitorOnCourt then
        st.(visitorOnCourt := st.visitorOnCourt + [p], bank := st.bank[p := CheckIn(st.bank[p], maxPeriodTime)])
      else st
  }

  /** Whether `q` joined one of the lists between `st` and `s`. */
  predicate Joined(st: PassState, s: PassState, q: nat)
  {
    (q in s.homeOnCourt && q !in st.homeOnCourt) || (q in s.visitorOnCourt && q !in st.visitorOnCourt)
  }

  /** A play: the participants, in order, are discovered on court. */
  function Discover(g: Game, st: PassState, participants: seq<Option<nat>>, maxPeriodTime: nat): (r: PassState)
    requires RostersInBank(g, st.bank)
    ensures r.bank.Keys == st.bank.Keys && r.period == st.period
    // a home roster player named in the play is on the home list afterwards, nobody else joins it
    ensures forall q :: q in r.homeOnCourt <==> q in st.homeOnCourt || (Some(q) in participants && q in g.homeRoster)
    ensures NoDup(st.homeOnCourt) ==> NoDup(r.homeOnCourt)
    ensures NoDup(st.visitorOnCourt) ==> NoDup(r.visitorOnCourt)
    // with disjoint rosters the same holds of visitors, and exactly the newcomers are checked in
    ensures DisjointRosters(g) ==>
      (forall q :: q in r.visitorOnCourt <==> q in st.visitorOnCourt || (Some(q) in participants && q in g.visitorRoster)) &&
      (forall q :: q in st.bank ==>
        r.bank[q] == if Joined(st, r, q) then CheckIn(st.bank[q], maxPeriodTime) else st.bank[q])
    decreases |participants|
  {
    if |participants| == 0 then st
    else
      var rest := participants[..|participants| - 1];
      var last := participants[|participants| - 1];
      assert participants == rest + [last];
      var s := Discover(g, st, rest, maxPeriodTime);
      var r := DiscoverOne(g, s, last, maxPeriodTime);
      DiscoverCompose(g, st, s, r, rest, last, maxPeriodTime);
      r
  }

  /** Discovering a prefix of the participants and then one more is discovering them all. */
  lemma DiscoverCompose(g: Game, st: PassState, s: PassState, r: PassState,
                        rest: seq<Option<nat>>, last: Option<nat>, maxPeriodTime: nat)
    requires s.bank.Keys == st.bank.Keys && r.bank.Keys == s.bank.Keys
    requires forall q :: q in s.homeOnCourt <==> q in st.homeOnCourt || (Some(q) in rest && q in g.homeRoster)
    requires forall q :: q in r.homeOnCourt <==> q in s.homeOnCourt || (last == Some(q) && q in g.homeRoster)
    requires DisjointRosters(g) ==>
      (forall q :: q in s.visitorOnCourt <==> q in st.visitorOnCourt || (Some(q) in rest && q in g.visitorRoster)) &&
      (forall q :: q in st.bank ==>
        s.bank[q] == if Joined(st, s, q) then CheckIn(st.bank[q], maxPeriodTime) else st.bank[q])
    requires DisjointRosters(g) ==>
      (forall q :: q in r.visitorOnCourt <==> q in s.visitorOnCourt || (last == Some(q) && q in g.visitorRoster)) &&
      (forall q :: q in s.bank ==>
        r.bank[q] == if Joined(s, r, q) then CheckIn(s.bank[q], maxPeriodTime) else s.bank[q])
    ensures forall q :: q in r.homeOnCourt <==> q in st.homeOnCourt || (Some(q) in rest + [last] && q in g.homeRoster)
    ensures DisjointRosters(g) ==>
      (forall q :: q in r.visitorOnCourt <==> q in st.visitorOnCourt || (Some(q) in rest + [last] && q in g.visitorRoster)) &&
      (forall q :: q in st.bank ==>
        r.bank[q] == if Joined(st, r, q) then CheckIn(st.bank[q], maxPeriodTime) else st.bank[q])
  {
    forall q ensures Some(q) in rest + [last] <==> Some(q) in rest || last == Some(q) {
    }
    if DisjointRosters(g) {
      forall q | q in st.bank
        ensures r.bank[q] == if Joined(st, r, q) then CheckIn(st.bank[q], maxPeriodTime) else st.bank[q]
      {
        if Joined(st, s, q) {
          assert !Joined(s, r, q);
        }
      }
    }
  }

  // ---------------------------------------------------------------------------
  // The pass

  /** One event. Categories other than substitution, period end and plays change nothing. */
  function Step(g: Game, st: PassState, ev: Event): (r: Result<PassState, Error>)
    requires RostersInBank(g, st.bank)
    ensures r.Ok? ==> r.value.bank.Keys == st.bank.Keys
    ensures r.Ok? ==> r.value.period == st.period + (if ev.category == PeriodEnd then 1 else 0)
    ensures ev.category != Substitution && ev.category != PeriodEnd && ev.category > LastPlayCategory ==> r == Ok(st)
  {
    var times := PlayClockToSeconds(ev.clock, ev.period);
    if ev.category == Substitution then
      SubstitutionStep(g, st, ev, times.gameTimeRemaining, times.maxPeriodTime)
    else if ev.category == PeriodEnd then
      CloseAllKeys(st.bank, st.homeOnCourt + st.visitorOnCourt, times.gameTimeRemaining, st.period);
      PeriodEndStep(st, times.gameTimeRemaining)
    else if ev.category <= LastPlayCategory then
      Ok(Discover(g, st, [ev.player1, ev.player2, ev.player3], times.maxPeriodTime))
    else Ok(st)
  }

  lemma CloseAllKeys(bank: map<nat, PlayerRecord>, players: seq<nat>, t: nat, period: nat)
    ensures CloseAll(bank, players, t, period).Ok? ==> CloseAll(bank, players, t, period).value.Keys == bank.Keys
  {
    CloseAllSpec(bank, players, t, period);
  }

  /** How many period ends a log holds. */
  function CountPeriodEnds(evs: seq<Event>): nat
  {
    if |evs| == 0 then 0
    else CountPeriodEnds(evs[..|evs| - 1]) + (if evs[|evs| - 1].category == PeriodEnd then 1 else 0)
  }

  /** The pass over a sorted log: the steps in order, stopping at the first failure. */
  function Run(g: Game, st: PassState, evs: seq<Event>): (r: Result<PassState, Error>)
    requires RostersInBank(g, st.bank)
    ensures r.Ok? ==> r.value.bank.Keys == st.bank.Keys
    ensures r.Ok? ==> r.value.period == st.period + CountPeriodEnds(evs)
    decreases |evs|
  {
    if |evs| == 0 then Ok(st)
    else
      match Run(g, st, evs[..|evs| - 1])
      case Err(e) => Err(e)
      case Ok(s) => Step(g, s, evs[|evs| - 1])
  }

  /** Once the pass has failed on a prefix it fails the same way on the whole log. */
  lemma {:induction false} RunFailureSticks(g: Game, st: PassState, evs: seq<Event>, k: nat, e: Error)
    requires RostersInBank(g, st.bank)
    requires k <= |evs| && Run(g, st, evs[..k]) == Err(e)
    ensures Run(g, st, evs) == Err(e)
    decreases |evs| - k
  {
    if k < |evs| {
      assert evs[..k + 1][..k] == evs[..k];
      RunFailureSticks(g, st, evs, k + 1, e);
    } else {
      assert evs[..k] == evs;
    }
  }
}
