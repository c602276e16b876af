/**
 * The pass as the original runs it: local on-court lists, a period counter and a
 * time bank, updated event by event in a loop over the sorted log, then flushed.
 * Each branch of the loop body is a method proved against the function in
 * TimeBank or Intervals that specifies it.
 */
module Pass {
  import opened Wrappers
  import opened Clock
  import opened Records
  import opened TimeBank
  import opened Sequencer
  import opened Intervals

  /** An empty record for every player of either roster. */
  method NewBank(g: Game) returns (bank: map<nat, PlayerRecord>)
    ensures bank == InitialState(g).bank
  {
    var players := g.homeRoster + g.visitorRoster;
    bank := map[];
    var k := 0;
    while k < |players|
      invariant k <= |players|
      invariant bank == map p | p in players[..k] :: EmptyRecord
    {
      assert players[..k + 1] == players[..k] + [players[k]];
      bank := bank[players[k] := EmptyRecord];
      k := k + 1;
    }
    assert players[..k] == players;
  }

  /** The substitution branch: swap the two players on the tagged side and in the bank. */
  method Substitute(g: Game, homeOnCourt: seq<nat>, visitorOnCourt: seq<nat>, period: nat,
                    bank: map<nat, PlayerRecord>, ev: Event, t: nat, maxPeriodTime: nat)
    returns (r: Result<PassState, Error>)
    ensures r == SubstitutionStep(g, PassState(homeOnCourt, visitorOnCourt, period, bank), ev, t, maxPeriodTime)
  {
    if ev.player1.None? {
      return Err(MissingPlayer(ev.eventNum));
    }
    var p1 := ev.player1.value;
    if p1 !in bank {
      return Err(UnknownPlayer(p1));
    }
    if ev.player2.None? {
      return Err(MissingPlayer(ev.eventNum));
    }
    var p2 := ev.player2.value;
    if p2 !in bank {
      return Err(UnknownPlayer(p2));
    }
    var home, visitor := homeOnCourt, visitorOnCourt;
    if ev.player1Team == Some(g.homeId) {
      if p1 in home {
        home := RemoveFirst(home, p1);
      } else {
        RemoveAbsent(home, p1);
      }
      if p2 !in home {
        home := home + [p2];
      }
    } else {
      if p1 in visitor {
        visitor := RemoveFirst(visitor, p1);
      } else {
        RemoveAbsent(visitor, p1);
      }
      if p2 !in visitor {
        visitor := visitor + [p2];
      }
    }
    // the outgoing player: a starter never checked in counts from the start of the period
    var rec := bank[p1];
    if rec.timeIn.None? {
      rec := rec.(playingTime := rec.playingTime + (maxPeriodTime - t), timeInList := rec.timeInList + [maxPeriodTime]);
    } else {
      rec := rec.(playingTime := rec.playingTime + (rec.timeIn.value - t));
    }
    rec := rec.(timeIn := None, timeOutList := rec.timeOutList + [t], periodList := rec.periodList + [period]);
    var newBank := bank[p1 := rec];
    // the incoming player
    newBank := newBank[p2 := newBank[p2].(timeIn := Some(t), timeInList := newBank[p2].timeInList + [t])];
    r := Ok(PassState(home, visitor, period, newBank));
  }

  /** The period-end branch: close the stint of everyone on court, home side first. */
  method CloseOnCourt(bank: map<nat, PlayerRecord>, onCourt: seq<nat>, t: nat, period: nat)
    returns (r: Result<map<nat, PlayerRecord>, Error>)
    ensures r == CloseAll(bank, onCourt, t, period)
  {
    var b := bank;
    var j := 0;
    while j < |onCourt|
      invariant j <= |onCourt|
      invariant CloseAll(bank, onCourt[..j], t, period) == Ok(b)
    {
      var p := onCourt[j];
      CloseAllSnoc(bank, onCourt, j, t, period);
      if p !in b || b[p].timeIn.None? {
        var e := if p !in b then UnknownPlayer(p) else NotCheckedIn(p);
        CloseAllFailureSticks(bank, onCourt, t, period, j + 1, e);
        return Err(e);
      }
      var rec := b[p];
      b := b[p := rec.(playingTime := rec.playingTime + (rec.timeIn.value - t), timeIn := None,
                       timeOutList := rec.timeOutList + [t], periodList := rec.periodList + [period])];
      j := j + 1;
    }
    assert onCourt[..j] == onCourt;
    r := Ok(b);
  }

  /**
   * The branch for plays: a roster player taking part who is not yet on court
   * joins that side, checked in at the start of the period.
   */
  method DiscoverParticipants(g: Game, homeOnCourt: seq<nat>, visitorOnCourt: seq<nat>, period: nat,
                              bank: map<nat, PlayerRecord>, participants: seq<Option<nat>>, maxPeriodTime: nat)
    returns (home: seq<nat>, visitor: seq<nat>, newBank: map<nat, PlayerRecord>)
    requires RostersInBank(g, bank)
    ensures PassState(home, visitor, period, newBank)
         == Discover(g, PassState(homeOnCourt, visitorOnCourt, period, bank), participants, maxPeriodTime)
  {
    ghost var st := PassState(homeOnCourt, visitorOnCourt, period, bank);
    home, visitor, newBank := homeOnCourt, visitorOnCourt, bank;
    var j := 0;
    while j < |participants|
      invariant j <= |participants|
      invariant Discover(g, st, participants[..j], maxPeriodTime) == PassState(home, visitor, period, newBank)
    {
      assert participants[..j + 1][..j] == participants[..j];
      if participants[j].Some? {
        var p := participants[j].value;
        if p in g.homeRoster && p !in home {
          home := home + [p];
          newBank := newBank[p := newBank[p].(timeIn := Some(maxPeriodTime), timeInList := newBank[p].timeInList + [maxPeriodTime])];
        } else if p in g.visitorRoster && p !in visitor {
          visitor := visitor + [p];
          newBank := newBank[p := newBank[p].(timeIn := Some(maxPeriodTime), timeInList := newBank[p].timeInList + [maxPeriodTime])];
        }
      }
      j := j + 1;
    }
    assert participants[..j] == participants;
  }

  /** Turns each listed player's paired lists into stints, player by player. */
  method Flush(g: Game, bank: map<nat, PlayerRecord>, order: seq<nat>)
    returns (r: Result<seq<Interval>, Error>)
    requires forall p :: p in order ==> p in bank
    ensures r == FlushPlayers(g, bank, order)
  {
    var intervals: seq<Interval> := [];
    var j := 0;
    while j < |order|
      invariant j <= |order|
      invariant FlushPlayers(g, bank, order[..j]) == Ok(intervals)
    {
      var p := order[j];
      assert order[..j + 1][..j] == order[..j];
      var team := if p in g.homeRoster then g.homeId else g.visitorId;
      var rec := bank[p];
      if |rec.timeInList| != |rec.timeOutList| {
        FlushFailureSticks(g, bank, order, j + 1, UnclosedInterval(p));
        return Err(UnclosedInterval(p));
      }
      intervals := intervals + Zip(p, team, rec.timeInList, rec.timeOutList);
      j := j + 1;
    }
    assert order[..j] == order;
    r := Ok(intervals);
  }

  /** One event of the pass: a substitution, a period end, a play, or anything else, which changes nothing. */
  method ApplyEvent(g: Game, homeOnCourt: seq<nat>, visitorOnCourt: seq<nat>, period: nat,
                    bank: map<nat, PlayerRecord>, ev: Event)
    returns (r: Result<PassState, Error>)
    requires RostersInBank(g, bank)
    ensures r == Step(g, PassState(homeOnCourt, visitorOnCourt, period, bank), ev)
  {
    var times := PlayClockToSeconds(ev.clock, ev.period);
    var t, maxPeriodTime := times.gameTimeRemaining, times.maxPeriodTime;
    if ev.category == Substitution {
      r := Substitute(g, homeOnCourt, visitorOnCourt, period, bank, ev, t, maxPeriodTime);
    } else if ev.category == PeriodEnd {
      var res := CloseOnCourt(bank, homeOnCourt + visitorOnCourt, t, period);
      if res.Err? {
        return Err(res.error);
      }
      r := Ok(PassState([], [], period + 1, res.value));
    } else if ev.category <= LastPlayCategory {
      var home, visitor, newBank :=
        DiscoverParticipants(g, homeOnCourt, visitorOnCourt, period, bank, [ev.player1, ev.player2, ev.player3], maxPeriodTime);
      r := Ok(PassState(home, visitor, period, newBank));
    } else {
      r := Ok(PassState(homeOnCourt, visitorOnCourt, period, bank));
    }
  }

  /** The state-machine pass over the sorted log, stopping at the first failing event. */
  method RunPass(g: Game, sorted: seq<Event>) returns (r: Result<PassState, Error>)
    ensures r == Run(g, InitialState(g), sorted)
  {
    var homeOnCourt: seq<nat> := [];
    var visitorOnCourt: seq<nat> := [];
    var period: nat := 1;
    var bank := NewBank(g);
    ghost var init := InitialState(g);

    var i := 0;
    while i < |sorted|
      invariant i <= |sorted|
      invariant RostersInBank(g, bank)
      invariant Run(g, init, sorted[..i]) == Ok(PassState(homeOnCourt, visitorOnCourt, period, bank))
    {
      assert sorted[..i + 1][..i] == sorted[..i];
      var res := ApplyEvent(g, homeOnCourt, visitorOnCourt, period, bank, sorted[i]);
      if res.Err? {
        RunFailureSticks(g, init, sorted, i + 1, res.error);
        return Err(res.error);
      }
      homeOnCourt, visitorOnCourt, period, bank := res.value.homeOnCourt, res.value.visitorOnCourt, res.value.period, res.value.bank;
      i := i + 1;
    }
    assert sorted[..i] == sorted;
    r := Ok(PassState(homeOnCourt, visitorOnCourt, period, bank));
  }

  /** Sorts the log, runs the pass and flushes every player's stints, roster order first. */
  method ProcessPbpData(pbp: seq<Event>, g: Game) returns (r: Result<(seq<Interval>, seq<Event>), Error>)
    ensures r == Processed(g, pbp)
    ensures r.Ok? ==> SortedByKey(r.value.1) && multiset(r.value.1) == multiset(pbp)
  {
    var sorted := SortEvents(pbp);
    var pass := RunPass(g, sorted);
    if pass.Err? {
      return Err(pass.error);
    }
    var res := Flush(g, pass.value.bank, PlayerOrder(g));
    if res.Err? {
      return Err(res.error);
    }
    r := Ok((res.value, sorted));
  }
}
