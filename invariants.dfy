/**
 * What the pass keeps true. One fact holds on every log: an open check-in is the
 * last logged check-in. The rest holds on well-formed logs: no duplicate on a list,
 * a player is checked in exactly when on a list, and each bank's playing time is
 * the sum of its closed stints. A log that ends with a period end then flushes, and
 * each player's stints add up to their playing time.
 */
module Invariants {
  import opened Wrappers
  import opened Clock
  import opened Records
  import opened TimeBank
  import opened Sequencer
  import opened Intervals

  // ---------------------------------------------------------------------------
  // The open check-in is the last logged one (every log)

  predicate TimeInIsLast(rec: PlayerRecord)
  {
    rec.timeIn.Some? ==> |rec.timeInList| > 0 && rec.timeInList[|rec.timeInList| - 1] == rec.timeIn.value
  }

  ghost predicate AllTimeInIsLast(bank: map<nat, PlayerRecord>)
  {
    forall p :: p in bank ==> TimeInIsLast(bank[p])
  }

  lemma {:induction false} DiscoverKeepsTimeInLast(g: Game, st: PassState, participants: seq<Option<nat>>, maxPeriodTime: nat)
    requires RostersInBank(g, st.bank) && AllTimeInIsLast(st.bank)
    ensures AllTimeInIsLast(Discover(g, st, participants, maxPeriodTime).bank)
    decreases |participants|
  {
    if |participants| > 0 {
      var rest := participants[..|participants| - 1];
      DiscoverKeepsTimeInLast(g, st, rest, maxPeriodTime);
    }
  }

  lemma StepKeepsTimeInLast(g: Game, st: PassState, ev: Event)
    requires RostersInBank(g, st.bank) && AllTimeInIsLast(st.bank)
    ensures Step(g, st, ev).Ok? ==> AllTimeInIsLast(Step(g, st, ev).value.bank)
  {
    var times := PlayClockToSeconds(ev.clock, ev.period);
    if ev.category == Substitution {
    } else if ev.category == PeriodEnd {
      CloseAllSpec(st.bank, st.homeOnCourt + st.visitorOnCourt, times.gameTimeRemaining, st.period);
    } else if ev.category <= LastPlayCategory {
      DiscoverKeepsTimeInLast(g, st, [ev.player1, ev.player2, ev.player3], times.maxPeriodTime);
    }
  }

  /** On any log, whenever a player's check-in is open it equals their last logged check-in. */
  lemma {:induction false} RunKeepsTimeInLast(g: Game, st: PassState, evs: seq<Event>)
    requires RostersInBank(g, st.bank) && AllTimeInIsLast(st.bank)
    ensures Run(g, st, evs).Ok? ==> AllTimeInIsLast(Run(g, st, evs).value.bank)
    decreases |evs|
  {
    if |evs| > 0 {
      var rest := evs[..|evs| - 1];
      RunKeepsTimeInLast(g, st, rest);
      if Run(g, st, rest).Ok? {
        StepKeepsTimeInLast(g, Run(g, st, rest).value, evs[|evs| - 1]);
      }
    }
  }

  // ---------------------------------------------------------------------------
  // One record stays balanced

  /**
   * A record is balanced when one check-out is logged per closed stint, one more
   * check-in is logged exactly while a stint is open, and the playing time is the
   * sum of the closed stints.
   */
  predicate Balanced(rec: PlayerRecord)
  {
    |rec.periodList| == |rec.timeOutList| &&
    |rec.timeInList| == |rec.timeOutList| + (if rec.timeIn.Some? then 1 else 0) &&
    TimeInIsLast(rec) &&
    rec.playingTime == SumPairs(rec.timeInList, rec.timeOutList)
  }

  lemma CloseBalanced(rec: PlayerRecord, t: nat, period: nat)
    requires Balanced(rec) && rec.timeIn.Some?
    ensures Balanced(Close(rec, rec.timeIn.value, t, period))
  {
    var outs := rec.timeOutList + [t];
    assert outs[..|outs| - 1] == rec.timeOutList;
  }

  /** Checking a player out keeps their record balanced and leaves no stint open. */
  lemma CheckOutBalanced(rec: PlayerRecord, t: nat, maxPeriodTime: nat, period: nat)
    requires Balanced(rec)
    ensures Balanced(CheckOut(rec, t, maxPeriodTime, period))
    ensures CheckOut(rec, t, maxPeriodTime, period).timeIn.None?
  {
    match rec.timeIn
    case None =>
      SumPairsIgnoresOpen(rec.timeInList, [maxPeriodTime], rec.timeOutList);
      var open := rec.(timeInList := rec.timeInList + [maxPeriodTime], timeIn := Some(maxPeriodTime));
      CloseBalanced(open, t, period);
    case Some(since) =>
      CloseBalanced(rec, t, period);
  }

  /** Checking in a player with no open stint keeps their record balanced. */
  lemma CheckInBalanced(rec: PlayerRecord, t: nat)
    requires Balanced(rec) && rec.timeIn.None?
    ensures Balanced(CheckIn(rec, t))
  {
    SumPairsIgnoresOpen(rec.timeInList, [t], rec.timeOutList);
  }

  // ---------------------------------------------------------------------------
  // The state invariant and well-formed logs

  ghost predicate Inv(g: Game, st: PassState)
  {
    DisjointRosters(g) &&
    NoDup(st.homeOnCourt) && NoDup(st.visitorOnCourt) &&
    (forall p :: p in st.homeOnCourt ==> p in g.homeRoster) &&
    (forall p :: p in st.visitorOnCourt ==> p in g.visitorRoster) &&
    (forall p :: p in st.bank <==> p in g.homeRoster || p in g.visitorRoster) &&
    (forall p :: p in st.bank ==> Balanced(st.bank[p])) &&
    (forall p :: p in st.bank ==> (st.bank[p].timeIn.Some? <==> p in st.homeOnCourt || p in st.visitorOnCourt))
  }

  lemma InitialInv(g: Game)
    requires DisjointRosters(g)
    ensures Inv(g, InitialState(g))
  {
  }

  /**
   * A substitution that fits the state: both players are named and belong to the
   * tagged team, and the incoming player is not already on its list.
   */
  predicate WellFormedSubstitution(g: Game, st: PassState, ev: Event)
  {
    ev.player1.Some? && ev.player2.Some? &&
    var roster := if HomeTagged(g, ev) then g.homeRoster else g.visitorRoster;
    var court := if HomeTagged(g, ev) then st.homeOnCourt else st.visitorOnCourt;
    ev.player1.value in roster && ev.player2.value in roster &&
    (ev.player2.value == ev.player1.value || ev.player2.value !in court)
  }

  predicate WellFormedEvent(g: Game, st: PassState, ev: Event)
  {
    ev.category == Substitution ==> WellFormedSubstitution(g, st, ev)
  }

  /** Every event of the log is well formed in the state the pass reaches before it. */
  predicate WellFormedLog(g: Game, st: PassState, evs: seq<Event>)
    requires RostersInBank(g, st.bank)
    decreases |evs|
  {
    |evs| == 0 ||
    (WellFormedLog(g, st, evs[..|evs| - 1]) &&
     match Run(g, st, evs[..|evs| - 1])
     case Err(_) => false
     case Ok(s) => WellFormedEvent(g, s, evs[|evs| - 1]))
  }

  lemma SubstitutionKeepsInv(g: Game, st: PassState, ev: Event, t: nat, maxPeriodTime: nat)
    requires Inv(g, st) && WellFormedSubstitution(g, st, ev)
    ensures SubstitutionStep(g, st, ev, t, maxPeriodTime).Ok?
    ensures Inv(g, SubstitutionStep(g, st, ev, t, maxPeriodTime).value)
  {
    var p1, p2 := ev.player1.value, ev.player2.value;
    var s := SubstitutionStep(g, st, ev, t, maxPeriodTime).value;
    var out := CheckOut(st.bank[p1], t, maxPeriodTime, st.period);
    CheckOutBalanced(st.bank[p1], t, maxPeriodTime, st.period);
    if p1 == p2 {
      CheckInBalanced(out, t);
    } else {
      assert st.bank[p2].timeIn.None?;
      CheckInBalanced(st.bank[p2], t);
    }
    forall q | q in s.bank
      ensures Balanced(s.bank[q])
      ensures s.bank[q].timeIn.Some? <==> q in s.homeOnCourt || q in s.visitorOnCourt
    {
      if q != p1 && q != p2 {
        assert s.bank[q] == st.bank[q];
      }
    }
  }

  lemma NoDupAppend(a: seq<nat>, b: seq<nat>)
    requires NoDup(a) && NoDup(b) && forall x :: x in a ==> x !in b
    ensures NoDup(a + b)
  {
    var c := a + b;
    forall i, j | 0 <= i < j < |c| ensures c[i] != c[j] {
      if i < |a| && j >= |a| {
        assert c[i] in a && c[j] in b;
      }
    }
  }

  lemma PeriodEndKeepsInv(g: Game, st: PassState, t: nat)
    requires Inv(g, st)
    ensures PeriodEndStep(st, t).Ok?
    ensures Inv(g, PeriodEndStep(st, t).value)
  {
    var players := st.homeOnCourt + st.visitorOnCourt;
    NoDupAppend(st.homeOnCourt, st.visitorOnCourt);
    CloseAllSpec(st.bank, players, t, st.period);
    assert forall p :: p in players ==> p in st.bank && st.bank[p].timeIn.Some?;
    var s := PeriodEndStep(st, t).value;
    forall q | q in s.bank
      ensures Balanced(s.bank[q]) && s.bank[q].timeIn.None?
    {
      if q in players {
        CloseBalanced(st.bank[q], t, st.period);
      }
    }
  }

  lemma DiscoverKeepsInv(g: Game, st: PassState, participants: seq<Option<nat>>, maxPeriodTime: nat)
    requires Inv(g, st)
    ensures Inv(g, Discover(g, st, participants, maxPeriodTime))
  {
    var r := Discover(g, st, participants, maxPeriodTime);
    forall q | q in r.bank
      ensures Balanced(r.bank[q])
      ensures r.bank[q].timeIn.Some? <==> q in r.homeOnCourt || q in r.visitorOnCourt
    {
      if Joined(st, r, q) {
        CheckInBalanced(st.bank[q], maxPeriodTime);
      }
    }
  }

  lemma StepKeepsInv(g: Game, st: PassState, ev: Event)
    requires Inv(g, st) && WellFormedEvent(g, st, ev)
    ensures Step(g, st, ev).Ok? && Inv(g, Step(g, st, ev).value)
  {
    var times := PlayClockToSeconds(ev.clock, ev.period);
    if ev.category == Substitution {
      SubstitutionKeepsInv(g, st, ev, times.gameTimeRemaining, times.maxPeriodTime);
    } else if ev.category == PeriodEnd {
      PeriodEndKeepsInv(g, st, times.gameTimeRemaining);
    } else if ev.category <= LastPlayCategory {
      DiscoverKeepsInv(g, st, [ev.player1, ev.player2, ev.player3], times.maxPeriodTime);
    }
  }

  /** On a well-formed log the pass never fails and keeps the invariant. */
  lemma {:induction false} RunKeepsInv(g: Game, st: PassState, evs: seq<Event>)
    requires Inv(g, st) && WellFormedLog(g, st, evs)
    ensures Run(g, st, evs).Ok? && Inv(g, Run(g, st, evs).value)
    decreases |evs|
  {
    if |evs| > 0 {
      var rest := evs[..|evs| - 1];
      RunKeepsInv(g, st, rest);
      StepKeepsInv(g, Run(g, st, rest).value, evs[|evs| - 1]);
    }
  }

  /** Every event, well formed or not, keeps both on-court lists free of duplicates. */
  lemma StepKeepsNoDup(g: Game, st: PassState, ev: Event)
    requires RostersInBank(g, st.bank) && NoDup(st.homeOnCourt) && NoDup(st.visitorOnCourt)
    ensures Step(g, st, ev).Ok? ==> NoDup(Step(g, st, ev).value.homeOnCourt) && NoDup(Step(g, st, ev).value.visitorOnCourt)
  {
  }

  /**
   * Over any log the on-court lists never hold a player twice: the pass either fails
   * or ends with both lists free of duplicates.
   */
  lemma {:induction false} RunKeepsNoDup(g: Game, st: PassState, evs: seq<Event>)
    requires RostersInBank(g, st.bank) && NoDup(st.homeOnCourt) && NoDup(st.visitorOnCourt)
    ensures Run(g, st, evs).Ok? ==> NoDup(Run(g, st, evs).value.homeOnCourt) && NoDup(Run(g, st, evs).value.visitorOnCourt)
    decreases |evs|
  {
    if |evs| > 0 {
      var rest := evs[..|evs| - 1];
      RunKeepsNoDup(g, st, rest);
      if Run(g, st, rest).Ok? {
        StepKeepsNoDup(g, Run(g, st, rest).value, evs[|evs| - 1]);
      }
    }
  }

  /**
   * A well-formed log that ends with a period end is processed without failure;
   * the flush then holds, for every roster player, exactly their zipped check-in
   * and check-out pairs, whose durations add up to their banked playing time.
   */
  lemma {:induction false} WellFormedGameAccounting(g: Game, pbp: seq<Event>)
    requires DisjointRosters(g)
    requires WellFormedLog(g, InitialState(g), SortEvents(pbp))
    requires var sorted := SortEvents(pbp); |sorted| > 0 && sorted[|sorted| - 1].category == PeriodEnd
    ensures Run(g, InitialState(g), SortEvents(pbp)).Ok?
    ensures Processed(g, pbp).Ok?
    ensures var s := Run(g, InitialState(g), SortEvents(pbp)).value;
            var ivs := Processed(g, pbp).value.0;
            s.homeOnCourt == [] && s.visitorOnCourt == [] &&
            forall p :: p in s.bank ==>
              IntervalsOf(ivs, p) == Zip(p, TeamOf(g, p), s.bank[p].timeInList, s.bank[p].timeOutList) &&
              TotalDuration(IntervalsOf(ivs, p)) == s.bank[p].playingTime
  {
    var init := InitialState(g);
    var sorted := SortEvents(pbp);
    InitialInv(g);
    RunKeepsInv(g, init, sorted);
    var rest := sorted[..|sorted| - 1];
    RunKeepsInv(g, init, rest);
    var before := Run(g, init, rest).value;
    var last := sorted[|sorted| - 1];
    PeriodEndKeepsInv(g, before, GameTimeRemaining(last));
    var s := Run(g, init, sorted).value;
    assert s == PeriodEndStep(before, GameTimeRemaining(last)).value;
    var order := PlayerOrder(g);
    assert forall p :: p in order <==> p in s.bank;
    var ivs := FlushPlayers(g, s.bank, order).value;
    forall p | p in s.bank
      ensures IntervalsOf(ivs, p) == Zip(p, TeamOf(g, p), s.bank[p].timeInList, s.bank[p].timeOutList)
      ensures TotalDuration(IntervalsOf(ivs, p)) == s.bank[p].playingTime
    {
      FlushEmitsZippedPairs(g, s.bank, order, p);
      ZipDuration(p, TeamOf(g, p), s.bank[p].timeInList, s.bank[p].timeOutList);
    }
  }

  /**
   * An implicit starter subbed out with 1500.0 seconds left in the game, during the
   * second period (which began with 1800.0 left), banks 300.0 seconds and leaves the
   * stint (1800.0, 1500.0); the player coming on is checked in at 1500.0.
   */
  lemma ImplicitStarterCheckOut()
    ensures var rec := CheckOut(EmptyRecord, 15000, 18000, 2);
            rec.playingTime == 3000 && rec.timeInList == [18000] && rec.timeOutList == [15000] &&
            rec.periodList == [2] && rec.timeIn.None? && CheckIn(EmptyRecord, 15000).timeIn == Some(15000)
  {
  }
}
