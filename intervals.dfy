/**
 * The flush at the end of the pass: every player's check-in and check-out lists
 * are zipped into stints on court, tagged with the player's team.
 */
module Intervals {
  import opened Wrappers
  import opened Records
  import opened TimeBank
  import opened Sequencer

  /** The players in the order the time bank was built: home roster, then visitor roster, each once. */
  function Dedup(s: seq<nat>): (r: seq<nat>)
    ensures NoDup(r)
    ensures forall x :: x in r <==> x in s
  {
    if |s| == 0 then []
    else
      var d := Dedup(s[..|s| - 1]);
      var x := s[|s| - 1];
      assert s == s[..|s| - 1] + [x];
      NoDupSnoc(d, x);
      if x in d then d else d + [x]
  }

  /** The position of the first `x` in `s`, or |s| when there is none. */
  function FirstPos(s: seq<nat>, x: nat): (i: nat)
    ensures i <= |s|
    ensures i < |s| <==> x in s
    ensures i < |s| ==> s[i] == x && forall k :: 0 <= k < i ==> s[k] != x
  {
    if |s| == 0 then 0 else if s[0] == x then 0 else 1 + FirstPos(s[1..], x)
  }

  /** Appending to a sequence does not move the first position of a value already in it. */
  lemma {:induction false} FirstPosSnoc(s: seq<nat>, y: nat, x: nat)
    ensures x in s ==> FirstPos(s + [y], x) == FirstPos(s, x)
    ensures x !in s && x == y ==> FirstPos(s + [y], x) == |s|
  {
    if |s| > 0 {
      assert (s + [y])[1..] == s[1..] + [y];
      FirstPosSnoc(s[1..], y, x);
    }
  }

  /** `Dedup` keeps each value at its first occurrence: the result follows first-seen order. */
  lemma {:induction false} DedupFirstSeen(s: seq<nat>)
    ensures forall i, j :: 0 <= i < j < |Dedup(s)| ==> FirstPos(s, Dedup(s)[i]) < FirstPos(s, Dedup(s)[j])
    decreases |s|
  {
    if |s| > 0 {
      var pre := s[..|s| - 1];
      var x := s[|s| - 1];
      var d := Dedup(pre);
      assert s == pre + [x];
      DedupFirstSeen(pre);
      forall q | q in d ensures FirstPos(s, q) == FirstPos(pre, q) < |pre| {
        FirstPosSnoc(pre, x, q);
      }
      if x !in d {
        FirstPosSnoc(pre, x, x);
        var r := d + [x];
        forall i, j | 0 <= i < j < |r| ensures FirstPos(s, r[i]) < FirstPos(s, r[j]) {
          assert r[i] == d[i] && r[i] in d;
          if j < |d| {
            assert r[j] == d[j] && r[j] in d;
          }
        }
      }
    }
  }

  function PlayerOrder(g: Game): seq<nat>
  {
    Dedup(g.homeRoster + g.visitorRoster)
  }

  /** One player's stints: the i-th check-in paired with the i-th check-out. */
  function Zip(p: nat, team: nat, ins: seq<nat>, outs: seq<nat>): seq<Interval>
    requires |ins| == |outs|
  {
    seq(|ins|, i requires 0 <= i < |ins| => Interval(p, team, ins[i], outs[i]))
  }

  /**
   * The flush over `players`, in order. A player whose two lists differ in length
   * makes the table construction fail.
   */
  function FlushPlayers(g: Game, bank: map<nat, PlayerRecord>, players: seq<nat>): (r: Result<seq<Interval>, Error>)
    requires forall p :: p in players ==> p in bank
    ensures r.Ok? <==> forall p :: p in players ==> |bank[p].timeInList| == |bank[p].timeOutList|
    ensures r.Ok? ==> forall iv :: iv in r.value ==> iv.playerId in players && iv.teamId == TeamOf(g, iv.playerId)
    decreases |players|
  {
    if |players| == 0 then Ok([])
    else
      var rest := players[..|players| - 1];
      var p := players[|players| - 1];
      assert players == rest + [p];
      match FlushPlayers(g, bank, rest)
      case Err(e) => Err(e)
      case Ok(acc) =>
        var rec := bank[p];
        if |rec.timeInList| != |rec.timeOutList| then Err(UnclosedInterval(p))
        else Ok(acc + Zip(p, TeamOf(g, p), rec.timeInList, rec.timeOutList))
  }

  /** Once the flush has failed on a prefix of the players it fails the same way on all of them. */
  lemma {:induction false} FlushFailureSticks(g: Game, bank: map<nat, PlayerRecord>, players: seq<nat>, k: nat, e: Error)
    requires forall p :: p in players ==> p in bank
    requires k <= |players| && FlushPlayers(g, bank, players[..k]) == Err(e)
    ensures FlushPlayers(g, bank, players) == Err(e)
    decreases |players| - k
  {
    if k < |players| {
      assert players[..k + 1][..k] == players[..k];
      FlushFailureSticks(g, bank, players, k + 1, e);
    } else {
      assert players[..k] == players;
    }
  }

  /** The stints of player `p`, in table order. */
  function IntervalsOf(ivs: seq<Interval>, p: nat): seq<Interval>
  {
    if |ivs| == 0 then []
    else IntervalsOf(ivs[..|ivs| - 1], p) + (if ivs[|ivs| - 1].playerId == p then [ivs[|ivs| - 1]] else [])
  }

  /** The time covered by a list of stints. */
  function TotalDuration(ivs: seq<Interval>): int
  {
    if |ivs| == 0 then 0
    else TotalDuration(ivs[..|ivs| - 1]) + (ivs[|ivs| - 1].timeIn - ivs[|ivs| - 1].timeOut)
  }

  lemma {:induction false} IntervalsOfConcat(a: seq<Interval>, b: seq<Interval>, p: nat)
    ensures IntervalsOf(a + b, p) == IntervalsOf(a, p) + IntervalsOf(b, p)
    decreases |b|
  {
    if |b| > 0 {
      var b' := b[..|b| - 1];
      assert (a + b)[..|a + b| - 1] == a + b';
      IntervalsOfConcat(a, b', p);
    } else {
      assert a + b == a;
    }
  }

  lemma {:induction false} IntervalsOfZip(q: nat, team: nat, ins: seq<nat>, outs: seq<nat>, p: nat)
    requires |ins| == |outs|
    ensures IntervalsOf(Zip(q, team, ins, outs), p) == if q == p then Zip(q, team, ins, outs) else []
    decreases |ins|
  {
    if |ins| > 0 {
      var n := |ins| - 1;
      assert Zip(q, team, ins, outs)[..n] == Zip(q, team, ins[..n], outs[..n]);
      IntervalsOfZip(q, team, ins[..n], outs[..n], p);
    }
  }

  lemma {:induction false} ZipDuration(p: nat, team: nat, ins: seq<nat>, outs: seq<nat>)
    requires |ins| == |outs|
    ensures TotalDuration(Zip(p, team, ins, outs)) == SumPairs(ins, outs)
    decreases |ins|
  {
    if |ins| > 0 {
      var n := |ins| - 1;
      assert Zip(p, team, ins, outs)[..n] == Zip(p, team, ins[..n], outs[..n]);
      ZipDuration(p, team, ins[..n], outs[..n]);
      assert ins == ins[..n] + ins[n..];
      SumPairsIgnoresOpen(ins[..n], ins[n..], outs[..n]);
    }
  }

  /**
   * The flush emits, for each listed player, exactly their zipped check-in and
   * check-out pairs, tagged with their team.
   */
  lemma {:induction false} FlushEmitsZippedPairs(g: Game, bank: map<nat, PlayerRecord>, players: seq<nat>, p: nat)
    requires forall q :: q in players ==> q in bank
    requires NoDup(players)
    requires FlushPlayers(g, bank, players).Ok?
    ensures IntervalsOf(FlushPlayers(g, bank, players).value, p) ==
      if p in players then Zip(p, TeamOf(g, p), bank[p].timeInList, bank[p].timeOutList) else []
    decreases |players|
  {
    if |players| > 0 {
      var rest := players[..|players| - 1];
      var q := players[|players| - 1];
      assert players == rest + [q];
      NoDupSnoc(rest, q);
      FlushEmitsZippedPairs(g, bank, rest, p);
      var acc := FlushPlayers(g, bank, rest).value;
      var rec := bank[q];
      IntervalsOfConcat(acc, Zip(q, TeamOf(g, q), rec.timeInList, rec.timeOutList), p);
      IntervalsOfZip(q, TeamOf(g, q), rec.timeInList, rec.timeOutList, p);
    }
  }

  /** The whole of `process_pbp_data`: sort, run the pass, flush. */
  function Processed(g: Game, pbp: seq<Event>): (r: Result<(seq<Interval>, seq<Event>), Error>)
    ensures r.Ok? ==> SortedByKey(r.value.1) && multiset(r.value.1) == multiset(pbp)
  {
    var sorted := SortEvents(pbp);
    match Run(g, InitialState(g), sorted)
    case Err(e) => Err(e)
    case Ok(s) =>
      match FlushPlayers(g, s.bank, PlayerOrder(g))
      case Err(e) => Err(e)
      case Ok(ivs) => Ok((ivs, sorted))
  }
}
