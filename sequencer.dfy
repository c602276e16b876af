/**
 * Event sequencing: the play-by-play table is sorted by time remaining (descending),
 * then period (ascending), then event number (ascending) before the pass.
 */
module Sequencer {
  import opened Wrappers
  import opened Clock
  import opened Records

  /** `a` may come before `b` under the three-part sort key. */
  predicate KeyLe(a: Event, b: Event)
  {
    var ta, tb := GameTimeRemaining(a), GameTimeRemaining(b);
    ta > tb || (ta == tb && (a.period < b.period || (a.period == b.period && a.eventNum <= b.eventNum)))
  }

  predicate SortedByKey(s: seq<Event>)
  {
    forall i, j :: 0 <= i < j < |s| ==> KeyLe(s[i], s[j])
  }

  /** Any two events are comparable. */
  lemma KeyTotal(a: Event, b: Event)
    ensures KeyLe(a, b) || KeyLe(b, a)
  {
  }

  /** Puts `e` in front of the first event it may precede. */
  function Insert(e: Event, s: seq<Event>): (r: seq<Event>)
    requires SortedByKey(s)
    ensures SortedByKey(r)
    ensures multiset(r) == multiset(s) + multiset{e}
  {
    if |s| == 0 then [e]
    else if KeyLe(e, s[0]) then
      InsertFront(e, s);
      [e] + s
    else
      var tail := Insert(e, s[1..]);
      InsertBehindHead(e, s, tail);
      PrependSorted(s[0], tail);
      assert s == [s[0]] + s[1..];
      [s[0]] + tail
  }

  /** When `e` may not precede the head, everything inserted behind the head may follow it. */
  lemma InsertBehindHead(e: Event, s: seq<Event>, tail: seq<Event>)
    requires SortedByKey(s) && |s| > 0 && !KeyLe(e, s[0])
    requires multiset(tail) == multiset(s[1..]) + multiset{e}
    ensures forall k :: 0 <= k < |tail| ==> KeyLe(s[0], tail[k])
  {
    KeyTotal(e, s[0]);
    forall k | 0 <= k < |tail| ensures KeyLe(s[0], tail[k]) {
      assert tail[k] in multiset(tail);
      if tail[k] != e {
        assert tail[k] in multiset(s[1..]);
        var j :| 0 <= j < |s[1..]| && s[1..][j] == tail[k];
        assert s[j + 1] == tail[k];
      }
    }
  }

  lemma PrependSorted(x: Event, s: seq<Event>)
    requires SortedByKey(s) && forall k :: 0 <= k < |s| ==> KeyLe(x, s[k])
    ensures SortedByKey([x] + s)
  {
    var r := [x] + s;
    forall i, j | 0 <= i < j < |r| ensures KeyLe(r[i], r[j]) {
      if i > 0 {
        assert r[i] == s[i - 1] && r[j] == s[j - 1];
      }
    }
  }

  lemma InsertFront(e: Event, s: seq<Event>)
    requires SortedByKey(s) && |s| > 0 && KeyLe(e, s[0])
    ensures SortedByKey([e] + s)
  {
    var r := [e] + s;
    forall i, j | 0 <= i < j < |r| ensures KeyLe(r[i], r[j]) {
      if i == 0 {
        KeyTrans(e, s[0], s[j - 1]);
      }
    }
  }

  lemma KeyTrans(a: Event, b: Event, c: Event)
    requires KeyLe(a, b) && KeyLe(b, c)
    ensures KeyLe(a, c)
  {
  }

  /** The sort as a pure function: sorted by the key, and a permutation of the input. */
  function SortEvents(s: seq<Event>): (r: seq<Event>)
    ensures SortedByKey(r)
    ensures multiset(r) == multiset(s)
  {
    if |s| == 0 then []
    else
      assert s == [s[0]] + s[1..];
      Insert(s[0], SortEvents(s[1..]))
  }

  /** A regulation clock that does not exceed its ten-minute period. */
  predicate InRegulation(e: Event)
  {
    1 <= e.period <= RegulationPeriods && ClockTenths(e.clock) <= RegulationLength
  }

  /** Within regulation the sorted order never goes back to an earlier period. */
  lemma SortedRegulationChronological(s: seq<Event>, i: nat, j: nat)
    requires SortedByKey(s) && i < j < |s|
    requires InRegulation(s[i]) && InRegulation(s[j])
    ensures s[i].period <= s[j].period
  {
    assert KeyLe(s[i], s[j]);
    if s[j].period < s[i].period {
      RegulationChronology(s[j].clock, s[j].period, s[i].clock, s[i].period);
    }
  }

  /**
   * Across the regulation/overtime boundary the key is not chronological: an
   * overtime play at 4:00 sorts before a fourth-period play at 1:00.
   */
  lemma OvertimeInterleaves()
    ensures var q4 := Event(0, 1, 4, PlayClock(1, 0), 1, None, None, None, None);
            var ot := Event(0, 2, 5, PlayClock(4, 0), 1, None, None, None, None);
            KeyLe(ot, q4) && !KeyLe(q4, ot)
  {
  }
}
