/**
 Going away. A lost connection and an explicit leave are separate routines; they treat a gathering alike, in any
 order of the rows. And a departure takes away what the joins of the same player brought, and nothing else.
 */
module Departures {
  import opened ParticipantLists
  import opened Tables
  import opened Moves
  import opened Handlers
  import Spec = MatchmakingSpec

  /** The gatherings of `p` that a lost connection does not skip. */
  function LeftOnDisconnect(s: State, p: Pid): set<Gid> {
    set gid | gid in Spec.GatheringsOf(s, p) && !Spec.KeptOnDisconnect(s.gatherings[gid])
  }

  /** Row by row, whatever the order: leaving changes the registered rows the player is in, each as a departure. */
  lemma {:induction false} LeaveEachRow(s: State, p: Pid, order: seq<Gid>, gid: Gid)
    requires gid in s.gatherings
    ensures gid in Spec.LeaveEach(s, p, order).gatherings
    ensures Spec.LeaveEach(s, p, order).gatherings[gid]
         == if gid in order && gid in Spec.GatheringsOf(s, p) then Spec.AfterDeparture(s.gatherings[gid], p)
            else s.gatherings[gid]
    decreases |order|
  {
    if order != [] {
      LeaveEachRow(Spec.EndGatheringParticipation(s, order[0], p).state, p, order[1..], gid);
      assert order == [order[0]] + order[1..];
    }
  }

  lemma {:induction false} DisconnectEachRow(s: State, p: Pid, order: seq<Gid>, gid: Gid)
    requires NoRepeats(order) && forall g :: g in order ==> g in Spec.GatheringsOf(s, p)
    requires gid in s.gatherings
    ensures gid in Spec.DisconnectEach(s, p, order).gatherings
    ensures Spec.DisconnectEach(s, p, order).gatherings[gid]
         == if gid in order && !Spec.KeptOnDisconnect(s.gatherings[gid]) then Spec.AfterDeparture(s.gatherings[gid], p)
            else s.gatherings[gid]
    decreases |order|
  {
    if order != [] {
      assert order[0] in order;
      var t := Spec.DisconnectFrom(s, order[0], p);
      forall g | g in order[1..]
        ensures g in order && g != order[0] && g in Spec.GatheringsOf(t, p)
      {
        var i :| 1 <= i < |order| && order[i] == g;
      }
      DisconnectEachRow(t, p, order[1..], gid);
      assert order == [order[0]] + order[1..];
    }
  }

  lemma {:induction false} DisconnectEachRest(s: State, p: Pid, order: seq<Gid>)
    ensures
      var t := Spec.DisconnectEach(s, p, order);
      t == s.(gatherings := t.gatherings, tracking := t.tracking) && t.gatherings.Keys == s.gatherings.Keys
    decreases |order|
  {
    if order != [] {
      DisconnectEachRest(Spec.DisconnectFrom(s, order[0], p), p, order[1..]);
    }
  }

  lemma {:induction false} LeaveEachRest(s: State, p: Pid, order: seq<Gid>)
    ensures
      var t := Spec.LeaveEach(s, p, order);
      t == s.(gatherings := t.gatherings, tracking := t.tracking) && t.gatherings.Keys == s.gatherings.Keys
    decreases |order|
  {
    if order != [] {
      LeaveEachRest(Spec.EndGatheringParticipation(s, order[0], p).state, p, order[1..]);
    }
  }

  /**
   Losing the connection does to the tables what leaving each gathering that is not skipped does, for any order in
   which the rows come on either side; only the log can tell them apart.
   */
  lemma DisconnectingEqualsLeaving(s: State, p: Pid, rows: seq<Gid>, left: seq<Gid>)
    requires Spec.Enumerates(rows, Spec.GatheringsOf(s, p))
    requires Spec.Enumerates(left, LeftOnDisconnect(s, p))
    ensures
      var leaving := Spec.LeaveEach(s, p, left);
      Spec.DisconnectEach(s, p, rows) == leaving.(tracking := Spec.DisconnectEach(s, p, rows).tracking)
  {
    var d, l := Spec.DisconnectEach(s, p, rows), Spec.LeaveEach(s, p, left);
    DisconnectEachRest(s, p, rows);
    LeaveEachRest(s, p, left);
    forall gid | gid in s.gatherings
      ensures d.gatherings[gid] == l.gatherings[gid]
    {
      DisconnectEachRow(s, p, rows, gid);
      LeaveEachRow(s, p, left, gid);
    }
  }

  /** Gatherings the player is not in, or that are skipped, or that are over, stay as they are; the player is gone from the rest. */
  lemma DisconnectLeavesOnlySkipped(s: State, p: Pid, rows: seq<Gid>, gid: Gid)
    requires Spec.Enumerates(rows, Spec.GatheringsOf(s, p)) && gid in s.gatherings
    ensures
      var before, t := s.gatherings[gid], Spec.DisconnectEach(s, p, rows);
      && gid in t.gatherings
      && (gid !in LeftOnDisconnect(s, p) ==> t.gatherings[gid] == before)
      && (gid in LeftOnDisconnect(s, p) ==> t.gatherings[gid].participants == Without(before.participants, p))
      && (t.gatherings[gid].registered && p in t.gatherings[gid].participants ==> Spec.KeptOnDisconnect(before))
  {
    DisconnectEachRow(s, p, rows, gid);
  }

  // ---------------------------------------------------------------- the log, gathering by gathering

  function About(log: seq<Event>, gid: Gid): seq<Event> {
    if log == [] then []
    else
      var last := log[|log| - 1];
      About(log[..|log| - 1], gid) + if last.gid == gid then [last] else []
  }

  lemma {:induction false} AboutConcat(a: seq<Event>, b: seq<Event>, gid: Gid)
    ensures About(a + b, gid) == About(a, gid) + About(b, gid)
    decreases |b|
  {
    if b == [] {
      assert a + b == a;
    } else {
      var n := |b| - 1;
      assert (a + b)[..|a| + n] == a + b[..n];
      AboutConcat(a, b[..n], gid);
    }
  }

  lemma {:induction false} AboutOne(log: seq<Event>, gid: Gid, other: Gid)
    requires forall e :: e in log ==> e.gid == gid
    ensures About(log, other) == if other == gid then log else []
    decreases |log|
  {
    if log != [] {
      var n := |log| - 1;
      assert log[n] in log && log == log[..n] + [log[n]];
      AboutOne(log[..n], gid, other);
    }
  }

  /** The entries a lost connection writes about one gathering among the rows it goes through. */
  function DisconnectEntries(s: State, p: Pid, order: seq<Gid>, gid: Gid): seq<Event> {
    if gid in order && gid in s.gatherings && !Spec.KeptOnDisconnect(s.gatherings[gid])
    then Spec.DepartureEntries(s.gatherings[gid], gid, p, Spec.Disconnect)
    else []
  }

  lemma DisconnectFromLogs(s: State, p: Pid, row: Gid, gid: Gid)
    ensures About(Spec.DisconnectFrom(s, row, p).tracking, gid)
         == About(s.tracking, gid) + DisconnectEntries(s, p, [row], gid)
  {
    if row in s.gatherings && !Spec.KeptOnDisconnect(s.gatherings[row]) {
      var entries := Spec.DepartureEntries(s.gatherings[row], row, p, Spec.Disconnect);
      AboutConcat(s.tracking, entries, gid);
      AboutOne(entries, row, gid);
    }
  }

  lemma EntriesRowByRow(s: State, p: Pid, order: seq<Gid>, gid: Gid)
    requires NoRepeats(order) && order != []
    ensures DisconnectEntries(s, p, order, gid)
         == DisconnectEntries(s, p, [order[0]], gid)
            + DisconnectEntries(Spec.DisconnectFrom(s, order[0], p), p, order[1..], gid)
  {
    assert order == [order[0]] + order[1..];
    if gid == order[0] {
      assert gid !in order[1..];
    } else {
      UntouchedByDisconnect(s, p, order[0], gid);
    }
  }

  lemma UntouchedByDisconnect(s: State, p: Pid, row: Gid, gid: Gid)
    requires gid != row
    ensures
      var t := Spec.DisconnectFrom(s, row, p);
      (gid in s.gatherings <==> gid in t.gatherings)
      && (gid in s.gatherings ==> t.gatherings[gid] == s.gatherings[gid])
  {
  }

  lemma Associate<T>(a: seq<T>, b: seq<T>, c: seq<T>)
    ensures a + b + c == a + (b + c)
  {
  }

  /** What is logged about one gathering does not depend on the order of the rows: one departure, or nothing. */
  lemma {:induction false} DisconnectLogsDepartures(s: State, p: Pid, order: seq<Gid>, gid: Gid)
    requires NoRepeats(order)
    ensures About(Spec.DisconnectEach(s, p, order).tracking, gid)
         == About(s.tracking, gid) + DisconnectEntries(s, p, order, gid)
    decreases |order|
  {
    if order == [] {
      assert DisconnectEntries(s, p, order, gid) == [];
    } else {
      var t := Spec.DisconnectFrom(s, order[0], p);
      DisconnectFromLogs(s, p, order[0], gid);
      DisconnectLogsDepartures(t, p, order[1..], gid);
      EntriesRowByRow(s, p, order, gid);
      Associate(About(s.tracking, gid), DisconnectEntries(s, p, [order[0]], gid), DisconnectEntries(t, p, order[1..], gid));
    }
  }

  // ---------------------------------------------------------------- leaving undoes joining

  function ListAfterOne(ps: seq<Pid>, m: Move, gid: Gid): seq<Pid> {
    match m
    case Join(g, _, newcomers, inFront) => if g == gid then JoinedList(ps, newcomers, inFront) else ps
    case Depart(g, q, _) => if g == gid then Without(ps, q) else ps
    case _ => ps
  }

  /** What a run of moves does to the participant list of one gathering. */
  function ListAfter(ps: seq<Pid>, ms: seq<Move>, gid: Gid): seq<Pid>
    decreases |ms|
  {
    if ms == [] then ps else ListAfter(ListAfterOne(ps, ms[0], gid), ms[1..], gid)
  }

  lemma {:induction false} RunListAfter(s: State, ms: seq<Move>, gid: Gid)
    requires WellFormed(s) && CanRun(s, ms) && gid in s.gatherings
    ensures gid in Run(s, ms).gatherings
    ensures Run(s, ms).gatherings[gid].participants == ListAfter(s.gatherings[gid].participants, ms, gid)
    decreases |ms|
  {
    if ms != [] {
      MoveKeepsWellFormed(s, ms[0]);
      RunListAfter(Do(s, ms[0]), ms[1..], gid);
    }
  }

  /** The same moves as if `p` had never been there. */
  function Hide(ms: seq<Move>, p: Pid): seq<Move>
    decreases |ms|
  {
    if ms == [] then []
    else
      var rest := Hide(ms[1..], p);
      match ms[0]
      case Join(gid, source, newcomers, inFront) => [Join(gid, source, Without(newcomers, p), inFront)] + rest
      case Depart(_, q, _) => if q == p then rest else [ms[0]] + rest
      case _ => [ms[0]] + rest
  }

  /** Everybody else's order and multiplicity is what it would be if `p` had never joined or left. */
  lemma {:induction false} OthersAreUnaffected(ps: seq<Pid>, ms: seq<Move>, gid: Gid, p: Pid)
    ensures Without(ListAfter(ps, ms, gid), p) == ListAfter(Without(ps, p), Hide(ms, p), gid)
    decreases |ms|
  {
    if ms != [] {
      match ms[0] {
        case Join(g, source, newcomers, inFront) =>
          var next := if g == gid then JoinedList(ps, newcomers, inFront) else ps;
          WithoutConcat(newcomers, ps, p);
          WithoutConcat(ps, newcomers, p);
          OthersAreUnaffected(next, ms[1..], gid, p);
          assert Hide(ms, p)[1..] == Hide(ms[1..], p);
        case Depart(g, q, _) =>
          OthersAreUnaffected(if g == gid then Without(ps, q) else ps, ms[1..], gid, p);
          WithoutSwaps(ps, q, p);
          if q == p {
            WithoutAbsent(Without(ps, p), p);
          } else {
            assert Hide(ms, p)[1..] == Hide(ms[1..], p);
          }
        case _ =>
          OthersAreUnaffected(ps, ms[1..], gid, p);
          assert Hide(ms, p)[1..] == Hide(ms[1..], p);
      }
    }
  }

  /**
   Joining with guests and leaving again, whatever others do in between, leaves the list the others alone would have
   made of it.
   */
  lemma LeaveUndoesJoin(ps: seq<Pid>, p: Pid, k: nat, inFront: bool, between: seq<Move>, gid: Gid)
    requires p !in ps && Hide(between, p) == between
    ensures Without(ListAfter(JoinedList(ps, Copies(p, k), inFront), between, gid), p) == ListAfter(ps, between, gid)
  {
    var joined := JoinedList(ps, Copies(p, k), inFront);
    assert Without(joined, p) == ps by {
      WithoutCopies(p, k);
      WithoutAbsent(ps, p);
      WithoutConcat(Copies(p, k), ps, p);
      WithoutConcat(ps, Copies(p, k), p);
      assert [] + ps == ps && ps + [] == ps;
    }
    OthersAreUnaffected(joined, between, gid, p);
  }

  lemma {:induction false} ListAfterConcat(ps: seq<Pid>, a: seq<Move>, b: seq<Move>, gid: Gid)
    ensures ListAfter(ps, a + b, gid) == ListAfter(ListAfter(ps, a, gid), b, gid)
    decreases |a|
  {
    if a == [] {
      assert a + b == b;
    } else {
      assert (a + b)[1..] == a[1..] + b;
      ListAfterConcat(ListAfterOne(ps, a[0], gid), a[1..], b, gid);
    }
  }

  /** On the tables: a player joins with guests, others come and go, the player leaves; the list is what the others made. */
  lemma JoinThenLeaveOnTables(
    s: State, gid: Gid, p: Pid, k: nat, inFront: bool, between: seq<Move>, exit: Spec.Exit, ms: seq<Move>)
    requires WellFormed(s) && gid in s.gatherings && p !in s.gatherings[gid].participants && Hide(between, p) == between
    requires ms == [Join(gid, p, Copies(p, k), inFront)] + between + [Depart(gid, p, exit)] && CanRun(s, ms)
    ensures gid in Run(s, ms).gatherings
    ensures Run(s, ms).gatherings[gid].participants == ListAfter(s.gatherings[gid].participants, between, gid)
  {
    var ps := s.gatherings[gid].participants;
    var join, depart := [Join(gid, p, Copies(p, k), inFront)], [Depart(gid, p, exit)];
    RunListAfter(s, ms, gid);
    ListAfterConcat(ps, join + between, depart, gid);
    ListAfterConcat(ps, join, between, gid);
    assert join[1..] == [] && depart[1..] == [];
    LeaveUndoesJoin(ps, p, k, inFront, between, gid);
  }

  /** A guest who neither owns nor hosts leaves no trace in the row at all. */
  lemma GuestLeavesNoTrace(s: State, gid: Gid, p: Pid, vacant: UInt16)
    requires Good(s) && IsRegistered(s, gid) && s.gatherings[gid].participants != []
    requires Spec.JoinGathering(s, gid, p, vacant).result.Ok?
    requires p != s.gatherings[gid].owner && p != s.gatherings[gid].host
    ensures
      var joined := Spec.JoinGathering(s, gid, p, vacant).state;
      var left := Spec.EndGatheringParticipation(joined, gid, p);
      left.result == Ok(()) && left.state.gatherings == s.gatherings
  {
    var k := if vacant == 0 then 1 else vacant;
    var g := s.gatherings[gid];
    LeaveUndoesJoin(g.participants, p, k, true, [], gid);
    var joined := Spec.JoinGathering(s, gid, p, vacant).state;
    assert joined.gatherings[gid].participants[0] == p;
    assert Spec.AfterDeparture(joined.gatherings[gid], p) == g;
  }
}
