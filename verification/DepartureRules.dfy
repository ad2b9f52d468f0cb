/**
 What a departure does to the tables, said with flags, list, owner and host alone. The rules hold for a leave, for a
 lost connection and over runs, and bind the functions of `MatchmakingSpec` from outside.
 */
module DepartureRules {
  import opened ParticipantLists
  import opened Tables
  import opened Moves
  import opened Handlers
  import opened Departures
  import opened RunInvariants
  import Spec = MatchmakingSpec

  /** `h` is what becomes of the registered row `g` when `p` is gone from it. */
  predicate HasLeft(g: Gathering, p: Pid, h: Gathering) {
    var flags, rest := g.form.flags, Without(g.participants, p);
    var lasting := PersistentGathering in flags || PersistentGatheringAllowZeroUsers in flags;
    && h.form == g.form && h.kind == g.kind && h.participants == rest
    && (h.registered
        <==> lasting || (rest != [] && (p != g.owner || (DisconnectChangeOwner in flags && rest[0] != 0))))
    && h.owner == (if h.registered && !lasting && p == g.owner then rest[0] else g.owner)
    && h.host == (if h.registered && !lasting && p == g.host && h.owner != 0 then h.owner else g.host)
  }

  /** The entries that say how the rows differ. */
  function Differences(g: Gathering, h: Gathering, p: Pid, gid: Gid): seq<Event> {
    (if g.registered && !h.registered then [LogUnregister(p, gid)] else [])
    + (if h.owner != g.owner then [LogChangeOwner(p, gid, g.owner, h.owner)] else [])
    + (if h.host != g.host then [LogChangeHost(p, gid, g.host, h.host)] else [])
  }

  lemma RowRule(g: Gathering, p: Pid)
    requires g.registered && p in g.participants
    ensures HasLeft(g, p, Spec.AfterDeparture(g, p))
  {
  }

  lemma LogRule(g: Gathering, p: Pid, gid: Gid)
    requires g.registered && p in g.participants
    ensures
      var h, rest := Spec.AfterDeparture(g, p), Without(g.participants, p);
      && Spec.DepartureEntries(g, gid, p, Spec.Leave) == [LogLeave(p, gid, rest)] + Differences(g, h, p, gid)
      && Spec.DepartureEntries(g, gid, p, Spec.Disconnect) == [LogDisconnect(p, gid, rest)] + Differences(g, h, p, gid)
  {
    assert Without(g.participants, p) != [] ==> Without(g.participants, p)[0] in Without(g.participants, p);
  }

  /** A leave: who is refused and how, what becomes of the row, and what is logged. Nothing else changes. */
  lemma LeaveRule(s: State, gid: Gid, p: Pid)
    ensures
      var r := Spec.EndGatheringParticipation(s, gid, p);
      if gid !in s.gatherings || !s.gatherings[gid].registered then r == Outcome(s, Err(SessionVoid))
      else if p !in s.gatherings[gid].participants then r == Outcome(s, Err(NotParticipated))
      else
        && r.result == Ok(()) && gid in r.state.gatherings
        && var g, h := s.gatherings[gid], r.state.gatherings[gid];
        && HasLeft(g, p, h)
        && r.state == s.(
             gatherings := s.gatherings[gid := h],
             tracking := s.tracking + [LogLeave(p, gid, h.participants)] + Differences(g, h, p, gid))
  {
    if gid in s.gatherings && s.gatherings[gid].registered && p in s.gatherings[gid].participants {
      RowRule(s.gatherings[gid], p);
      LogRule(s.gatherings[gid], p, gid);
    }
  }

  lemma EndRule(s: State, p: Pid, gid: Gid, message: string)
    ensures
      Spec.EndParticipation(s, p, gid, message)
      == if |message| > 256 then Outcome(s, Err(InvalidArgument)) else Spec.EndGatheringParticipation(s, gid, p)
  {
  }

  /**
   A lost connection, for any order of the rows: the player stays where PersistentGathering says so, and in communities
   unless PersistentGatheringLeaveParticipation says otherwise; everywhere else it is as if the player had left.
   */
  lemma DisconnectRule(s: State, p: Pid, order: seq<Gid>, gid: Gid)
    requires Spec.Enumerates(order, Spec.GatheringsOf(s, p)) && gid in s.gatherings
    ensures gid in Spec.DisconnectEach(s, p, order).gatherings
    ensures
      var t := Spec.DisconnectEach(s, p, order);
      var g, h := s.gatherings[gid], t.gatherings[gid];
      var stays := PersistentGathering in g.form.flags
                   || (g.kind == CommunityKind && PersistentGatheringLeaveParticipation !in g.form.flags);
      if g.registered && p in g.participants && !stays then
        && p !in h.participants && HasLeft(g, p, h)
        && About(t.tracking, gid)
           == About(s.tracking, gid) + ([LogDisconnect(p, gid, h.participants)] + Differences(g, h, p, gid))
      else
        h == g && About(t.tracking, gid) == About(s.tracking, gid)
  {
    var g := s.gatherings[gid];
    DisconnectEachRow(s, p, order, gid);
    DisconnectLogsDepartures(s, p, order, gid);
    if g.registered && p in g.participants {
      RowRule(g, p);
      LogRule(g, p, gid);
    } else {
      assert gid !in order;
    }
  }

  // ---------------------------------------------------------------- over runs

  /** Nobody is left, or nobody but PID 0 in front. */
  predicate Deserted(g: Gathering) {
    g.participants == [] || g.participants[0] == 0
  }

  lemma MoveEnds(s: State, m: Move, gid: Gid)
    requires Enabled(s, m) && IsRegistered(s, gid) && DisconnectChangeOwner in s.gatherings[gid].form.flags
    requires !m.Restart? && !m.Unregister? && gid in Do(s, m).gatherings && !Do(s, m).gatherings[gid].registered
    ensures Deserted(Do(s, m).gatherings[gid])
  {
    if m.Depart? {
      RowRule(s.gatherings[gid], m.p);
    }
  }

  lemma {:induction false} RunEnds(s: State, ms: seq<Move>, gid: Gid)
    requires Good(s) && CanRun(s, ms) && IsRegistered(s, gid) && DisconnectChangeOwner in s.gatherings[gid].form.flags
    requires forall m :: m in ms ==> !m.Restart? && !m.Unregister?
    requires !IsRegistered(Run(s, ms), gid)
    ensures gid in Run(s, ms).gatherings && Deserted(Run(s, ms).gatherings[gid])
    decreases |ms|
  {
    if ms != [] {
      var m, t := ms[0], Do(s, ms[0]);
      assert m in ms;
      MoveIsFinal(s, m, gid);
      MoveKeepsGood(s, m);
      if IsRegistered(t, gid) {
        RunEnds(t, ms[1..], gid);
      } else {
        MoveEnds(s, m, gid);
        RunIsFinal(t, ms[1..], gid);
      }
    }
  }

  /** Somebody asks for the end: the owner, or a restart. */
  predicate AsksForEnd(s: State, step: Step, gid: Gid)
    requires gid in s.gatherings
  {
    (step.UnregisterGathering? && step.gid == gid && step.p == s.gatherings[gid].owner)
    || (step.ServerStart? && s.gatherings[gid].kind == SessionKind)
  }

  lemma StepEnds(s: State, step: Step, gid: Gid)
    requires Good(s) && Allowed(s, step) && IsRegistered(s, gid)
    requires DisconnectChangeOwner in s.gatherings[gid].form.flags && !IsRegistered(Next(s, step), gid)
    ensures gid in Next(s, step).gatherings && (AsksForEnd(s, step, gid) || Deserted(Next(s, step).gatherings[gid]))
  {
    if step.UnregisterGathering? {
      var ms := UnregisterStep(s, step);
    } else if !step.ServerStart? {
      var ms := HandlerLeads(s, step);
      RunEnds(s, ms, gid);
    }
  }

  /**
   Over every run of the server: a gathering whose ownership may pass on ends only deserted, or because its owner or a
   restart asks for it.
   */
  lemma {:induction false} HandedOnToTheLast(s: State, steps: seq<Step>, gid: Gid)
    requires Good(s) && Serves(s, steps) && IsRegistered(s, gid)
    requires DisconnectChangeOwner in s.gatherings[gid].form.flags && !IsRegistered(Served(s, steps), gid)
    ensures gid in Served(s, steps).gatherings
    ensures Deserted(Served(s, steps).gatherings[gid])
            || exists k :: 0 <= k < |steps| && Serves(s, steps[..k]) && gid in Served(s, steps[..k]).gatherings
                           && AsksForEnd(Served(s, steps[..k]), steps[k], gid)
    decreases |steps|
  {
    if steps != [] {
      var t := Next(s, steps[0]);
      StepKeepsGood(s, steps[0]);
      var ms := StepIsRun(s, steps[0]);
      RunIsFinal(s, ms, gid);
      if !IsRegistered(t, gid) {
        StepEnds(s, steps[0], gid);
        UnregisteredIsFinal(t, steps[1..], gid);
        assert steps[..0] == [];
        assert AsksForEnd(s, steps[0], gid) ==> AsksForEnd(Served(s, steps[..0]), steps[0], gid);
      } else {
        HandedOnToTheLast(t, steps[1..], gid);
        if !Deserted(Served(s, steps).gatherings[gid]) {
          var k :| 0 <= k < |steps[1..]| && Serves(t, steps[1..][..k]) && gid in Served(t, steps[1..][..k]).gatherings
                   && AsksForEnd(Served(t, steps[1..][..k]), steps[1..][k], gid);
          OneStepEarlier(s, steps, k);
          assert AsksForEnd(Served(s, steps[..k + 1]), steps[k + 1], gid);
        }
      }
    }
  }

  lemma OneStepEarlier(s: State, steps: seq<Step>, k: nat)
    requires steps != [] && Allowed(s, steps[0]) && k <= |steps| - 1 && Serves(Next(s, steps[0]), steps[1..][..k])
    ensures Serves(s, steps[..k + 1]) && Served(s, steps[..k + 1]) == Served(Next(s, steps[0]), steps[1..][..k])
  {
    assert steps[..k + 1][0] == steps[0] && steps[..k + 1][1..] == steps[1..][..k];
  }
}
