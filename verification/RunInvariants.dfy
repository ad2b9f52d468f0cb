/** What holds of gatherings in every state the server can reach, whatever it is asked to do. */
module RunInvariants {
  import opened ParticipantLists
  import opened Tables
  import opened Moves
  import opened Handlers
  import Spec = MatchmakingSpec

  lemma ReachableIsGood(steps: seq<Step>)
    requires Serves(EMPTY, steps)
    ensures Good(Served(EMPTY, steps))
  {
    var ms := ServiceIsRun(EMPTY, steps);
    RunKeepsGood(EMPTY, ms);
  }

  /**
   Owner and host stay inside, through joins, leaves, lost connections, migrations, host changes and restarts; the
   gatherings that may go on without users are the only exception.
   */
  lemma OwnerAndHostStayInside(steps: seq<Step>, gid: Gid)
    requires Serves(EMPTY, steps) && gid in Served(EMPTY, steps).gatherings
    ensures
      var g := Served(EMPTY, steps).gatherings[gid];
      g.registered && g.participants != []
      && PersistentGathering !in g.form.flags && PersistentGatheringAllowZeroUsers !in g.form.flags ==>
        g.owner in g.participants && (g.host == 0 || g.host in g.participants)
  {
    ReachableIsGood(steps);
    assert GoodRow(Served(EMPTY, steps).gatherings[gid]);
  }

  // ---------------------------------------------------------------- capacity

  /** A gathering with a limit never holds more entries than the limit, guests and extra participants included. */
  lemma CapacityIsKept(steps: seq<Step>, gid: Gid)
    requires Serves(EMPTY, steps) && gid in Served(EMPTY, steps).gatherings
    ensures
      var g := Served(EMPTY, steps).gatherings[gid];
      g.form.maxParticipants != 0 ==> |g.participants| <= g.form.maxParticipants
  {
    ReachableIsGood(steps);
    assert GoodRow(Served(EMPTY, steps).gatherings[gid]);
  }

  /**
   A successful join adds the caller's copies and nothing else. It reports the length of the list it leaves behind,
   exactly as long as that fits into uint32; with a limit it always does.
   */
  lemma JoinReportsLength(s: State, gid: Gid, p: Pid, vacant: UInt16)
    requires Good(s) && gid in s.gatherings
    ensures
      var r := Spec.JoinGathering(s, gid, p, vacant);
      r.result.Ok? ==>
        var g, after := s.gatherings[gid], r.state.gatherings[gid].participants;
        && (r.result.value == |after| <==> |after| < UINT32_SIZE)
        && (g.form.maxParticipants != 0 ==> r.result.value == |after| <= g.form.maxParticipants)
        && multiset(after) == multiset(g.participants)[p := if vacant == 0 then 1 else vacant]
  {
    assert GoodRow(s.gatherings[gid]);
    if p !in s.gatherings[gid].participants {
      GuestsMultiset(s.gatherings[gid].participants, p, if vacant == 0 then 1 else vacant);
    }
  }

  lemma GuestsMultiset(ps: seq<Pid>, p: Pid, k: nat)
    requires p !in ps
    ensures multiset(Copies(p, k) + ps) == multiset(ps)[p := k]
  {
    CopiesMultiset(p, k);
    assert multiset(Copies(p, k) + ps) == multiset(Copies(p, k)) + multiset(ps);
  }

  lemma {:induction false} CopiesMultiset(p: Pid, k: nat)
    ensures multiset(Copies(p, k)) == multiset{}[p := k]
  {
    if k > 0 {
      CopiesMultiset(p, k - 1);
      assert Copies(p, k) == [p] + Copies(p, k - 1);
    }
  }

  /**
   The join with extra participants truncates the size it checks to uint32. Having accepted, it has kept the limit
   exactly when the untruncated size fits.
   */
  lemma JoinWithKeepsLimitIff(s: State, gid: Gid, p: Pid, additional: seq<Pid>, imAlreadyJoined: bool)
    requires Good(s) && gid in s.gatherings
    requires Spec.JoinGatheringWithParticipants(s, gid, p, additional, imAlreadyJoined).result.Ok?
    ensures
      var g := s.gatherings[gid];
      var after := Spec.JoinGatheringWithParticipants(s, gid, p, additional, imAlreadyJoined).state.gatherings[gid];
      |after.participants| <= g.form.maxParticipants <==> |g.participants| + 1 + |additional| < UINT32_SIZE
  {
    assert GoodRow(s.gatherings[gid]);
  }

  /**
   A successful join adds the newcomers and nothing else, and reports the length exactly as long as that fits into
   uint32. With a limit, and a list that fits into a message, it always does, and the limit is kept.
   */
  lemma JoinWithReportsLength(s: State, gid: Gid, p: Pid, additional: seq<Pid>, imAlreadyJoined: bool)
    requires Good(s) && gid in s.gatherings
    ensures
      var r := Spec.JoinGatheringWithParticipants(s, gid, p, additional, imAlreadyJoined);
      r.result.Ok? ==>
        var g, after := s.gatherings[gid], r.state.gatherings[gid].participants;
        && (r.result.value == |after| <==> |after| < UINT32_SIZE)
        && (g.form.maxParticipants != 0 && |additional| < LIST_BOUND ==> r.result.value == |after| <= g.form.maxParticipants)
        && multiset(after)
           == multiset(g.participants) + multiset(additional) + if imAlreadyJoined then multiset{} else multiset{p}
  {
    assert GoodRow(s.gatherings[gid]);
    var r := Spec.JoinGatheringWithParticipants(s, gid, p, additional, imAlreadyJoined);
    if r.result.Ok? {
      var after := r.state.gatherings[gid].participants;
      assert after == s.gatherings[gid].participants + ((if imAlreadyJoined then [] else [p]) + additional);
      ShortIffWhole(|after|);
    }
  }

  lemma ShortIffWhole(n: nat)
    ensures n % UINT32_SIZE == n <==> n < UINT32_SIZE
  {
  }

  /**
   An input that breaks the limit: 2^32 - 1 extra participants pass the check of an empty session for one. No message
   holds such a list, and runs of the server do without.
   */
  lemma WideListBreaksLimit(s: State, gid: Gid, p: Pid, additional: seq<Pid>)
    requires gid in s.gatherings && s.gatherings[gid].participants == [] && s.gatherings[gid].form.maxParticipants == 1
    requires |additional| == UINT32_SIZE - 1
    ensures
      var r := Spec.JoinGatheringWithParticipants(s, gid, p, additional, false);
      r.result == Ok(0) && |r.state.gatherings[gid].participants| == UINT32_SIZE
  {
  }

  /**
   The two joins read a limit of 0 differently: without extra participants a gathering is then never full, with them
   it is full unless the size wraps to 0 in uint32.
   */
  lemma ZeroLimitIsFullIff(s: State, gid: Gid, p: Pid, vacant: UInt16, additional: seq<Pid>, imAlreadyJoined: bool)
    requires gid in s.gatherings && s.gatherings[gid].form.maxParticipants == 0
    ensures Spec.JoinGathering(s, gid, p, vacant).result != Err(SessionFull)
    ensures Spec.JoinGatheringWithParticipants(s, gid, p, additional, imAlreadyJoined).result == Err(SessionFull)
       <==> (|s.gatherings[gid].participants| + 1 + |additional|) % UINT32_SIZE != 0
  {
  }

  // ---------------------------------------------------------------- what never changes

  lemma MoveIsFinal(s: State, m: Move, gid: Gid)
    requires Good(s) && Enabled(s, m) && gid in s.gatherings
    ensures gid in Do(s, m).gatherings
    ensures Do(s, m).gatherings[gid].form == s.gatherings[gid].form && Do(s, m).gatherings[gid].kind == s.gatherings[gid].kind
    ensures !s.gatherings[gid].registered ==> Do(s, m).gatherings[gid] == s.gatherings[gid]
    ensures DisconnectChangeOwner !in s.gatherings[gid].form.flags && ParticipantsChangeOwner !in s.gatherings[gid].form.flags ==>
              Do(s, m).gatherings[gid].owner == s.gatherings[gid].owner
  {
  }

  lemma {:induction false} RunIsFinal(s: State, ms: seq<Move>, gid: Gid)
    requires Good(s) && CanRun(s, ms) && gid in s.gatherings
    ensures gid in Run(s, ms).gatherings
    ensures Run(s, ms).gatherings[gid].form == s.gatherings[gid].form && Run(s, ms).gatherings[gid].kind == s.gatherings[gid].kind
    ensures !s.gatherings[gid].registered ==> Run(s, ms).gatherings[gid] == s.gatherings[gid]
    ensures DisconnectChangeOwner !in s.gatherings[gid].form.flags && ParticipantsChangeOwner !in s.gatherings[gid].form.flags ==>
              Run(s, ms).gatherings[gid].owner == s.gatherings[gid].owner
    decreases |ms|
  {
    if ms != [] {
      MoveIsFinal(s, ms[0], gid);
      MoveKeepsGood(s, ms[0]);
      RunIsFinal(Do(s, ms[0]), ms[1..], gid);
    }
  }

  /** Once unregistered, a gathering's row never changes again, under any requests. */
  lemma UnregisteredIsFinal(s: State, steps: seq<Step>, gid: Gid)
    requires Good(s) && Serves(s, steps)
    requires gid in s.gatherings && !s.gatherings[gid].registered
    ensures gid in Served(s, steps).gatherings && Served(s, steps).gatherings[gid] == s.gatherings[gid]
  {
    var ms := ServiceIsRun(s, steps);
    RunIsFinal(s, ms, gid);
  }

  /** Without the two flags that let ownership move, a gathering keeps its owner for its whole life. */
  lemma OwnerIsStable(s: State, steps: seq<Step>, gid: Gid)
    requires Good(s) && Serves(s, steps) && gid in s.gatherings
    requires DisconnectChangeOwner !in s.gatherings[gid].form.flags
    requires ParticipantsChangeOwner !in s.gatherings[gid].form.flags
    ensures gid in Served(s, steps).gatherings && Served(s, steps).gatherings[gid].owner == s.gatherings[gid].owner
  {
    var ms := ServiceIsRun(s, steps);
    RunIsFinal(s, ms, gid);
  }

  // ---------------------------------------------------------------- community participation counts

  /** The counts logged for one user in one community, oldest first. */
  function LoggedCounts(log: seq<CommunityEntry>, p: Pid, community: Gid): seq<nat> {
    if log == [] then []
    else
      var init, last := log[..|log| - 1], log[|log| - 1];
      LoggedCounts(init, p, community) + if last.pid == p && last.community == community then [last.count] else []
  }

  function UpTo(n: nat): seq<nat> { seq(n, i requires 0 <= i => i + 1) }

  function StoredCount(s: State, p: Pid, community: Gid): nat {
    if (p, community) in s.counts then s.counts[(p, community)] else 0
  }

  ghost predicate Gapless(s: State) {
    forall p, community :: LoggedCounts(s.communityLog, p, community) == UpTo(StoredCount(s, p, community))
  }

  lemma MoveKeepsGapless(s: State, m: Move)
    requires Gapless(s) && Enabled(s, m)
    ensures Gapless(Do(s, m))
  {
    var t := Do(s, m);
    if m.Count? {
      assert t.communityLog[..|t.communityLog| - 1] == s.communityLog;
      forall p, community
        ensures LoggedCounts(t.communityLog, p, community) == UpTo(StoredCount(t, p, community))
      {
        assert LoggedCounts(s.communityLog, p, community) == UpTo(StoredCount(s, p, community));
      }
    } else {
      assert t.communityLog == s.communityLog && t.counts == s.counts;
      forall p, community
        ensures LoggedCounts(t.communityLog, p, community) == UpTo(StoredCount(t, p, community))
      {
        assert LoggedCounts(s.communityLog, p, community) == UpTo(StoredCount(s, p, community));
      }
    }
  }

  lemma {:induction false} RunKeepsGapless(s: State, ms: seq<Move>)
    requires Gapless(s) && CanRun(s, ms)
    ensures Gapless(Run(s, ms))
    decreases |ms|
  {
    if ms != [] {
      MoveKeepsGapless(s, ms[0]);
      RunKeepsGapless(Do(s, ms[0]), ms[1..]);
    }
  }

  /** The counts logged for a user in a community are exactly 1, 2, ..., n, where n is the stored counter. */
  lemma CommunityCountsAreGapless(steps: seq<Step>, p: Pid, community: Gid)
    requires Serves(EMPTY, steps)
    ensures
      var s := Served(EMPTY, steps);
      LoggedCounts(s.communityLog, p, community) == UpTo(StoredCount(s, p, community))
  {
    var ms := ServiceIsRun(EMPTY, steps);
    assert Gapless(EMPTY);
    RunKeepsGapless(EMPTY, ms);
  }
}
