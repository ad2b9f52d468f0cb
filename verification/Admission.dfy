/**
 What a request may do to the participants of a gathering that exists: nobody comes in, or somebody is admitted. Hence
 who can get into a session that is closed or has a password, step by step and over every run of the server.
 */
module Admission {
  import opened ParticipantLists
  import opened Tables
  import opened Moves
  import opened Handlers
  import opened Departures
  import opened AutoMatchmaking
  import Search = SearchCriteria
  import Limits = SearchLimits
  import Manager = MatchmakingManager
  import Runs = SmallRuns
  import Spec = MatchmakingSpec

  predicate IsIn(s: State, gid: Gid, q: Pid) {
    gid in s.gatherings && q in s.gatherings[gid].participants
  }

  /** `q` was not in the gathering, which existed already, and then is. */
  predicate Enters(s: State, t: State, gid: Gid, q: Pid) {
    gid in s.gatherings && !IsIn(s, gid, q) && IsIn(t, gid, q)
  }

  /** The caller, or one of the extra participants it names. */
  predicate Brings(step: Step, q: Pid) {
    match step
    case ServerStart => false
    case CreateSessionWithParam(p, _, _, _, _, additional) => q == p || q in additional
    case AutoMatchmakeWithParam(p, _, _, _, _, additional, _) => q == p || q in additional
    case JoinSessionWithParam(p, param) => q == p || q in param.additional
    case _ => q == step.p
  }

  /** The search answered with this session first. */
  predicate WasFound(step: Step, gid: Gid) {
    (step.AutoMatchmakeWithCriteria? || step.AutoMatchmakeWithParam?)
    && step.answer.Some? && step.answer.value != [] && step.answer.value[0] == gid
  }

  predicate KnowsPasswords(step: Step, gid: Gid, session: Session) {
    && step.JoinSessionWithParam? && step.param.gid == gid
    && (session.userPasswordEnabled ==> step.param.userPassword == session.userPassword)
    && (session.systemPasswordEnabled ==> step.param.systemPassword == session.systemPassword)
  }

  /** What a way in has to respect. */
  predicate Admitted(s: State, step: Step, gid: Gid, q: Pid)
    requires gid in s.sessions
  {
    && Brings(step, q)
    && ((s.sessions[gid].userPasswordEnabled || s.sessions[gid].systemPasswordEnabled) ==> KnowsPasswords(step, gid, s.sessions[gid]))
    && (!s.sessions[gid].openParticipation ==> WasFound(step, gid))
  }

  /** Nobody comes in, and if nobody was in, at most the gathering is unregistered. */
  predicate Quiet(before: Gathering, after: Gathering) {
    && (forall q :: q in after.participants ==> q in before.participants)
    && (before.participants == [] ==> after == before || after == before.(registered := false))
  }

  /** Somebody was in already, and whoever comes in is admitted. */
  predicate JoinedBy(s: State, step: Step, gid: Gid, after: Gathering)
    requires gid in s.gatherings
  {
    && gid in s.sessions && s.gatherings[gid].participants != []
    && forall q :: q in after.participants ==> q in s.gatherings[gid].participants || Admitted(s, step, gid, q)
  }

  ghost predicate RowFollows(s: State, step: Step, gid: Gid)
    requires Allowed(s, step) && gid in s.gatherings
  {
    && gid in Next(s, step).gatherings
    && var after := Next(s, step).gatherings[gid];
    Quiet(s.gatherings[gid], after) || JoinedBy(s, step, gid, after)
  }

  // ---------------------------------------------------------------- routines

  lemma DepartureIsQuiet(g: Gathering, p: Pid)
    requires p in g.participants
    ensures Quiet(g, Spec.AfterDeparture(g, p))
  {
    forall q
      ensures q in Without(g.participants, p) ==> q in g.participants
    {
      WithoutMembers(g.participants, p, q);
    }
  }

  /** The tables after the caller has left, which is where matchmaking starts from. */
  lemma AfterLeaving(s: State, p: Pid, order: seq<Gid>, gid: Gid) returns (t: State)
    requires Good(s) && gid in s.gatherings
    ensures t == Spec.LeaveEach(s, p, order) && Good(t) && t.sessions == s.sessions
    ensures gid in t.gatherings && Quiet(s.gatherings[gid], t.gatherings[gid])
  {
    t := Spec.LeaveEach(s, p, order);
    LeavingStaysGood(s, p, order);
    Spec.LeaveEachKeepsSessions(s, p, order);
    LeaveEachRow(s, p, order, gid);
    if gid in Spec.GatheringsOf(s, p) {
      DepartureIsQuiet(s.gatherings[gid], p);
    }
  }

  lemma {:induction false} CountingKeepsRows(s: State, ps: seq<Pid>, community: Gid, at: Gid)
    ensures Spec.CountedEach(s, ps, community, at).gatherings == s.gatherings
    decreases |ps|
  {
    if ps != [] {
      CountingKeepsRows(Spec.Counted(s, ps[0], community, at), ps[1..], community, at);
    }
  }

  /** A row after joins into `at` by `p` and the players it names. */
  predicate OnlyComeIn(s: State, t: State, at: Gid, newcomers: seq<Pid>, gid: Gid)
    requires gid in s.gatherings
  {
    && gid in t.gatherings
    && if at != gid then t.gatherings[gid] == s.gatherings[gid]
       else forall q :: q in t.gatherings[gid].participants ==> q in s.gatherings[gid].participants || q in newcomers
  }

  lemma JoiningRows(s: State, at: Gid, session: Session, p: Pid, vacant: UInt16, gid: Gid)
    requires gid in s.gatherings
    ensures OnlyComeIn(s, Spec.JoinMatchmakeSession(s, at, session, p, vacant).state, at, [p], gid)
  {
  }

  lemma JoiningWithRows(
    s: State, at: Gid, session: Session, p: Pid, additional: seq<Pid>, imAlreadyJoined: bool, gid: Gid)
    requires gid in s.gatherings
    ensures OnlyComeIn(
              s, Spec.JoinMatchmakeSessionWithParticipants(s, at, session, p, additional, imAlreadyJoined).state, at,
              [p] + additional, gid)
  {
    var r := Spec.JoinGatheringWithParticipants(s, at, p, additional, imAlreadyJoined);
    CountingKeepsRows(r.state, additional + [p], session.attribs[0], at);
  }

  lemma FoundOrCreatedRows(t: State, p: Pid, found: Option<Gid>, f: SessionForm, vacant: UInt16, gid: Gid)
    requires WellFormed(t) && gid in t.gatherings && (found.Some? ==> found.value in t.sessions)
    ensures OnlyComeIn(t, Spec.JoinFoundOrCreated(t, p, found, f, vacant).state, Place(t, found), [p], gid)
  {
    match found {
      case Some(at) => JoiningRows(t, at, t.sessions[at], p, vacant, gid);
      case None => JoiningRows(Spec.CreateMatchmakeSession(t, p, f).state, t.nextId, f.session, p, vacant, gid);
    }
  }

  lemma CreatedWithRows(t: State, p: Pid, f: SessionForm, additional: seq<Pid>, gid: Gid)
    requires WellFormed(t) && gid in t.gatherings
    ensures
      var u := Spec.CreateMatchmakeSession(t, p, f).state;
      var v := Spec.JoinMatchmakeSessionWithParticipants(u, t.nextId, f.session, p, additional, false).state;
      && gid in u.gatherings && u.gatherings[gid] == t.gatherings[gid]
      && gid in v.gatherings && v.gatherings[gid] == t.gatherings[gid]
  {
    JoiningWithRows(Spec.CreateMatchmakeSession(t, p, f).state, t.nextId, f.session, p, additional, false, gid);
  }

  // ---------------------------------------------------------------- handlers

  lemma CreatingFollows(s: State, step: Step, gid: Gid)
    requires Good(s) && Allowed(s, step) && gid in s.gatherings
    requires step.CreateSession? || step.CreateSessionWithParam?
    ensures RowFollows(s, step, gid)
  {
    var t := AfterLeaving(s, step.p, step.order, gid);
    if Next(s, step) != s && Next(s, step) != t {
      if step.CreateSession? {
        FoundOrCreatedRows(t, step.p, None, Spec.ToSessionForm(step.offered.value), step.count, gid);
      } else {
        CreatedWithRows(t, step.p, Spec.ToSessionForm(step.request), step.additional, gid);
      }
    }
  }

  lemma AutoMatchmakingFollows(s: State, step: Step, gid: Gid)
    requires Good(s) && Allowed(s, step) && gid in s.gatherings && step.AutoMatchmake?
    ensures RowFollows(s, step, gid)
  {
    AnswersAreKnown(s, step);
    var t := AfterLeaving(s, step.p, step.order, gid);
    if Next(s, step) != s && Next(s, step) != t {
      FoundOrCreatedRows(t, step.p, step.found, step.search, 1, gid);
      if step.found == Some(gid) {
        assert t.gatherings[gid].participants[0] in s.gatherings[gid].participants;
      }
    }
  }

  lemma CriteriaFollow(s: State, step: Step, gid: Gid)
    requires Good(s) && Allowed(s, step) && gid in s.gatherings && step.AutoMatchmakeWithCriteria?
    ensures RowFollows(s, step, gid)
  {
    AnswersAreKnown(s, step);
    var t := AfterLeaving(s, step.p, step.order, gid);
    if Next(s, step) != s && Next(s, step) != t {
      var found := Spec.FirstResult(step.answer.value);
      FoundOrCreatedRows(t, step.p, found, Spec.CanonicalForm(step.offered.value), RoomAsked(step.vacants), gid);
      if found == Some(gid) {
        assert t.gatherings[gid].participants[0] in s.gatherings[gid].participants;
      }
    }
  }

  lemma ParamFollows(s: State, step: Step, gid: Gid)
    requires Good(s) && Allowed(s, step) && gid in s.gatherings && step.AutoMatchmakeWithParam?
    ensures RowFollows(s, step, gid)
  {
    AnswersAreKnown(s, step);
    var t := AfterLeaving(s, step.p, step.order, gid);
    if Next(s, step) != s && Next(s, step) != t {
      if step.answer.value == [] {
        CreatedWithRows(t, step.p, Spec.ToSessionForm(step.request), step.additional, gid);
      } else {
        var at := step.answer.value[0];
        JoiningWithRows(t, at, t.sessions[at], step.p, step.additional, false, gid);
        if at == gid {
          assert t.gatherings[gid].participants[0] in s.gatherings[gid].participants;
        }
      }
    }
  }

  lemma JoinFollows(s: State, step: Step, gid: Gid)
    requires Good(s) && Allowed(s, step) && gid in s.gatherings
    requires step.JoinSession? || step.JoinSessionWithParam?
    ensures RowFollows(s, step, gid)
  {
    if Next(s, step) != s {
      if step.JoinSession? {
        JoiningRows(s, step.gid, s.sessions[step.gid], step.p, step.count, gid);
      } else {
        JoiningWithRows(s, step.param.gid, s.sessions[step.param.gid], step.p, step.param.additional,
                        step.param.imAlreadyJoined, gid);
      }
    }
  }

  lemma DepartureFollows(s: State, step: Step, gid: Gid)
    requires Good(s) && Allowed(s, step) && gid in s.gatherings
    requires step.EndParticipation? || step.ConnectionEnded?
    ensures RowFollows(s, step, gid)
  {
    if step.ConnectionEnded? {
      DisconnectEachRow(s, step.p, step.order, gid);
    }
    if step.p in s.gatherings[gid].participants {
      DepartureIsQuiet(s.gatherings[gid], step.p);
    }
  }

  lemma HostFollows(s: State, step: Step, gid: Gid)
    requires Allowed(s, step) && gid in s.gatherings
    requires step.UpdateSessionHost? || step.UpdateSessionHostV1? || step.UpdateSessionURL?
    ensures RowFollows(s, step, gid)
  {
  }

  lemma CommunityFollows(s: State, step: Step, gid: Gid)
    requires Good(s) && Allowed(s, step) && gid in s.gatherings && step.CreateCommunity?
    ensures RowFollows(s, step, gid)
  {
  }

  lemma OthersFollow(s: State, step: Step, gid: Gid)
    requires Allowed(s, step) && gid in s.gatherings
    requires
      step.UnregisterGathering? || step.SetParticipation? || step.ModifyAttribute?
      || step.UpdateProgressScore? || step.ServerStart?
    ensures RowFollows(s, step, gid)
  {
  }

  /** Every request, on every gathering that exists. */
  lemma StepFollows(s: State, step: Step, gid: Gid)
    requires Good(s) && Allowed(s, step) && gid in s.gatherings
    ensures RowFollows(s, step, gid)
  {
    if step.CreateSession? || step.CreateSessionWithParam? {
      CreatingFollows(s, step, gid);
    } else if step.AutoMatchmake? {
      AutoMatchmakingFollows(s, step, gid);
    } else if step.AutoMatchmakeWithCriteria? {
      CriteriaFollow(s, step, gid);
    } else if step.AutoMatchmakeWithParam? {
      ParamFollows(s, step, gid);
    } else if step.JoinSession? || step.JoinSessionWithParam? {
      JoinFollows(s, step, gid);
    } else if step.EndParticipation? || step.ConnectionEnded? {
      DepartureFollows(s, step, gid);
    } else if step.UpdateSessionHost? || step.UpdateSessionHostV1? || step.UpdateSessionURL? {
      HostFollows(s, step, gid);
    } else if step.CreateCommunity? {
      CommunityFollows(s, step, gid);
    } else {
      OthersFollow(s, step, gid);
    }
  }

  /**
   Whoever gets into a session that exists is the caller or named by it. With a password the caller knows it, and
   joins by name; into a closed session there is only the search by criteria.
   */
  lemma StepAdmits(s: State, step: Step, gid: Gid, q: Pid)
    requires Good(s) && Allowed(s, step) && gid in s.sessions && Enters(s, Next(s, step), gid, q)
    ensures Admitted(s, step, gid, q)
  {
    StepFollows(s, step, gid);
  }

  // ---------------------------------------------------------------- over runs

  lemma MoveKeepsGuard(s: State, m: Move, gid: Gid)
    requires Enabled(s, m) && gid in s.sessions
    ensures gid in Do(s, m).sessions && SameGuard(Do(s, m).sessions[gid], s.sessions[gid])
  {
  }

  lemma {:induction false} RunKeepsGuard(s: State, ms: seq<Move>, gid: Gid)
    requires CanRun(s, ms) && gid in s.sessions
    ensures gid in Run(s, ms).sessions && SameGuard(Run(s, ms).sessions[gid], s.sessions[gid])
    decreases |ms|
  {
    if ms != [] {
      MoveKeepsGuard(s, ms[0], gid);
      RunKeepsGuard(Do(s, ms[0]), ms[1..], gid);
    }
  }

  /** No request changes the password of a session. */
  lemma StepKeepsGuard(s: State, step: Step, gid: Gid)
    requires Good(s) && Allowed(s, step) && gid in s.sessions
    ensures gid in Next(s, step).sessions && SameGuard(Next(s, step).sessions[gid], s.sessions[gid])
    ensures Good(Next(s, step))
  {
    var ms := StepIsRun(s, step);
    RunKeepsGood(s, ms);
    RunKeepsGuard(s, ms, gid);
  }

  /**
   Over every run of the server: whoever is in a session with a password, and was not at some earlier time, has been
   brought in since by somebody who knew the password.
   */
  lemma {:induction false} PasswordGuards(s: State, steps: seq<Step>, gid: Gid, q: Pid)
    requires Good(s) && Serves(s, steps) && gid in s.sessions && (s.sessions[gid].userPasswordEnabled || s.sessions[gid].systemPasswordEnabled)
    requires !IsIn(s, gid, q) && IsIn(Served(s, steps), gid, q)
    ensures exists step :: step in steps && KnowsPasswords(step, gid, s.sessions[gid]) && Brings(step, q)
    decreases |steps|
  {
    var step, t := steps[0], Next(s, steps[0]);
    if IsIn(t, gid, q) {
      StepAdmits(s, step, gid, q);
      assert step in steps;
    } else {
      StepKeepsGuard(s, step, gid);
      PasswordGuards(t, steps[1..], gid, q);
      var later :| later in steps[1..] && KnowsPasswords(later, gid, t.sessions[gid]) && Brings(later, q);
      assert later in steps && KnowsPasswords(later, gid, s.sessions[gid]);
    }
  }

  // ---------------------------------------------------------------- closed sessions

  /** A search that excludes locked sessions finds open ones only. */
  lemma LockedIsExcluded(
    t: State, criteria: seq<Search.Criterion>, score: nat, answer: seq<Gid>, parts: seq<seq<Gid>>)
    requires Manager.SearchedFor(t, criteria, score, Some(answer), parts) && answer != []
    requires forall c :: c in criteria ==> c.excludeLocked
    ensures answer[0] in t.sessions && t.sessions[answer[0]].openParticipation
  {
    Search.ResultsAreAccepted(
      Search.Database(t.gatherings, t.sessions), criteria, Search.Range(0, 1), Some(score), parts, answer[0]);
  }

  const CLOSED: State :=
    var s := Runs.OneSession(4, [Runs.CREATOR]);
    s.(sessions := map[1 := s.sessions[1].(openParticipation := false)])

  lemma ClosedIsServed() returns (steps: seq<Step>)
    ensures Serves(EMPTY, steps) && Served(EMPTY, steps) == CLOSED
  {
    var create, close := Runs.Creating(Runs.CREATOR, 4, 1), SetParticipation(Runs.CREATOR, 1, false);
    Runs.CreationRun(4);
    Runs.OneStep(EMPTY, create);
    Runs.TwoSteps(EMPTY, create, close);
    steps := [create, close];
  }

  lemma ClosedIsFound() returns (parts: seq<seq<Gid>>)
    ensures Manager.SearchedFor(CLOSED, [Limits.ANYTHING], 0, Some([1]), parts)
  {
    var db, one: seq<Gid> := Search.Database(CLOSED.gatherings, CLOSED.sessions), [1];
    Limits.AnythingAccepts(Limits.ANYTHING, db.gatherings[1], db.sessions[1]);
    Limits.PeopledAreScanned(db, one);
    AtMostOneRow(db, Limits.ANYTHING, {1}, one);
    NoIndexFails([Limits.ANYTHING], Some(0));
    Search.CollectsAppend(db, [], Search.Range(0, 1), Some(0), [], Limits.ANYTHING, one);
    parts := [] + [one];
    assert [] + [Limits.ANYTHING] == [Limits.ANYTHING];
  }

  /** A search that does not is a way in: a visitor enters a session that its owner has closed. */
  lemma ClosedIsEntered() returns (steps: seq<Step>, parts: seq<seq<Gid>>, step: Step)
    ensures Serves(EMPTY, steps) && Served(EMPTY, steps) == CLOSED && !CLOSED.sessions[1].openParticipation
    ensures step == AutoMatchmakeWithCriteria(Runs.VISITOR, [], Manager.Vacants([Limits.ANYTHING]), Some(Runs.Asking(4)), "",
                                              Some([1]))
    ensures Manager.SearchedFor(CLOSED, [Limits.ANYTHING], 0, Some([1]), parts)
    ensures Allowed(CLOSED, step) && Enters(CLOSED, Next(CLOSED, step), 1, Runs.VISITOR)
  {
    steps := ClosedIsServed();
    parts := ClosedIsFound();
    step := AutoMatchmakeWithCriteria(Runs.VISITOR, [], Manager.Vacants([Limits.ANYTHING]), Some(Runs.Asking(4)), "", Some([1]));
    assert step.vacants[0] == 0 && Copies(Runs.VISITOR, 1)[0] == Runs.VISITOR;
    assert CLOSED.gatherings[1].participants == [Runs.CREATOR];
  }
}
