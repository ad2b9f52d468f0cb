/**
 The server as a transition system: one step per handler, each under the mutex from beginning to end. Every step is
 a run of primitive moves, so every run of the server is one.
 */
module Handlers {
  import opened ParticipantLists
  import opened Tables
  import opened Moves
  import Spec = MatchmakingSpec

  /**
   A request together with what the database decides about it: the order of unordered rows, the answer of a search.
   `p` is the principal of the connection.
   */
  datatype Step =
    | CreateSession(p: Pid, order: seq<Gid>, offered: Option<SessionRequest>, message: string, count: UInt16)
    | CreateSessionWithParam(p: Pid, order: seq<Gid>, request: SessionRequest, message: string, checkGid: Gid,
                             additional: seq<Pid>)
    | AutoMatchmake(p: Pid, order: seq<Gid>, offered: Option<SessionRequest>, search: SessionForm, message: string,
                    friends: seq<Pid>, found: Option<Gid>)
    | AutoMatchmakeWithCriteria(p: Pid, order: seq<Gid>, vacants: seq<UInt16>, offered: Option<SessionRequest>,
                                message: string, answer: Option<seq<Gid>>)
    | AutoMatchmakeWithParam(p: Pid, order: seq<Gid>, request: SessionRequest, message: string, checkGid: Gid,
                             additional: seq<Pid>, answer: Option<seq<Gid>>)
    | JoinSession(p: Pid, gid: Gid, message: string, count: UInt16)
    | JoinSessionWithParam(p: Pid, param: Spec.JoinParam)
    | CreateCommunity(p: Pid, form: Form, valid: bool, creationMax: int)
    | EndParticipation(p: Pid, gid: Gid, message: string)
    | ConnectionEnded(p: Pid, order: seq<Gid>)
    | UpdateSessionHost(p: Pid, gid: Gid, isMigrateOwner: bool)
    | UpdateSessionHostV1(p: Pid, gid: Gid)
    | UpdateSessionURL(p: Pid, gid: Gid)
    | UnregisterGathering(p: Pid, gid: Gid)
    | SetParticipation(p: Pid, gid: Gid, open: bool)
    | ModifyAttribute(p: Pid, gid: Gid, index: nat, value: nat)
    | UpdateProgressScore(p: Pid, gid: Gid, score: nat)
    | ServerStart

  /** No list that arrives in a message is longer; a longer one would wrap the uint32 size check. */
  const LIST_BOUND: nat := 0x8000_0000

  /** A search by criteria returns registered sessions with participants (SearchCriteria.ResultsAreAccepted). */
  predicate Findable(s: State, answer: Option<seq<Gid>>) {
    answer.Some? && answer.value != [] ==>
      var gid := answer.value[0];
      IsRegistered(s, gid) && gid in s.sessions && s.gatherings[gid].participants != []
  }

  /** The handler gets as far as ending the caller's participations. */
  predicate Leaves(s: State, step: Step) {
    match step
    case CreateSession(_, _, _, message, _) => |message| <= Spec.MAX_MESSAGE
    case CreateSessionWithParam(p, _, request, message, checkGid, additional) =>
      && Spec.CheckValidMatchmakeSession(request) && |message| <= Spec.MAX_MESSAGE
      && (checkGid != 0 ==> Spec.CheckGatheringForParticipation(s, checkGid, additional + [p]).None?)
    case AutoMatchmake(_, _, _, _, message, _, _) => |message| <= Spec.MAX_MESSAGE
    case AutoMatchmakeWithCriteria(_, _, vacants, _, message, _) => |message| <= Spec.MAX_MESSAGE && |vacants| <= 2
    case AutoMatchmakeWithParam(p, _, request, message, checkGid, additional, _) =>
      && Spec.CheckValidMatchmakeSession(request) && |message| <= Spec.MAX_MESSAGE
      && (checkGid != 0 ==> Spec.CheckGatheringForParticipation(s, checkGid, additional + [p]).None?)
    case _ => false
  }

  ghost predicate Allowed(s: State, step: Step) {
    && (!step.ServerStart? ==> step.p != 0)
    && (Leaves(s, step) ==> Spec.Enumerates(step.order, Spec.SessionRowsOf(s, step.p)))
    && match step
       case CreateSessionWithParam(_, _, _, _, _, additional) => |additional| < LIST_BOUND
       case AutoMatchmake(p, order, _, search, _, friends, found) =>
         Spec.IsClosestMatch(Spec.LeaveEach(s, p, order), search, friends, found)
       case AutoMatchmakeWithCriteria(p, order, _, _, _, answer) => Findable(Spec.LeaveEach(s, p, order), answer)
       case AutoMatchmakeWithParam(p, order, _, _, _, additional, answer) =>
         |additional| < LIST_BOUND && Findable(Spec.LeaveEach(s, p, order), answer)
       case JoinSessionWithParam(_, param) => |param.additional| < LIST_BOUND
       case ConnectionEnded(p, order) => Spec.Enumerates(order, Spec.GatheringsOf(s, p))
       case _ => true
  }

  lemma AnswersAreKnown(s: State, step: Step)
    requires Allowed(s, step)
    ensures step.AutoMatchmake? && step.found.Some? ==> step.found.value in s.sessions
    ensures step.AutoMatchmakeWithCriteria? || step.AutoMatchmakeWithParam? ==> Spec.KnownAnswer(s, step.answer)
  {
    if step.AutoMatchmake? || step.AutoMatchmakeWithCriteria? || step.AutoMatchmakeWithParam? {
      Spec.LeaveEachKeepsSessions(s, step.p, step.order);
    }
  }

  ghost function Next(s: State, step: Step): State
    requires Allowed(s, step)
  {
    AnswersAreKnown(s, step);
    match step
    case CreateSession(p, order, offered, message, count) =>
      Spec.CreateSession(s, p, order, offered, message, count).state
    case CreateSessionWithParam(p, order, request, message, checkGid, additional) =>
      Spec.CreateSessionWithParam(s, p, order, request, message, checkGid, additional).state
    case AutoMatchmake(p, order, offered, search, message, _, found) =>
      Spec.AutoMatchmake(s, p, order, offered, _ => search, message, found).state
    case AutoMatchmakeWithCriteria(p, order, vacants, offered, message, answer) =>
      Spec.AutoMatchmakeWithSearchCriteria(s, p, order, vacants, offered, message, answer).state
    case AutoMatchmakeWithParam(p, order, request, message, checkGid, additional, answer) =>
      Spec.AutoMatchmakeWithParam(s, p, order, request, message, checkGid, additional, answer).state
    case JoinSession(p, gid, message, count) => Spec.JoinSession(s, p, gid, message, count).state
    case JoinSessionWithParam(p, param) => Spec.JoinSessionWithParam(s, p, param).state
    case CreateCommunity(p, form, valid, creationMax) => Spec.CreateCommunity(s, p, form, valid, creationMax).state
    case EndParticipation(p, gid, message) => Spec.EndParticipation(s, p, gid, message).state
    case ConnectionEnded(p, order) => Spec.DisconnectEach(s, p, order)
    case UpdateSessionHost(p, gid, isMigrateOwner) => Spec.UpdateSessionHost(s, p, gid, isMigrateOwner).state
    case UpdateSessionHostV1(p, gid) => Spec.UpdateSessionHostV1(s, p, gid).state
    case UpdateSessionURL(p, gid) => Spec.UpdateSessionURL(s, p, gid).state
    case UnregisterGathering(p, gid) => Spec.Unregister(s, p, gid).state
    case SetParticipation(p, gid, open) => Spec.SetOpenParticipation(s, p, gid, open).state
    case ModifyAttribute(p, gid, index, value) => Spec.ModifyGameAttribute(s, p, gid, index, value).state
    case UpdateProgressScore(p, gid, score) => Spec.UpdateProgressScore(s, p, gid, score).state
    case ServerStart => Spec.Restarted(s)
  }

  // ---------------------------------------------------------------- routines as runs of moves

  /** A run of moves from `s` to `t` in which nobody is asked to end a gathering: no restart and no request to. */
  ghost predicate Leads(s: State, ms: seq<Move>, t: State) {
    CanRun(s, ms) && Run(s, ms) == t && forall m :: m in ms ==> !m.Restart? && !m.Unregister?
  }

  lemma One(s: State, m: Move)
    requires Enabled(s, m) && !m.Restart? && !m.Unregister?
    ensures Leads(s, [m], Do(s, m))
  {
    assert [m][1..] == [];
  }

  lemma Then(s: State, a: seq<Move>, t: State, b: seq<Move>, u: State)
    requires Leads(s, a, t) && Leads(t, b, u)
    ensures Leads(s, a + b, u)
  {
    RunConcat(s, a, b);
  }

  lemma StaysGood(s: State, ms: seq<Move>, t: State)
    requires Good(s) && Leads(s, ms, t)
    ensures Good(t)
  {
    RunKeepsGood(s, ms);
  }

  lemma EndMoves(s: State, gid: Gid, p: Pid) returns (ms: seq<Move>)
    ensures Leads(s, ms, Spec.EndGatheringParticipation(s, gid, p).state)
  {
    if Spec.EndGatheringParticipation(s, gid, p).result.Ok? {
      ms := [Depart(gid, p, Spec.Leave)];
      One(s, ms[0]);
    } else {
      ms := [];
    }
  }

  lemma {:induction false} LeaveEachMoves(s: State, p: Pid, order: seq<Gid>) returns (ms: seq<Move>)
    ensures Leads(s, ms, Spec.LeaveEach(s, p, order))
    decreases |order|
  {
    if order == [] {
      ms := [];
    } else {
      var t := Spec.EndGatheringParticipation(s, order[0], p).state;
      var first := EndMoves(s, order[0], p);
      var rest := LeaveEachMoves(t, p, order[1..]);
      Then(s, first, t, rest, Spec.LeaveEach(t, p, order[1..]));
      ms := first + rest;
    }
  }

  lemma {:induction false} DisconnectEachMoves(s: State, p: Pid, order: seq<Gid>) returns (ms: seq<Move>)
    requires forall gid :: gid in order ==> gid in Spec.GatheringsOf(s, p)
    requires NoRepeats(order)
    ensures Leads(s, ms, Spec.DisconnectEach(s, p, order))
    decreases |order|
  {
    if order == [] {
      ms := [];
    } else {
      var gid := order[0];
      assert gid in order;
      var t := Spec.DisconnectFrom(s, gid, p);
      var first := [];
      if t != s {
        first := [Depart(gid, p, Spec.Disconnect)];
        One(s, first[0]);
      }
      forall other | other in order[1..]
        ensures other in Spec.GatheringsOf(t, p)
      {
        var i :| 1 <= i < |order| && order[i] == other;
        assert other in order && other != gid;
      }
      var rest := DisconnectEachMoves(t, p, order[1..]);
      Then(s, first, t, rest, Spec.DisconnectEach(t, p, order[1..]));
      ms := first + rest;
    }
  }

  lemma CreateMoves(s: State, p: Pid, f: SessionForm) returns (ms: seq<Move>)
    requires Good(s) && p != 0
    ensures Leads(s, ms, Spec.CreateMatchmakeSession(s, p, f).state)
  {
    if Spec.Storable(f.form) {
      var register := Register(Spec.NewGathering(f.form, SessionKind, p, p));
      var t := Do(s, register);
      var add := AddSession(s.nextId, f.session.(systemPasswordEnabled := false));
      One(s, register);
      One(t, add);
      Then(s, [register], t, [add], Do(t, add));
      ms := [register] + [add];
    } else {
      ms := [];
    }
  }

  /** Somebody is in the gathering already, or its owner is joining it first. */
  predicate Joinable(s: State, gid: Gid, p: Pid) {
    IsRegistered(s, gid) && (s.gatherings[gid].participants != [] || s.gatherings[gid].owner == p)
  }

  lemma JoinGatheringMoves(s: State, gid: Gid, p: Pid, vacant: UInt16) returns (ms: seq<Move>)
    requires Good(s) && Joinable(s, gid, p)
    ensures Leads(s, ms, Spec.JoinGathering(s, gid, p, vacant).state)
  {
    if Spec.JoinGathering(s, gid, p, vacant).result.Ok? {
      var k := if vacant == 0 then 1 else vacant;
      ms := [Join(gid, p, Copies(p, k), true)];
      assert GoodRow(s.gatherings[gid]) && p == Copies(p, k)[0];
      One(s, ms[0]);
    } else {
      ms := [];
    }
  }

  lemma JoinWithMoves(s: State, gid: Gid, p: Pid, additional: seq<Pid>, imAlreadyJoined: bool) returns (ms: seq<Move>)
    requires Good(s) && Joinable(s, gid, p) && |additional| < LIST_BOUND
    ensures Leads(s, ms, Spec.JoinGatheringWithParticipants(s, gid, p, additional, imAlreadyJoined).state)
  {
    if Spec.JoinGatheringWithParticipants(s, gid, p, additional, imAlreadyJoined).result.Ok? {
      var newcomers := (if imAlreadyJoined then [] else [p]) + additional;
      ms := [Join(gid, p, newcomers, false)];
      assert GoodRow(s.gatherings[gid]);
      assert !imAlreadyJoined ==> newcomers[0] == p;
      One(s, ms[0]);
    } else {
      ms := [];
    }
  }

  lemma {:induction false} CountedEachMoves(s: State, ps: seq<Pid>, community: Gid, gid: Gid) returns (ms: seq<Move>)
    ensures Leads(s, ms, Spec.CountedEach(s, ps, community, gid))
    decreases |ps|
  {
    if ps == [] {
      ms := [];
    } else {
      var m := Count(ps[0], community, gid);
      One(s, m);
      var rest := CountedEachMoves(Do(s, m), ps[1..], community, gid);
      Then(s, [m], Do(s, m), rest, Spec.CountedEach(s, ps, community, gid));
      ms := [m] + rest;
    }
  }

  lemma JoinSessionMoves(s: State, gid: Gid, session: Session, p: Pid, vacant: UInt16) returns (ms: seq<Move>)
    requires Good(s) && Joinable(s, gid, p)
    ensures Leads(s, ms, Spec.JoinMatchmakeSession(s, gid, session, p, vacant).state)
  {
    ms := JoinGatheringMoves(s, gid, p, vacant);
    var t := Spec.JoinGathering(s, gid, p, vacant).state;
    if Spec.JoinMatchmakeSession(s, gid, session, p, vacant).state != t {
      var m := Count(p, session.attribs[0], gid);
      One(t, m);
      Then(s, ms, t, [m], Do(t, m));
      ms := ms + [m];
    }
  }

  lemma JoinSessionWithMoves(
    s: State, gid: Gid, session: Session, p: Pid, additional: seq<Pid>, imAlreadyJoined: bool) returns (ms: seq<Move>)
    requires Good(s) && Joinable(s, gid, p) && |additional| < LIST_BOUND
    ensures Leads(s, ms, Spec.JoinMatchmakeSessionWithParticipants(s, gid, session, p, additional, imAlreadyJoined).state)
  {
    ms := JoinWithMoves(s, gid, p, additional, imAlreadyJoined);
    var t := Spec.JoinGatheringWithParticipants(s, gid, p, additional, imAlreadyJoined).state;
    var u := Spec.JoinMatchmakeSessionWithParticipants(s, gid, session, p, additional, imAlreadyJoined).state;
    if u != t {
      var counts := CountedEachMoves(t, additional + [p], session.attribs[0], gid);
      Then(s, ms, t, counts, u);
      ms := ms + counts;
    }
  }

  lemma FoundOrCreatedMoves(s: State, p: Pid, found: Option<Gid>, f: SessionForm, vacant: UInt16) returns (ms: seq<Move>)
    requires Good(s) && p != 0
    requires found.Some? ==> found.value in s.sessions && Joinable(s, found.value, p)
    ensures Leads(s, ms, Spec.JoinFoundOrCreated(s, p, found, f, vacant).state)
  {
    match found
    case Some(gid) =>
      ms := JoinSessionMoves(s, gid, s.sessions[gid], p, vacant);
    case None =>
      var r := Spec.CreateMatchmakeSession(s, p, f);
      ms := CreateMoves(s, p, f);
      if r.result.Ok? {
        StaysGood(s, ms, r.state);
        var join := JoinSessionMoves(r.state, r.result.value, f.session, p, vacant);
        Then(s, ms, r.state, join, Spec.JoinFoundOrCreated(s, p, found, f, vacant).state);
        ms := ms + join;
      }
  }

  lemma CreatedWithMoves(s: State, p: Pid, f: SessionForm, additional: seq<Pid>) returns (ms: seq<Move>)
    requires Good(s) && p != 0 && |additional| < LIST_BOUND
    requires Spec.Storable(f.form)
    ensures
      var r := Spec.CreateMatchmakeSession(s, p, f);
      Leads(s, ms, Spec.JoinMatchmakeSessionWithParticipants(r.state, s.nextId, f.session, p, additional, false).state)
  {
    var r := Spec.CreateMatchmakeSession(s, p, f);
    ms := CreateMoves(s, p, f);
    StaysGood(s, ms, r.state);
    var join := JoinSessionWithMoves(r.state, s.nextId, f.session, p, additional, false);
    Then(s, ms, r.state, join,
         Spec.JoinMatchmakeSessionWithParticipants(r.state, s.nextId, f.session, p, additional, false).state);
    ms := ms + join;
  }

  // ---------------------------------------------------------------- handlers as runs of moves

  lemma CreateSessionSteps(s: State, step: Step) returns (ms: seq<Move>)
    requires Good(s) && step.CreateSession? && Allowed(s, step)
    ensures Leads(s, ms, Next(s, step))
  {
    if |step.message| > Spec.MAX_MESSAGE {
      ms := [];
    } else {
      var s1 := Spec.LeaveEach(s, step.p, step.order);
      ms := LeaveEachMoves(s, step.p, step.order);
      StaysGood(s, ms, s1);
      if step.offered.Some? && Spec.CheckValidMatchmakeSession(step.offered.value) {
        var f := Spec.ToSessionForm(step.offered.value);
        var rest := FoundOrCreatedMoves(s1, step.p, None, f, step.count);
        Then(s, ms, s1, rest, Spec.JoinFoundOrCreated(s1, step.p, None, f, step.count).state);
        ms := ms + rest;
      }
    }
  }

  lemma CreateSessionWithParamSteps(s: State, step: Step) returns (ms: seq<Move>)
    requires Good(s) && step.CreateSessionWithParam? && Allowed(s, step)
    ensures Leads(s, ms, Next(s, step))
  {
    var s1 := Spec.LeaveEach(s, step.p, step.order);
    if Next(s, step) == s {
      ms := [];
    } else {
      var f := Spec.ToSessionForm(step.request);
      ms := LeaveEachMoves(s, step.p, step.order);
      StaysGood(s, ms, s1);
      if Spec.Storable(f.form) {
        var rest := CreatedWithMoves(s1, step.p, f, step.additional);
        Then(s, ms, s1, rest, Next(s, step));
        ms := ms + rest;
      }
    }
  }

  lemma AutoMatchmakeSteps(s: State, step: Step) returns (ms: seq<Move>)
    requires Good(s) && step.AutoMatchmake? && Allowed(s, step)
    ensures Leads(s, ms, Next(s, step))
  {
    if |step.message| > Spec.MAX_MESSAGE {
      ms := [];
    } else {
      var s1 := Spec.LeaveEach(s, step.p, step.order);
      ms := LeaveEachMoves(s, step.p, step.order);
      StaysGood(s, ms, s1);
      if step.offered.Some? && Spec.CheckValidMatchmakeSession(step.offered.value) {
        Spec.LeaveEachKeepsSessions(s, step.p, step.order);
        var rest := FoundOrCreatedMoves(s1, step.p, step.found, step.search, 1);
        Then(s, ms, s1, rest, Spec.JoinFoundOrCreated(s1, step.p, step.found, step.search, 1).state);
        ms := ms + rest;
      }
    }
  }

  lemma AutoMatchmakeWithCriteriaSteps(s: State, step: Step) returns (ms: seq<Move>)
    requires Good(s) && step.AutoMatchmakeWithCriteria? && Allowed(s, step)
    ensures Leads(s, ms, Next(s, step))
  {
    AnswersAreKnown(s, step);
    if |step.message| > Spec.MAX_MESSAGE || |step.vacants| > 2 {
      ms := [];
    } else {
      var s1 := Spec.LeaveEach(s, step.p, step.order);
      ms := LeaveEachMoves(s, step.p, step.order);
      StaysGood(s, ms, s1);
      if Next(s, step) != s1 {
        Spec.LeaveEachKeepsSessions(s, step.p, step.order);
        var f := Spec.CanonicalForm(step.offered.value);
        var found := Spec.FirstResult(step.answer.value);
        var vacant := if step.vacants == [] then 1 else step.vacants[0];
        var rest := FoundOrCreatedMoves(s1, step.p, found, f, vacant);
        Then(s, ms, s1, rest, Spec.JoinFoundOrCreated(s1, step.p, found, f, vacant).state);
        ms := ms + rest;
      }
    }
  }

  lemma AutoMatchmakeWithParamSteps(s: State, step: Step) returns (ms: seq<Move>)
    requires Good(s) && step.AutoMatchmakeWithParam? && Allowed(s, step)
    ensures Leads(s, ms, Next(s, step))
  {
    AnswersAreKnown(s, step);
    if Next(s, step) == s {
      ms := [];
    } else {
      var s1 := Spec.LeaveEach(s, step.p, step.order);
      ms := LeaveEachMoves(s, step.p, step.order);
      StaysGood(s, ms, s1);
      Spec.LeaveEachKeepsSessions(s, step.p, step.order);
      if Next(s, step) != s1 {
        var rest;
        if step.answer.value != [] {
          var gid := step.answer.value[0];
          rest := JoinSessionWithMoves(s1, gid, s1.sessions[gid], step.p, step.additional, false);
        } else {
          rest := CreatedWithMoves(s1, step.p, Spec.ToSessionForm(step.request), step.additional);
        }
        Then(s, ms, s1, rest, Next(s, step));
        ms := ms + rest;
      }
    }
  }

  lemma JoinSteps(s: State, step: Step) returns (ms: seq<Move>)
    requires Good(s) && Allowed(s, step)
    requires step.JoinSession? || step.JoinSessionWithParam? || step.CreateCommunity?
    ensures Leads(s, ms, Next(s, step))
  {
    if Next(s, step) == s {
      ms := [];
    } else {
      match step {
        case JoinSession(p, gid, _, count) =>
          ms := JoinSessionMoves(s, gid, s.sessions[gid], p, count);
        case JoinSessionWithParam(p, param) =>
          ms := JoinSessionWithMoves(s, param.gid, s.sessions[param.gid], p, param.additional, param.imAlreadyJoined);
        case CreateCommunity(p, form, _, _) =>
          var register := Register(Spec.NewGathering(form, CommunityKind, p, 0));
          One(s, register);
          StaysGood(s, [register], Do(s, register));
          var join := JoinGatheringMoves(Do(s, register), s.nextId, p, 1);
          Then(s, [register], Do(s, register), join, Next(s, step));
          ms := [register] + join;
      }
    }
  }

  lemma DepartureSteps(s: State, step: Step) returns (ms: seq<Move>)
    requires Good(s) && Allowed(s, step)
    requires step.EndParticipation? || step.ConnectionEnded?
    ensures Leads(s, ms, Next(s, step))
  {
    if Next(s, step) == s {
      ms := [];
    } else if step.EndParticipation? {
      ms := EndMoves(s, step.gid, step.p);
    } else {
      ms := DisconnectEachMoves(s, step.p, step.order);
    }
  }

  lemma HostSteps(s: State, step: Step) returns (ms: seq<Move>)
    requires Good(s) && Allowed(s, step)
    requires step.UpdateSessionHost? || step.UpdateSessionHostV1? || step.UpdateSessionURL?
    ensures Leads(s, ms, Next(s, step))
  {
    if Next(s, step) == s {
      ms := [];
    } else {
      match step {
        case UpdateSessionHost(p, gid, isMigrateOwner) =>
          ms := [if isMigrateOwner then SetOwnerAndHost(gid, p) else SetHost(gid, p)];
        case UpdateSessionHostV1(p, gid) =>
          var transferable := ParticipantsChangeOwner in s.gatherings[gid].form.flags;
          ms := [if transferable then SetOwnerAndHost(gid, p) else SetHost(gid, p)];
        case UpdateSessionURL(p, gid) =>
          ms := [SetHost(gid, p)];
      }
      One(s, ms[0]);
    }
  }

  lemma OwnerSteps(s: State, step: Step) returns (ms: seq<Move>)
    requires Good(s) && Allowed(s, step)
    requires step.SetParticipation? || step.ModifyAttribute? || step.UpdateProgressScore?
    ensures Leads(s, ms, Next(s, step))
  {
    if Next(s, step) == s {
      ms := [];
    } else {
      ms := [SetSession(step.gid, Next(s, step).sessions[step.gid])];
      One(s, ms[0]);
    }
  }

  /** Every handler but the one that ends a gathering. */
  lemma HandlerLeads(s: State, step: Step) returns (ms: seq<Move>)
    requires Good(s) && Allowed(s, step) && !step.ServerStart? && !step.UnregisterGathering?
    ensures Leads(s, ms, Next(s, step))
  {
    if step.CreateSession? {
      ms := CreateSessionSteps(s, step);
    } else if step.CreateSessionWithParam? {
      ms := CreateSessionWithParamSteps(s, step);
    } else if step.AutoMatchmake? {
      ms := AutoMatchmakeSteps(s, step);
    } else if step.AutoMatchmakeWithCriteria? {
      ms := AutoMatchmakeWithCriteriaSteps(s, step);
    } else if step.AutoMatchmakeWithParam? {
      ms := AutoMatchmakeWithParamSteps(s, step);
    } else if step.JoinSession? || step.JoinSessionWithParam? || step.CreateCommunity? {
      ms := JoinSteps(s, step);
    } else if step.EndParticipation? || step.ConnectionEnded? {
      ms := DepartureSteps(s, step);
    } else if step.SetParticipation? || step.ModifyAttribute? || step.UpdateProgressScore? {
      ms := OwnerSteps(s, step);
    } else {
      ms := HostSteps(s, step);
    }
  }

  lemma UnregisterStep(s: State, step: Step) returns (ms: seq<Move>)
    requires Allowed(s, step) && step.UnregisterGathering?
    ensures CanRun(s, ms) && Run(s, ms) == Next(s, step)
    ensures ms == [] || (ms == [Unregister(step.gid, step.p)] && step.p == s.gatherings[step.gid].owner)
  {
    ms := [];
    if Next(s, step) != s {
      ms := [Unregister(step.gid, step.p)];
      assert ms[1..] == [];
    }
  }

  /** Every handler is a run of moves. */
  lemma HandlerIsRun(s: State, step: Step) returns (ms: seq<Move>)
    requires Good(s) && Allowed(s, step) && !step.ServerStart?
    ensures CanRun(s, ms) && Run(s, ms) == Next(s, step) && forall m :: m in ms ==> !m.Restart?
  {
    if step.UnregisterGathering? {
      ms := UnregisterStep(s, step);
    } else {
      ms := HandlerLeads(s, step);
    }
  }

  /** With the start-up sweep as the one move Restart, every step is a run of moves. */
  lemma StepIsRun(s: State, step: Step) returns (ms: seq<Move>)
    requires Good(s) && Allowed(s, step)
    ensures CanRun(s, ms) && Run(s, ms) == Next(s, step)
  {
    if step.ServerStart? {
      ms := [Restart];
      assert ms[1..] == [];
    } else {
      ms := HandlerIsRun(s, step);
    }
  }

  lemma StepKeepsGood(s: State, step: Step)
    requires Good(s) && Allowed(s, step)
    ensures Good(Next(s, step))
  {
    var ms := StepIsRun(s, step);
    RunKeepsGood(s, ms);
  }

  // ---------------------------------------------------------------- runs of the server

  ghost predicate Serves(s: State, steps: seq<Step>)
    decreases |steps|
  {
    steps == [] || (Allowed(s, steps[0]) && Serves(Next(s, steps[0]), steps[1..]))
  }

  ghost function Served(s: State, steps: seq<Step>): State
    requires Serves(s, steps)
    decreases |steps|
  {
    if steps == [] then s else Served(Next(s, steps[0]), steps[1..])
  }

  /** Every run of the server is a run of moves. */
  lemma {:induction false} ServiceIsRun(s: State, steps: seq<Step>) returns (ms: seq<Move>)
    requires Good(s) && Serves(s, steps)
    ensures CanRun(s, ms) && Run(s, ms) == Served(s, steps)
    decreases |steps|
  {
    if steps == [] {
      ms := [];
    } else {
      var first := StepIsRun(s, steps[0]);
      RunKeepsGood(s, first);
      var rest := ServiceIsRun(Next(s, steps[0]), steps[1..]);
      RunConcat(s, first, rest);
      ms := first + rest;
    }
  }

  lemma {:induction false} OneMoreStep(s: State, steps: seq<Step>, step: Step)
    requires Serves(s, steps) && Allowed(Served(s, steps), step)
    ensures Serves(s, steps + [step]) && Served(s, steps + [step]) == Next(Served(s, steps), step)
    decreases |steps|
  {
    if steps == [] {
      assert [step][1..] == [];
      assert [] + [step] == [step];
    } else {
      assert (steps + [step])[1..] == steps[1..] + [step];
      OneMoreStep(Next(s, steps[0]), steps[1..], step);
    }
  }
}
