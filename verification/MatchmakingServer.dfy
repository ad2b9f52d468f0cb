/**
 The server: requests are handed to the manager's handlers one at a time. Every such run is a run of the transition
 system of `Handlers`, so what `RunInvariants` and `AuditLog` say about its runs holds of the manager's tables.
 */
module MatchmakingServer {
  import opened ParticipantLists
  import opened Tables
  import opened Moves
  import opened Handlers
  import opened MatchmakingManager
  import Auto = AutoMatchmaking
  import Runs = RunInvariants
  import Search = SearchCriteria
  import Spec = MatchmakingSpec

  /** What a connection asks for; `p` is its principal. */
  datatype Request =
    | CreateMatchmakeSession(p: Pid, offered: Option<SessionRequest>, message: string, count: UInt16)
    | CreateMatchmakeSessionWithParam(p: Pid, request: SessionRequest, message: string, checkGid: Gid, additional: seq<Pid>)
    | AutoMatchmakePostpone(p: Pid, offered: Option<SessionRequest>, cleanup: SessionForm -> SessionForm,
                            friends: seq<Pid>, message: string)
    | AutoMatchmakeWithSearchCriteriaPostpone(p: Pid, criteria: seq<Search.Criterion>, offered: Option<SessionRequest>,
                                              message: string)
    | AutoMatchmakeWithParamPostpone(p: Pid, criteria: seq<Search.Criterion>, request: SessionRequest, message: string,
                                     checkGid: Gid, additional: seq<Pid>)
    | JoinMatchmakeSessionEx(p: Pid, gid: Gid, message: string, count: UInt16)
    | JoinMatchmakeSessionWithParam(p: Pid, param: Spec.JoinParam)
    | CreateCommunity(p: Pid, form: Form, valid: bool, creationMax: int)
    | EndParticipation(p: Pid, gid: Gid, message: string)
    | ConnectionEnded(p: Pid)
    | UpdateSessionHost(p: Pid, gid: Gid, isMigrateOwner: bool)
    | UpdateSessionHostV1(p: Pid, gid: Gid)
    | UpdateSessionURL(p: Pid, gid: Gid)
    | UnregisterGathering(p: Pid, gid: Gid)
    | SetParticipation(p: Pid, gid: Gid, open: bool)
    | ModifyCurrentGameAttribute(p: Pid, gid: Gid, attribIndex: nat, newValue: nat)
    | UpdateProgressScore(p: Pid, gid: Gid, progressScore: nat)
    | Restart

  /** Connections have principals, and lists of extra participants fit into a message. */
  predicate Sendable(request: Request) {
    && (!request.Restart? ==> request.p != 0)
    && (request.CreateMatchmakeSessionWithParam? || request.AutoMatchmakeWithParamPostpone? ==>
          |request.additional| < LIST_BOUND)
    && (request.JoinMatchmakeSessionWithParam? ==> |request.param.additional| < LIST_BOUND)
  }

  /** A search that nothing matches: no list is shorter than an upper limit of 0. */
  const UNMATCHED: SessionForm :=
    SessionForm(Form(0, 0, 0, {}, ""), Session(0, [0, 0, 0, 0, 0, 0], false, 0, 0, 0, "", false, "", false, ""))

  method MatchBySession(m: Manager, p: Pid, offered: Option<SessionRequest>, cleanup: SessionForm -> SessionForm,
                        friends: seq<Pid>, message: string)
    returns (ghost step: Step)
    requires p != 0
    modifies m
    ensures Allowed(old(m.Db()), step) && m.Db() == Next(old(m.Db()), step)
  {
    ghost var order, found;
    ghost var before := m.Db();
    var r;
    r, order, found := m.OnAutoMatchmakePostpone(p, offered, cleanup, friends, message);
    if |message| <= Spec.MAX_MESSAGE && offered.Some? && Spec.CheckValidMatchmakeSession(offered.value) {
      step := AutoMatchmake(p, order, offered, cleanup(Spec.ToSessionForm(offered.value)), message, friends, found);
    } else {
      step := AutoMatchmake(p, order, offered, UNMATCHED, message, friends, None);
    }
    AnswersAreKnown(before, step);
  }

  method MatchByCriteria(m: Manager, p: Pid, criteria: seq<Search.Criterion>, offered: Option<SessionRequest>,
                         message: string)
    returns (ghost step: Step)
    requires p != 0
    modifies m
    ensures Allowed(old(m.Db()), step) && m.Db() == Next(old(m.Db()), step)
  {
    ghost var order, answer, parts;
    ghost var before := m.Db();
    var r;
    r, order, answer, parts := m.OnAutoMatchmakeWithSearchCriteriaPostpone(p, criteria, offered, message);
    if |message| <= Spec.MAX_MESSAGE && |criteria| <= 2 && offered.Some? && Spec.CheckValidMatchmakeSession(offered.value) {
      Auto.AnswersAreFindable(Spec.LeaveEach(before, p, order), criteria, offered.value.progressScore, answer, parts);
      step := AutoMatchmakeWithCriteria(p, order, Vacants(criteria), offered, message, answer);
    } else {
      step := AutoMatchmakeWithCriteria(p, order, Vacants(criteria), offered, message, None);
    }
    AnswersAreKnown(before, step);
  }

  method MatchWithParam(m: Manager, p: Pid, criteria: seq<Search.Criterion>, request: SessionRequest, message: string,
                        checkGid: Gid, additional: seq<Pid>)
    returns (ghost step: Step)
    requires p != 0 && |additional| < LIST_BOUND
    modifies m
    ensures Allowed(old(m.Db()), step) && m.Db() == Next(old(m.Db()), step)
  {
    ghost var order, answer, parts;
    ghost var before := m.Db();
    var r;
    r, order, answer, parts := m.OnAutoMatchmakeWithParamPostpone(p, criteria, request, message, checkGid, additional);
    if Spec.CheckValidMatchmakeSession(request) && |message| <= Spec.MAX_MESSAGE
       && (checkGid != 0 ==> Spec.CheckGatheringForParticipation(before, checkGid, additional + [p]).None?) {
      Auto.AnswersAreFindable(Spec.LeaveEach(before, p, order), criteria, request.progressScore, answer, parts);
      step := AutoMatchmakeWithParam(p, order, request, message, checkGid, additional, answer);
    } else {
      step := AutoMatchmakeWithParam(p, order, request, message, checkGid, additional, None);
    }
    AnswersAreKnown(before, step);
  }

  method Create(m: Manager, request: Request) returns (ghost step: Step)
    requires Sendable(request)
    requires request.CreateMatchmakeSession? || request.CreateMatchmakeSessionWithParam? || request.CreateCommunity?
    modifies m
    ensures Allowed(old(m.Db()), step) && m.Db() == Next(old(m.Db()), step)
  {
    ghost var order;
    var r;
    match request {
      case CreateMatchmakeSession(p, offered, message, count) =>
        r, order := m.OnCreateMatchmakeSession(p, offered, message, count);
        step := CreateSession(p, order, offered, message, count);
      case CreateMatchmakeSessionWithParam(p, session, message, checkGid, additional) =>
        r, order := m.OnCreateMatchmakeSessionWithParam(p, session, message, checkGid, additional);
        step := CreateSessionWithParam(p, order, session, message, checkGid, additional);
      case CreateCommunity(p, form, valid, creationMax) =>
        r := m.OnCreateCommunity(p, form, valid, creationMax);
        step := Step.CreateCommunity(p, form, valid, creationMax);
    }
  }

  method JoinOrLeave(m: Manager, request: Request) returns (ghost step: Step)
    requires Sendable(request)
    requires request.JoinMatchmakeSessionEx? || request.JoinMatchmakeSessionWithParam? || request.EndParticipation?
             || request.ConnectionEnded?
    modifies m
    ensures Allowed(old(m.Db()), step) && m.Db() == Next(old(m.Db()), step)
  {
    match request {
      case JoinMatchmakeSessionEx(p, gid, message, count) =>
        var _ := m.OnJoinMatchmakeSessionEx(p, gid, message, count);
        step := JoinSession(p, gid, message, count);
      case JoinMatchmakeSessionWithParam(p, param) =>
        var _ := m.OnJoinMatchmakeSessionWithParam(p, param);
        step := JoinSessionWithParam(p, param);
      case EndParticipation(p, gid, message) =>
        var _ := m.OnEndParticipation(p, gid, message);
        step := Step.EndParticipation(p, gid, message);
      case ConnectionEnded(p) =>
        ghost var order := m.DisconnectParticipant(p);
        step := Step.ConnectionEnded(p, order);
    }
  }

  method Change(m: Manager, request: Request) returns (ghost step: Step)
    requires Sendable(request)
    requires request.UpdateSessionHost? || request.UpdateSessionHostV1? || request.UpdateSessionURL?
             || request.UnregisterGathering? || request.Restart?
    modifies m
    ensures Allowed(old(m.Db()), step) && m.Db() == Next(old(m.Db()), step)
  {
    match request {
      case UpdateSessionHost(p, gid, isMigrateOwner) =>
        var _ := m.OnUpdateSessionHost(p, gid, isMigrateOwner);
        step := Step.UpdateSessionHost(p, gid, isMigrateOwner);
      case UpdateSessionHostV1(p, gid) =>
        var _ := m.OnUpdateSessionHostV1(p, gid);
        step := Step.UpdateSessionHostV1(p, gid);
      case UpdateSessionURL(p, gid) =>
        var _ := m.OnUpdateSessionURL(p, gid);
        step := Step.UpdateSessionURL(p, gid);
      case UnregisterGathering(p, gid) =>
        var _ := m.OnUnregisterGathering(p, gid);
        step := Step.UnregisterGathering(p, gid);
      case Restart =>
        m.OnServerStart();
        step := ServerStart;
    }
  }

  method ChangeSession(m: Manager, request: Request) returns (ghost step: Step)
    requires Sendable(request)
    requires request.SetParticipation? || request.ModifyCurrentGameAttribute? || request.UpdateProgressScore?
    modifies m
    ensures Allowed(old(m.Db()), step) && m.Db() == Next(old(m.Db()), step)
  {
    match request {
      case SetParticipation(p, gid, open) =>
        var _ := m.OnSetParticipation(p, gid, open);
        step := Step.SetParticipation(p, gid, open);
      case ModifyCurrentGameAttribute(p, gid, attribIndex, newValue) =>
        var _ := m.OnModifyCurrentGameAttribute(p, gid, attribIndex, newValue);
        step := ModifyAttribute(p, gid, attribIndex, newValue);
      case UpdateProgressScore(p, gid, progressScore) =>
        var _ := m.OnUpdateProgressScore(p, gid, progressScore);
        step := Step.UpdateProgressScore(p, gid, progressScore);
    }
  }

  /** One request: one step of the transition system. */
  method Serve(m: Manager, request: Request) returns (ghost step: Step)
    requires Sendable(request)
    modifies m
    ensures Allowed(old(m.Db()), step) && m.Db() == Next(old(m.Db()), step)
  {
    match request {
      case AutoMatchmakePostpone(p, offered, cleanup, friends, message) =>
        step := MatchBySession(m, p, offered, cleanup, friends, message);
      case AutoMatchmakeWithSearchCriteriaPostpone(p, criteria, offered, message) =>
        step := MatchByCriteria(m, p, criteria, offered, message);
      case AutoMatchmakeWithParamPostpone(p, criteria, session, message, checkGid, additional) =>
        step := MatchWithParam(m, p, criteria, session, message, checkGid, additional);
      case CreateMatchmakeSession(_, _, _, _) => step := Create(m, request);
      case CreateMatchmakeSessionWithParam(_, _, _, _, _) => step := Create(m, request);
      case CreateCommunity(_, _, _, _) => step := Create(m, request);
      case JoinMatchmakeSessionEx(_, _, _, _) => step := JoinOrLeave(m, request);
      case JoinMatchmakeSessionWithParam(_, _) => step := JoinOrLeave(m, request);
      case EndParticipation(_, _, _) => step := JoinOrLeave(m, request);
      case ConnectionEnded(_) => step := JoinOrLeave(m, request);
      case SetParticipation(_, _, _) => step := ChangeSession(m, request);
      case ModifyCurrentGameAttribute(_, _, _, _) => step := ChangeSession(m, request);
      case UpdateProgressScore(_, _, _) => step := ChangeSession(m, request);
      case _ => step := Change(m, request);
    }
  }

  /** A whole life of the server, from empty tables: whatever it is asked, the tables stay good. */
  method ServeAll(requests: seq<Request>) returns (m: Manager, ghost steps: seq<Step>)
    requires forall request :: request in requests ==> Sendable(request)
    ensures fresh(m) && Serves(EMPTY, steps) && m.Db() == Served(EMPTY, steps)
    ensures Good(m.Db())
  {
    m := new Manager();
    steps := [];
    for i := 0 to |requests|
      invariant fresh(m) && Serves(EMPTY, steps) && m.Db() == Served(EMPTY, steps)
    {
      ghost var step := Serve(m, requests[i]);
      OneMoreStep(EMPTY, steps, step);
      steps := steps + [step];
    }
    Runs.ReachableIsGood(steps);
  }
}
