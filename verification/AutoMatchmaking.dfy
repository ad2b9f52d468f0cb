/**
 What auto-matchmaking promises its caller: it leaves every session, is let into the one it finds or creates, and is
 then in exactly that one. The variant that searches by criteria can be refused.
 */
module AutoMatchmaking {
  import opened ParticipantLists
  import opened Tables
  import opened Moves
  import opened Handlers
  import opened Departures
  import opened HandlerRules
  import opened SearchRules
  import Search = SearchCriteria
  import Limits = SearchLimits
  import Manager = MatchmakingManager
  import Invariants = RunInvariants
  import Runs = SmallRuns
  import Spec = MatchmakingSpec

  /** The registered sessions `p` is in. */
  function SessionsOf(s: State, p: Pid): set<Gid> {
    set gid | gid in s.gatherings && s.gatherings[gid].registered && s.gatherings[gid].kind == SessionKind
              && p in s.gatherings[gid].participants
  }

  /** Leaving goes through every session of the caller: none is left, and communities are not touched. */
  lemma LeavingLeavesNone(s: State, p: Pid, order: seq<Gid>)
    requires Spec.Enumerates(order, Spec.SessionRowsOf(s, p))
    ensures SessionsOf(Spec.LeaveEach(s, p, order), p) == {}
    ensures
      var t := Spec.LeaveEach(s, p, order);
      forall gid :: gid in s.gatherings && gid !in SessionsOf(s, p) ==>
        gid in t.gatherings && t.gatherings[gid] == s.gatherings[gid]
  {
    var t := Spec.LeaveEach(s, p, order);
    Spec.LeaveEachKeepsSessions(s, p, order);
    forall gid | gid in s.gatherings
      ensures gid in t.gatherings && gid !in SessionsOf(t, p)
      ensures gid !in SessionsOf(s, p) ==> t.gatherings[gid] == s.gatherings[gid]
    {
      LeaveEachRow(s, p, order, gid);
    }
  }

  lemma LeavingStaysGood(s: State, p: Pid, order: seq<Gid>)
    requires Good(s)
    ensures Good(Spec.LeaveEach(s, p, order))
  {
    var ms := LeaveEachMoves(s, p, order);
    StaysGood(s, ms, Spec.LeaveEach(s, p, order));
  }

  /** The player is in that session and no other, everybody else's gatherings are as before. */
  predicate EntersOnly(t: State, r: Outcome<nat>, p: Pid, gid: Gid) {
    && SessionsOf(r.state, p) == {gid}
    && r.result == Ok(|r.state.gatherings[gid].participants| % UINT32_SIZE)
    && r.state.nextId == t.nextId
    && forall other :: other in t.gatherings && other != gid ==>
         other in r.state.gatherings && r.state.gatherings[other] == t.gatherings[other]
  }

  predicate HasRoomFor(g: Gathering, vacant: UInt16) {
    var k := if vacant == 0 then 1 else vacant;
    g.form.maxParticipants == 0 || |g.participants| + k <= g.form.maxParticipants
  }

  /** Accepted or refused, and what becomes of the row. */
  lemma JoinChangesOneRow(t: State, gid: Gid, session: Session, p: Pid, vacant: UInt16)
    requires Good(t) && gid in t.gatherings && p !in t.gatherings[gid].participants
    ensures
      var g, k := t.gatherings[gid], if vacant == 0 then 1 else vacant;
      var r, after := Spec.JoinMatchmakeSession(t, gid, session, p, vacant), g.(participants := Copies(p, k) + g.participants);
      if HasRoomFor(g, vacant) then
        && r.result == Ok(|after.participants| % UINT32_SIZE) && p in after.participants
        && r.state.gatherings == t.gatherings[gid := after] && r.state.nextId == t.nextId
      else r == Outcome(t, Err(SessionFull))
  {
    assert GoodRow(t.gatherings[gid]);
    assert Copies(p, if vacant == 0 then 1 else vacant)[0] == p;
  }

  lemma JoinEnters(t: State, gid: Gid, session: Session, p: Pid, vacant: UInt16)
    requires Good(t) && SessionsOf(t, p) == {} && IsRegistered(t, gid) && t.gatherings[gid].kind == SessionKind
    ensures
      var r := Spec.JoinMatchmakeSession(t, gid, session, p, vacant);
      if HasRoomFor(t.gatherings[gid], vacant) then EntersOnly(t, r, p, gid) else r == Outcome(t, Err(SessionFull))
  {
    assert gid !in SessionsOf(t, p);
    JoinChangesOneRow(t, gid, session, p, vacant);
    var r := Spec.JoinMatchmakeSession(t, gid, session, p, vacant);
    if HasRoomFor(t.gatherings[gid], vacant) {
      OnlySessionAfter(t, r.state, p, gid);
    }
  }

  lemma OnlySessionAfter(t: State, u: State, p: Pid, gid: Gid)
    requires SessionsOf(t, p) == {} && gid in u.gatherings && u.gatherings == t.gatherings[gid := u.gatherings[gid]]
    requires IsRegistered(u, gid) && u.gatherings[gid].kind == SessionKind && p in u.gatherings[gid].participants
    ensures SessionsOf(u, p) == {gid}
  {
    forall other | other in SessionsOf(u, p)
      ensures other == gid
    {
      assert other !in SessionsOf(t, p);
    }
  }

  lemma CreationStaysGood(t: State, p: Pid, f: SessionForm)
    requires Good(t) && p != 0 && FitsColumns(f.form)
    ensures
      var created := Spec.CreateMatchmakeSession(t, p, f).state;
      && Good(created) && t.nextId !in t.gatherings
      && created.gatherings == t.gatherings[t.nextId := Spec.NewGathering(f.form, SessionKind, p, p)]
      && SessionsOf(created, p) == SessionsOf(t, p)
  {
    var ms := CreateMoves(t, p, f);
    StaysGood(t, ms, Spec.CreateMatchmakeSession(t, p, f).state);
  }

  /** The session that is joined: the one found, or the next to be created. */
  function Place(t: State, found: Option<Gid>): Gid {
    if found.Some? then found.value else t.nextId
  }

  /** A new session of this form can be stored and has room for its creator with guests. */
  predicate Creatable(f: SessionForm, p: Pid, vacant: UInt16) {
    FitsColumns(f.form) && HasRoomFor(Gathering(f.form, SessionKind, p, p, true, []), vacant)
  }

  /** A session that was registered and has no participants. */
  predicate Stranded(s: State, gid: Gid) {
    gid in s.gatherings && s.gatherings[gid].kind == SessionKind && s.gatherings[gid].participants == []
  }

  /** Joining what was found, or else creating: who is let in, where they then are, and what a refusal leaves. */
  lemma FoundOrCreatedPlaces(t: State, p: Pid, found: Option<Gid>, f: SessionForm, vacant: UInt16)
    requires Good(t) && p != 0 && SessionsOf(t, p) == {}
    requires found.Some? ==> found.value in t.sessions && IsRegistered(t, found.value)
    ensures
      var r, place := Spec.JoinFoundOrCreated(t, p, found, f, vacant), Place(t, found);
      && (found.Some? ==> place in t.gatherings)
      && (r.result.Ok? <==> if found.Some? then HasRoomFor(t.gatherings[place], vacant) else Creatable(f, p, vacant))
      && (r.result.Ok? ==> EntersOnly(t.(nextId := r.state.nextId), r, p, place))
      && (r.result.Ok? ==> r.state.nextId == t.nextId + if found.Some? then 0 else 1)
      && (r.result.Err? ==>
            SessionsOf(r.state, p) == {}
            && if found.None? && FitsColumns(f.form) then r.result == Err(SessionFull) && Stranded(r.state, place)
               else r.state == t)
  {
    match found {
      case Some(gid) =>
        JoinEnters(t, gid, t.sessions[gid], p, vacant);
      case None =>
        if FitsColumns(f.form) {
          CreationStaysGood(t, p, f);
          JoinEnters(Spec.CreateMatchmakeSession(t, p, f).state, t.nextId, f.session, p, vacant);
        }
    }
  }

  /**
   A valid request is turned away exactly when the limits it asks for do not fit their columns: what is found has the
   same limits, and what is created is stored with them. Else the caller ends up in exactly one session, the one
   found or a new one, which is as the caller asked for; a session is created only if none suited.
   */
  lemma AutoMatchmakeAlwaysPlaces(
    s: State, p: Pid, order: seq<Gid>, request: SessionRequest, cleanup: SessionForm -> SessionForm, message: string,
    friends: seq<Pid>, found: Option<Gid>)
    requires Good(s) && p != 0 && Spec.Enumerates(order, Spec.SessionRowsOf(s, p))
    requires |message| <= Spec.MAX_MESSAGE && Spec.CheckValidMatchmakeSession(request)
    requires Spec.IsClosestMatch(Spec.LeaveEach(s, p, order), cleanup(Spec.ToSessionForm(request)), friends, found)
    ensures found.Some? ==> found.value in s.sessions
    ensures
      var t, search := Spec.LeaveEach(s, p, order), cleanup(Spec.ToSessionForm(request));
      var r, place := Spec.AutoMatchmake(s, p, order, Some(request), cleanup, message, found), Place(s, found);
      && (r.result.Ok? <==> FitsColumns(search.form))
      && (r.result.Ok? ==> EntersOnly(t.(nextId := r.state.nextId), r, p, place))
      && (r.result.Ok? ==>
            && place in r.state.sessions && IsAlike(r.state.sessions[place], search.session)
            && r.state.gatherings[place].form.maxParticipants == search.form.maxParticipants
            && r.state.gatherings[place].form.minParticipants == search.form.minParticipants)
      && (r.result.Err? ==> r.state == t && SessionsOf(t, p) == {})
      && (r.state.nextId != s.nextId <==> r.result.Ok? && forall gid :: !Suits(t, gid, search, friends))
  {
    var t, search := Spec.LeaveEach(s, p, order), cleanup(Spec.ToSessionForm(request));
    LeavingLeavesNone(s, p, order);
    LeavingStaysGood(s, p, order);
    Spec.LeaveEachKeepsSessions(s, p, order);
    FoundOrCreatedPlaces(t, p, found, search, 1);
    ExampleRule(t, search, friends, found);
    if found.Some? {
      assert GoodRow(t.gatherings[found.value]);
      JoinKeepsForm(t, found.value, t.sessions[found.value], p, 1);
    } else {
      CreateAndJoinRule(t, p, search, 1);
    }
  }

  lemma JoinKeepsForm(t: State, gid: Gid, session: Session, p: Pid, vacant: UInt16)
    requires gid in t.gatherings
    ensures
      var u := Spec.JoinMatchmakeSession(t, gid, session, p, vacant).state;
      u.sessions == t.sessions && gid in u.gatherings && u.gatherings[gid].form == t.gatherings[gid].form
  {
  }

  /** The input that is turned away: one participant more than an `integer` column holds. */
  lemma WideLimitIsRefused()
    ensures
      var wide := Runs.Asking(INT32_MAX + 1);
      && Spec.IsClosestMatch(EMPTY, Spec.ToSessionForm(wide), [], None)
      && Spec.AutoMatchmake(EMPTY, Runs.CREATOR, [], Some(wide), f => f, "", None) == Outcome(EMPTY, Err(Unknown))
  {
  }

  /** A request that is not valid still costs the caller every session it was in. */
  lemma InvalidRequestStillLeaves(
    s: State, p: Pid, order: seq<Gid>, offered: Option<SessionRequest>, cleanup: SessionForm -> SessionForm,
    message: string, found: Option<Gid>)
    requires Spec.Enumerates(order, Spec.SessionRowsOf(s, p)) && (found.Some? ==> found.value in s.sessions)
    requires |message| <= Spec.MAX_MESSAGE && (offered.None? || !Spec.CheckValidMatchmakeSession(offered.value))
    ensures
      var r := Spec.AutoMatchmake(s, p, order, offered, cleanup, message, found);
      r.result == Err(InvalidArgument) && SessionsOf(r.state, p) == {}
  {
    LeavingLeavesNone(s, p, order);
  }

  // ---------------------------------------------------------------- the variant with search criteria

  /** What the search hands on can be joined: its results are registered sessions with participants. */
  lemma AnswersAreFindable(
    s: State, criteria: seq<Search.Criterion>, score: nat, answer: Option<seq<Gid>>, parts: seq<seq<Gid>>)
    requires Manager.SearchedFor(s, criteria, score, answer, parts)
    ensures Findable(s, answer)
  {
    if answer.Some? && answer.value != [] {
      Search.ResultsAreAccepted(
        Search.Database(s.gatherings, s.sessions), criteria, Search.Range(0, 1), Some(score), parts, answer.value[0]);
    }
  }

  /** Stored and searched game modes agree exactly when the requested ones do outside of the two region bits. */
  lemma CanonicalModesAgreeIff(a: nat, b: nat)
    ensures Spec.CanonicalGameMode(a) == Spec.CanonicalGameMode(b) <==> a / 0x1000 == b / 0x1000 && a % 0x400 == b % 0x400
    ensures Spec.CanonicalGameMode(Spec.CanonicalGameMode(a)) == Spec.CanonicalGameMode(a)
  {
    CanonicalKeeps(a);
    CanonicalKeeps(b);
  }

  lemma CanonicalKeeps(mode: nat)
    ensures Spec.CanonicalGameMode(mode) / 0x1000 == mode / 0x1000 && Spec.CanonicalGameMode(mode) % 0x400 == mode % 0x400
  {
    HighAndLow(mode / 0x1000, mode % 0x400);
  }

  lemma HighAndLow(high: nat, low: nat)
    requires low < 0x400
    ensures (high * 0x1000 + low) / 0x1000 == high && (high * 0x1000 + low) % 0x400 == low
  {
  }

  function RoomAsked(vacants: seq<UInt16>): UInt16 {
    if vacants == [] then 1 else vacants[0]
  }

  /**
   Exactly when a valid request is let in: what was found asks for no password and has room for the guests of the
   first criterion, or nothing was found and the new session has that room.
   */
  lemma CriteriaPlaceIff(
    s: State, p: Pid, order: seq<Gid>, vacants: seq<UInt16>, request: SessionRequest, message: string,
    answer: seq<Gid>)
    requires Good(s) && p != 0 && Spec.Enumerates(order, Spec.SessionRowsOf(s, p))
    requires |message| <= Spec.MAX_MESSAGE && |vacants| <= 2 && Spec.CheckValidMatchmakeSession(request)
    requires Findable(Spec.LeaveEach(s, p, order), Some(answer))
    ensures
      var t, f := Spec.LeaveEach(s, p, order), Spec.CanonicalForm(request);
      && Spec.KnownAnswer(s, Some(answer))
      && var r := Spec.AutoMatchmakeWithSearchCriteria(s, p, order, vacants, Some(request), message, Some(answer));
      var place := if answer == [] then s.nextId else answer[0];
      && (r.result.Ok? <==>
            if answer == [] then Creatable(f, p, RoomAsked(vacants))
            else !t.sessions[place].userPasswordEnabled && !t.sessions[place].systemPasswordEnabled
                 && HasRoomFor(t.gatherings[place], RoomAsked(vacants)))
      && (r.result.Ok? ==> EntersOnly(t.(nextId := r.state.nextId), r, p, place))
      && (r.result.Err? ==> SessionsOf(r.state, p) == {})
      && (r.result.Err? && answer == [] && FitsColumns(f.form) ==> Stranded(r.state, s.nextId))
  {
    LeavingLeavesNone(s, p, order);
    LeavingStaysGood(s, p, order);
    Spec.LeaveEachKeepsSessions(s, p, order);
    FoundOrCreatedPlaces(
      Spec.LeaveEach(s, p, order), p, Spec.FirstResult(answer), Spec.CanonicalForm(request), RoomAsked(vacants));
  }

  function RoomOf(c: Search.Criterion): nat {
    if c.vacantParticipants == 0 then 1 else c.vacantParticipants
  }

  /** What a client can arrange: criteria that exclude passwords and each ask for the first one's room, or more. */
  predicate AskFirstRoom(criteria: seq<Search.Criterion>) {
    forall c :: c in criteria ==>
      c.vacantOnly && c.excludeUserPasswordSet && c.excludeSystemPasswordSet && RoomOf(c) >= RoomOf(criteria[0])
  }

  /** Then it is never refused what they find. */
  lemma CriteriaAreEnough(
    t: State, criteria: seq<Search.Criterion>, score: nat, answer: seq<Gid>, parts: seq<seq<Gid>>)
    requires Manager.SearchedFor(t, criteria, score, Some(answer), parts) && answer != []
    requires AskFirstRoom(criteria)
    ensures
      var gid := answer[0];
      && gid in t.sessions && gid in t.gatherings
      && !t.sessions[gid].userPasswordEnabled && !t.sessions[gid].systemPasswordEnabled
      && HasRoomFor(t.gatherings[gid], RoomAsked(Manager.Vacants(criteria)))
  {
    Search.ResultsAreAccepted(
      Search.Database(t.gatherings, t.sessions), criteria, Search.Range(0, 1), Some(score), parts, answer[0]);
  }

  /** A single criterion that asks for room and excludes passwords always does. */
  lemma OneCriterionIsEnough(
    t: State, c: Search.Criterion, score: nat, answer: seq<Gid>, parts: seq<seq<Gid>>)
    requires Manager.SearchedFor(t, [c], score, Some(answer), parts) && answer != []
    requires c.vacantOnly && c.excludeUserPasswordSet && c.excludeSystemPasswordSet
    ensures
      var gid := answer[0];
      && gid in t.sessions && gid in t.gatherings
      && !t.sessions[gid].userPasswordEnabled && !t.sessions[gid].systemPasswordEnabled
      && HasRoomFor(t.gatherings[gid], RoomAsked(Manager.Vacants([c])))
  {
    CriteriaAreEnough(t, [c], score, answer, parts);
  }

  const ROOM_FOR_TWO: Search.Criterion := Limits.ANYTHING.(vacantOnly := true, vacantParticipants := 2)
  const ROOM_FOR_ONE: Search.Criterion := Limits.ANYTHING.(vacantOnly := true, vacantParticipants := 1)

  /** The tables after one player has created a session for two, see SmallRuns.CreationRun. */
  const ONE_VACANCY: State := Runs.OneSession(2, [Runs.CREATOR])

  lemma OneVacancyRows()
    ensures
      var db := Search.Database(ONE_VACANCY.gatherings, ONE_VACANCY.sessions);
      && Search.AcceptedRows(db, ROOM_FOR_TWO) == {} && Search.AcceptedRows(db, ROOM_FOR_ONE) == {1}
      && Search.Scanned(db, []) == [] && Search.Scanned(db, [1]) == [1]
  {
    var one: seq<Gid> := [1];
    assert one[..0] == [];
  }

  lemma AtMostOneRow(db: Search.Database, c: Search.Criterion, rows: set<Gid>, page: seq<Gid>)
    requires rows == Search.AcceptedRows(db, c) && Search.Scanned(db, page) == page && c.range.length == 0
    requires c.selection.SelectRandom? && Search.WellFormedCriterion(c)
    requires (rows == {} && page == []) || (rows == {1} && page == [1])
    ensures Search.Contributes(db, c, Search.Range(0, 1), Some(0), 0, page)
  {
    Limits.UnorderedContributes(db, c, Search.Range(0, 1), Some(0), 0, rows, page, page);
  }

  lemma NoIndexFails(criteria: seq<Search.Criterion>, source: Option<nat>)
    requires forall c :: c in criteria ==> c.selection.SelectRandom?
    ensures !Search.AnyIndexFails(criteria, source)
  {
  }

  /** What the second criterion finds there, the first one having found nothing. */
  lemma SecondCriterionFinds() returns (parts: seq<seq<Gid>>)
    ensures Manager.SearchedFor(ONE_VACANCY, [ROOM_FOR_TWO, ROOM_FOR_ONE], 0, Some([1]), parts)
  {
    var db, range := Search.Database(ONE_VACANCY.gatherings, ONE_VACANCY.sessions), Search.Range(0, 1);
    var none: seq<Gid>, one: seq<Gid> := [], [1];
    OneVacancyRows();
    AtMostOneRow(db, ROOM_FOR_TWO, {}, none);
    AtMostOneRow(db, ROOM_FOR_ONE, {1}, one);
    parts := TwoCriteriaCollect(db, range, Some(0), ROOM_FOR_TWO, ROOM_FOR_ONE, one);
    NoIndexFails([ROOM_FOR_TWO, ROOM_FOR_ONE], Some(0));
  }

  /**
   Two are not: a visitor who arrives at these tables is refused what the second criterion found, for lack of the
   room the first one asked for, although there is the room that the second one asked for.
   */
  lemma SecondCriterionCanBeRefused() returns (steps: seq<Step>, parts: seq<seq<Gid>>)
    ensures Serves(EMPTY, steps) && Served(EMPTY, steps) == ONE_VACANCY && Good(ONE_VACANCY)
    ensures
      var criteria := [ROOM_FOR_TWO, ROOM_FOR_ONE];
      && Spec.Enumerates([], Spec.SessionRowsOf(ONE_VACANCY, Runs.VISITOR))
      && Manager.SearchedFor(Spec.LeaveEach(ONE_VACANCY, Runs.VISITOR, []), criteria, 0, Some([1]), parts)
      && Spec.KnownAnswer(ONE_VACANCY, Some([1]))
      && Spec.AutoMatchmakeWithSearchCriteria(
           ONE_VACANCY, Runs.VISITOR, [], Manager.Vacants(criteria), Some(Runs.Asking(2)), "", Some([1])).result
         == Err(SessionFull)
    ensures HasRoomFor(ONE_VACANCY.gatherings[1], ROOM_FOR_ONE.vacantParticipants)
  {
    steps := [Runs.Creating(Runs.CREATOR, 2, 1)];
    Runs.CreationRun(2);
    Invariants.ReachableIsGood(steps);
    parts := SecondCriterionFinds();
    var vacants := Manager.Vacants([ROOM_FOR_TWO, ROOM_FOR_ONE]);
    assert vacants[0] == 2;
    TwoDoNotFit(vacants);
  }

  lemma TwoDoNotFit(vacants: seq<UInt16>)
    requires |vacants| == 2 && vacants[0] == 2
    ensures
      Spec.KnownAnswer(ONE_VACANCY, Some([1]))
      && Spec.AutoMatchmakeWithSearchCriteria(
           ONE_VACANCY, Runs.VISITOR, [], vacants, Some(Runs.Asking(2)), "", Some([1])).result == Err(SessionFull)
  {
    assert ONE_VACANCY.gatherings[1].participants == [Runs.CREATOR];
  }

  lemma TwoCriteriaCollect(
    db: Search.Database, range: Search.Range, source: Option<nat>, c: Search.Criterion, d: Search.Criterion, part: seq<Gid>)
    returns (parts: seq<seq<Gid>>)
    requires Search.Contributes(db, c, range, source, 0, []) && Search.Contributes(db, d, range, source, 0, part)
    ensures Search.Collects(db, [c, d], range, source, parts) && Search.Flatten(parts) == part
  {
    var first: seq<seq<Gid>> := [[]];
    Search.CollectsAppend(db, [], range, source, [], c, []);
    assert [] + first == first && [] + [c] == [c];
    Search.CollectsAppend(db, [c], range, source, first, d, part);
    assert [c] + [d] == [c, d];
    parts := first + [part];
  }
}
