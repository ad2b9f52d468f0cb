/**
 What each database routine and each handler does to the tables, as functions on table values.
 The imperative handlers of `MatchmakingManager` are proved against these functions, and everything
 said about runs of the server is proved about them.
 */
module MatchmakingSpec {
  import opened ParticipantLists
  import opened Tables

  const MAX_MESSAGE: nat := 256
  const SYSTEM_TYPE_PERSISTENT_GATHERING: nat := 5

  // ---------------------------------------------------------------- departures

  datatype Exit = Leave | Disconnect

  /** These gatherings survive without participants: a departure changes the list and nothing else. */
  predicate Lenient(g: Gathering) {
    PersistentGathering in g.form.flags || PersistentGatheringAllowZeroUsers in g.form.flags
  }

  /** A lost connection does not end the participation in these. */
  predicate KeptOnDisconnect(g: Gathering) {
    PersistentGathering in g.form.flags
    || (g.kind == CommunityKind && PersistentGatheringLeaveParticipation !in g.form.flags)
  }

  /** The departure of `p` ends the gathering: nobody is left, or nobody may inherit it. */
  predicate EndsWith(g: Gathering, p: Pid) {
    var rest := Without(g.participants, p);
    !Lenient(g) && (rest == [] || (p == g.owner && (DisconnectChangeOwner !in g.form.flags || rest[0] == 0)))
  }

  /** Who owns the gathering after `p` left it: the first remaining participant inherits. */
  function Heir(g: Gathering, p: Pid): Pid {
    var rest := Without(g.participants, p);
    if Lenient(g) || p != g.owner || rest == [] then g.owner else rest[0]
  }

  function AfterDeparture(g: Gathering, p: Pid): Gathering {
    var rest := Without(g.participants, p);
    if Lenient(g) then g.(participants := rest)
    else if EndsWith(g, p) then g.(participants := rest, registered := false)
    else
      var heir := Heir(g, p);
      g.(participants := rest, owner := heir, host := if p == g.host && heir != 0 then heir else g.host)
  }

  function ExitEntry(exit: Exit, p: Pid, gid: Gid, rest: seq<Pid>): Event {
    match exit
    case Leave => LogLeave(p, gid, rest)
    case Disconnect => LogDisconnect(p, gid, rest)
  }

  function DepartureEntries(g: Gathering, gid: Gid, p: Pid, exit: Exit): seq<Event> {
    var rest := Without(g.participants, p);
    var heir := Heir(g, p);
    [ExitEntry(exit, p, gid, rest)]
    + if Lenient(g) then []
      else if EndsWith(g, p) then [LogUnregister(p, gid)]
      else (if p == g.owner then [LogChangeOwner(p, gid, g.owner, heir)] else [])
           + (if p == g.host && heir != 0 then [LogChangeHost(p, gid, g.host, heir)] else [])
  }

  function Departed(s: State, gid: Gid, p: Pid, exit: Exit): State
    requires gid in s.gatherings
  {
    var g := s.gatherings[gid];
    s.(gatherings := s.gatherings[gid := AfterDeparture(g, p)],
       tracking := s.tracking + DepartureEntries(g, gid, p, exit))
  }

  function EndGatheringParticipation(s: State, gid: Gid, p: Pid): Outcome<()> {
    if gid !in s.gatherings || !s.gatherings[gid].registered then Outcome(s, Err(SessionVoid))
    else if p !in s.gatherings[gid].participants then Outcome(s, Err(NotParticipated))
    else Outcome(Departed(s, gid, p, Leave), Ok(()))
  }

  /** One row of the loop over a lost connection's gatherings. */
  function DisconnectFrom(s: State, gid: Gid, p: Pid): State {
    if gid !in s.gatherings || KeptOnDisconnect(s.gatherings[gid]) then s
    else Departed(s, gid, p, Disconnect)
  }

  function DisconnectEach(s: State, p: Pid, order: seq<Gid>): State
    decreases |order|
  {
    if order == [] then s else DisconnectEach(DisconnectFrom(s, order[0], p), p, order[1..])
  }

  function LeaveEach(s: State, p: Pid, order: seq<Gid>): State
    decreases |order|
  {
    if order == [] then s else LeaveEach(EndGatheringParticipation(s, order[0], p).state, p, order[1..])
  }

  /** `order` is one order in which a query without ORDER BY may return the rows `gids`. */
  ghost predicate Enumerates(order: seq<Gid>, gids: set<Gid>) {
    (forall gid :: gid in order <==> gid in gids) && NoRepeats(order)
  }

  function GatheringsOf(s: State, p: Pid): set<Gid> {
    set gid | gid in s.gatherings && s.gatherings[gid].registered && p in s.gatherings[gid].participants
  }

  /** The rows of the query in EndMatchmakeSessionsParticipation: it does not ask for registered rows only. */
  function SessionRowsOf(s: State, p: Pid): set<Gid> {
    set gid | gid in s.gatherings && s.gatherings[gid].kind == SessionKind && p in s.gatherings[gid].participants
  }

  // ---------------------------------------------------------------- registration

  function NewGathering(form: Form, kind: Kind, owner: Pid, host: Pid): Gathering {
    Gathering(form, kind, owner, host, true, [])
  }

  /** Both participant limits live in `integer` columns, so a larger uint32 makes the INSERT fail. */
  predicate Storable(form: Form) {
    form.minParticipants <= INT32_MAX && form.maxParticipants <= INT32_MAX
  }

  function Registered(s: State, g: Gathering): State {
    s.(gatherings := s.gatherings[s.nextId := g], nextId := s.nextId + 1,
       tracking := s.tracking + [LogRegister(g.owner, s.nextId)])
  }

  function RegisterGathering(s: State, owner: Pid, host: Pid, form: Form, kind: Kind): Outcome<Gid> {
    if Storable(form) then Outcome(Registered(s, NewGathering(form, kind, owner, host)), Ok(s.nextId))
    else Outcome(s, Err(Unknown))
  }

  function CreateMatchmakeSession(s: State, p: Pid, f: SessionForm): Outcome<Gid> {
    var r := RegisterGathering(s, p, p, f.form, SessionKind);
    match r.result
    case Err(_) => r
    case Ok(gid) =>
      r.(state := r.state.(sessions := r.state.sessions[gid := f.session.(systemPasswordEnabled := false)]))
  }

  function Unregistered(s: State, gid: Gid, source: Pid): State
    requires gid in s.gatherings
  {
    s.(gatherings := s.gatherings[gid := s.gatherings[gid].(registered := false)],
       tracking := s.tracking + [LogUnregister(source, gid)])
  }

  // ---------------------------------------------------------------- joining

  function Joined(s: State, gid: Gid, source: Pid, newcomers: seq<Pid>, total: seq<Pid>): State
    requires gid in s.gatherings
  {
    s.(gatherings := s.gatherings[gid := s.gatherings[gid].(participants := total)],
       tracking := s.tracking + [LogJoin(source, gid, newcomers, total)])
  }

  /** Guests are copies of the player's own PID, put in front. Sums are computed in uint32. */
  function JoinGathering(s: State, gid: Gid, p: Pid, vacant: UInt16): Outcome<nat> {
    var k := if vacant == 0 then 1 else vacant;
    if gid !in s.gatherings then Outcome(s, Err(SessionVoid))
    else
      var g := s.gatherings[gid];
      var limit := g.form.maxParticipants;
      if limit != 0 && (|g.participants| % UINT32_SIZE + k) % UINT32_SIZE > limit then Outcome(s, Err(SessionFull))
      else if p in g.participants then Outcome(s, Err(AlreadyParticipated))
      else
        var total := Copies(p, k) + g.participants;
        Outcome(Joined(s, gid, p, Copies(p, k), total), Ok(|total| % UINT32_SIZE))
  }

  /**
   The extra participants are appended. The size check counts the caller even when it is already in, has no
   exception for a limit of zero, and truncates to uint32.
   */
  function JoinGatheringWithParticipants(
    s: State, gid: Gid, p: Pid, additional: seq<Pid>, imAlreadyJoined: bool): Outcome<nat>
  {
    if gid !in s.gatherings then Outcome(s, Err(SessionVoid))
    else
      var g := s.gatherings[gid];
      if (|g.participants| + 1 + |additional|) % UINT32_SIZE > g.form.maxParticipants then Outcome(s, Err(SessionFull))
      else if imAlreadyJoined && p !in g.participants then Outcome(s, Err(NotParticipated))
      else if !imAlreadyJoined && p in g.participants then Outcome(s, Err(AlreadyParticipated))
      else
        var newcomers := (if imAlreadyJoined then [] else [p]) + additional;
        var total := g.participants + newcomers;
        Outcome(Joined(s, gid, p, newcomers, total), Ok(|total| % UINT32_SIZE))
  }

  /** The upsert of a participation counter, followed by its log entry. */
  function Counted(s: State, p: Pid, community: Gid, gid: Gid): State {
    var n := (if (p, community) in s.counts then s.counts[(p, community)] else 0) + 1;
    s.(counts := s.counts[(p, community) := n],
       communityLog := s.communityLog + [CommunityEntry(p, community, gid, n)])
  }

  function CountedEach(s: State, ps: seq<Pid>, community: Gid, gid: Gid): State
    decreases |ps|
  {
    if ps == [] then s else CountedEach(Counted(s, ps[0], community, gid), ps[1..], community, gid)
  }

  function JoinMatchmakeSession(s: State, gid: Gid, session: Session, p: Pid, vacant: UInt16): Outcome<nat> {
    var r := JoinGathering(s, gid, p, vacant);
    if r.result.Ok? && session.systemType == SYSTEM_TYPE_PERSISTENT_GATHERING
    then r.(state := Counted(r.state, p, session.attribs[0], gid))
    else r
  }

  function JoinMatchmakeSessionWithParticipants(
    s: State, gid: Gid, session: Session, p: Pid, additional: seq<Pid>, imAlreadyJoined: bool): Outcome<nat>
  {
    var r := JoinGatheringWithParticipants(s, gid, p, additional, imAlreadyJoined);
    if r.result.Ok? && session.systemType == SYSTEM_TYPE_PERSISTENT_GATHERING
    then r.(state := CountedEach(r.state, additional + [p], session.attribs[0], gid))
    else r
  }

  // ---------------------------------------------------------------- lookups and checks

  /** A session whose list is empty has a NULL `array_length`, which does not scan. */
  function GetMatchmakeSessionByID(s: State, gid: Gid): Result<Session> {
    if gid !in s.gatherings || gid !in s.sessions then Err(SessionVoid)
    else
      var g := s.gatherings[gid];
      if !g.registered || g.kind != SessionKind then Err(SessionVoid)
      else if g.participants == [] then Err(Unknown)
      else Ok(s.sessions[gid])
  }

  function CheckGatheringForParticipation(s: State, gid: Gid, ps: seq<Pid>): Option<Error> {
    if gid !in s.gatherings || !s.gatherings[gid].registered then Some(SessionVoid)
    else if forall p :: p in ps ==> p in s.gatherings[gid].participants then None
    else Some(NotParticipated)
  }

  predicate CheckValidMatchmakeSession(r: SessionRequest) {
    && |r.form.description| <= 256
    && |r.attribs| == 6
    && r.progressScore <= 100
    && |r.userPassword| <= 32
    && |r.codeword| <= 256
    && |r.applicationBuffer| <= 512
    && |r.sessionKey| <= 512
  }

  function ToSessionForm(r: SessionRequest): SessionForm
    requires CheckValidMatchmakeSession(r)
  {
    SessionForm(r.form, Session(r.gameMode, r.attribs, r.openParticipation, r.systemType, r.progressScore,
                                r.referGid, r.codeword, r.userPasswordEnabled, r.userPassword,
                                r.systemPasswordEnabled, ""))
  }

  // ---------------------------------------------------------------- handlers

  function CreateSession(s: State, p: Pid, order: seq<Gid>, offered: Option<SessionRequest>,
                         message: string, count: UInt16): Outcome<nat>
  {
    if |message| > MAX_MESSAGE then Outcome(s, Err(InvalidArgument))
    else
      var s1 := LeaveEach(s, p, order);
      if offered.None? || !CheckValidMatchmakeSession(offered.value) then Outcome(s1, Err(InvalidArgument))
      else
        var f := ToSessionForm(offered.value);
        var r := CreateMatchmakeSession(s1, p, f);
        match r.result
        case Err(_) => r
        case Ok(gid) => JoinMatchmakeSession(r.state, gid, f.session, p, count)
  }

  function CreateSessionWithParam(s: State, p: Pid, order: seq<Gid>, request: SessionRequest, message: string,
                                  checkGid: Gid, additional: seq<Pid>): Outcome<nat>
  {
    if !CheckValidMatchmakeSession(request) || |message| > MAX_MESSAGE then Outcome(s, Err(InvalidArgument))
    else
      var refused := if checkGid == 0 then None else CheckGatheringForParticipation(s, checkGid, additional + [p]);
      if refused.Some? then Outcome(s, Err(refused.value))
      else
        var f := ToSessionForm(request);
        var r := CreateMatchmakeSession(LeaveEach(s, p, order), p, f);
        match r.result
        case Err(_) => r
        case Ok(gid) => JoinMatchmakeSessionWithParticipants(r.state, gid, f.session, p, additional, false)
  }

  /** Auto-matchmaking once a search has answered: join what it found, or create and join a session of one's own. */
  function JoinFoundOrCreated(s: State, p: Pid, found: Option<Gid>, f: SessionForm, vacant: UInt16): Outcome<nat>
    requires found.Some? ==> found.value in s.sessions
  {
    match found
    case Some(gid) => JoinMatchmakeSession(s, gid, s.sessions[gid], p, vacant)
    case None =>
      var r := CreateMatchmakeSession(s, p, f);
      match r.result
      case Err(_) => r
      case Ok(gid) => JoinMatchmakeSession(r.state, gid, f.session, p, vacant)
  }

  const FRIENDS_ONLY: nat := 98

  /** The WHERE clause of FindMatchmakeSession. */
  predicate FindMatches(s: State, gid: Gid, search: SessionForm, friends: seq<Pid>) {
    && gid in s.gatherings && gid in s.sessions
    && var g, session, wanted := s.gatherings[gid], s.sessions[gid], search.session;
    && g.registered && g.kind == SessionKind && g.host != 0
    && session.openParticipation && !session.userPasswordEnabled && !session.systemPasswordEnabled
    && g.participants != [] && |g.participants| < g.form.maxParticipants
    && g.form.maxParticipants == search.form.maxParticipants
    && g.form.minParticipants == search.form.minParticipants
    && session.gameMode == wanted.gameMode
    && session.attribs[0] == wanted.attribs[0]
    && session.attribs[2..] == wanted.attribs[2..]
    && session.systemType == wanted.systemType
    && session.codeword == wanted.codeword
    && (g.form.policy == FRIENDS_ONLY ==> g.owner in friends)
  }

  /** ORDER BY: how far attribute 1 is from the wanted one. */
  function AttributeDistance(s: State, gid: Gid, search: SessionForm): nat
    requires gid in s.sessions
  {
    var wanted, offered := search.session.attribs[1], s.sessions[gid].attribs[1];
    if wanted < offered then offered - wanted else wanted - offered
  }

  /** An answer the search may give: one of the closest matches, or none when nothing matches. */
  ghost predicate IsClosestMatch(s: State, search: SessionForm, friends: seq<Pid>, found: Option<Gid>) {
    match found
    case None => forall gid :: !FindMatches(s, gid, search, friends)
    case Some(best) =>
      && FindMatches(s, best, search, friends)
      && forall gid :: FindMatches(s, gid, search, friends) ==>
           AttributeDistance(s, best, search) <= AttributeDistance(s, gid, search)
  }

  /**
   The request is checked as sent; the search, and the session created when it finds nothing, use it as the game
   server's clean-up hook leaves it.
   */
  function AutoMatchmake(s: State, p: Pid, order: seq<Gid>, offered: Option<SessionRequest>,
                         cleanup: SessionForm -> SessionForm, message: string, found: Option<Gid>): Outcome<nat>
    requires found.Some? ==> found.value in s.sessions
  {
    if |message| > MAX_MESSAGE then Outcome(s, Err(InvalidArgument))
    else
      var s1 := LeaveEach(s, p, order);
      if offered.None? || !CheckValidMatchmakeSession(offered.value) then Outcome(s1, Err(InvalidArgument))
      else
        LeaveEachKeepsSessions(s, p, order);
        JoinFoundOrCreated(s1, p, found, cleanup(ToSessionForm(offered.value)), 1)
  }

  /** The two region bits 0xC00 are cleared before a game mode is stored or searched for. */
  function CanonicalGameMode(mode: nat): nat {
    mode / 0x1000 * 0x1000 + mode % 0x400
  }

  /** The same on machine words, against the bit mask. */
  lemma CanonicalClearsRegionBits(mode: bv32)
    ensures mode & !0xC00 == mode / 0x1000 * 0x1000 + mode % 0x400
  {
  }

  /** What a search by criteria hands on: None is an index out of range, and only the first result is used. */
  predicate KnownAnswer(s: State, answer: Option<seq<Gid>>) {
    answer.Some? && answer.value != [] ==> answer.value[0] in s.sessions
  }

  function FirstResult(answer: seq<Gid>): Option<Gid> {
    if answer == [] then None else Some(answer[0])
  }

  predicate HasPassword(session: Session) {
    session.userPasswordEnabled || session.systemPasswordEnabled
  }

  /** `vacants` are the criteria's own vacancy counts; the first one is used whichever criterion found the session. */
  function AutoMatchmakeWithSearchCriteria(
    s: State, p: Pid, order: seq<Gid>, vacants: seq<UInt16>, offered: Option<SessionRequest>, message: string,
    answer: Option<seq<Gid>>): Outcome<nat>
    requires KnownAnswer(s, answer)
  {
    if |message| > MAX_MESSAGE || |vacants| > 2 then Outcome(s, Err(InvalidArgument))
    else
      var s1 := LeaveEach(s, p, order);
      if offered.None? || !CheckValidMatchmakeSession(offered.value) then Outcome(s1, Err(InvalidArgument))
      else if answer.None? then Outcome(s1, Err(IndexOutOfRange))
      else
        LeaveEachKeepsSessions(s, p, order);
        var found := FirstResult(answer.value);
        if found.Some? && HasPassword(s.sessions[found.value]) then Outcome(s1, Err(PermissionDenied))
        else
          JoinFoundOrCreated(s1, p, found, CanonicalForm(offered.value), if vacants == [] then 1 else vacants[0])
  }

  function CanonicalForm(request: SessionRequest): SessionForm
    requires CheckValidMatchmakeSession(request)
  {
    ToSessionForm(request.(gameMode := CanonicalGameMode(request.gameMode)))
  }

  function AutoMatchmakeWithParam(
    s: State, p: Pid, order: seq<Gid>, request: SessionRequest, message: string, checkGid: Gid,
    additional: seq<Pid>, answer: Option<seq<Gid>>): Outcome<nat>
    requires KnownAnswer(s, answer)
  {
    if !CheckValidMatchmakeSession(request) || |message| > MAX_MESSAGE then Outcome(s, Err(InvalidArgument))
    else
      var refused := if checkGid == 0 then None else CheckGatheringForParticipation(s, checkGid, additional + [p]);
      if refused.Some? then Outcome(s, Err(refused.value))
      else
        var s1 := LeaveEach(s, p, order);
        LeaveEachKeepsSessions(s, p, order);
        if answer.None? then Outcome(s1, Err(IndexOutOfRange))
        else
          match FirstResult(answer.value)
          case Some(gid) =>
            if HasPassword(s1.sessions[gid]) then Outcome(s1, Err(PermissionDenied))
            else JoinMatchmakeSessionWithParticipants(s1, gid, s1.sessions[gid], p, additional, false)
          case None =>
            var f := ToSessionForm(request);
            var r := CreateMatchmakeSession(s1, p, f);
            match r.result
            case Err(_) => r
            case Ok(gid) => JoinMatchmakeSessionWithParticipants(r.state, gid, f.session, p, additional, false)
  }

  lemma {:induction false} LeaveEachKeepsSessions(s: State, p: Pid, order: seq<Gid>)
    ensures LeaveEach(s, p, order).sessions == s.sessions
    ensures LeaveEach(s, p, order).nextId == s.nextId
    ensures LeaveEach(s, p, order).gatherings.Keys == s.gatherings.Keys
    decreases |order|
  {
    if order != [] {
      LeaveEachKeepsSessions(EndGatheringParticipation(s, order[0], p).state, p, order[1..]);
    }
  }

  function JoinSession(s: State, p: Pid, gid: Gid, message: string, count: UInt16): Outcome<nat> {
    if |message| > MAX_MESSAGE then Outcome(s, Err(InvalidArgument))
    else
      match GetMatchmakeSessionByID(s, gid)
      case Err(e) => Outcome(s, Err(e))
      case Ok(session) =>
        if session.userPasswordEnabled || session.systemPasswordEnabled || !session.openParticipation
        then Outcome(s, Err(PermissionDenied))
        else JoinMatchmakeSession(s, gid, session, p, count)
  }

  datatype JoinParam = JoinParam(
    gid: Gid, checkGid: Gid, additional: seq<Pid>, imAlreadyJoined: bool,
    message: string, userPassword: string, systemPassword: string)

  function JoinSessionWithParam(s: State, p: Pid, param: JoinParam): Outcome<nat> {
    if |param.message| > MAX_MESSAGE then Outcome(s, Err(InvalidArgument))
    else
      var refused := if param.checkGid == 0 then None
                     else CheckGatheringForParticipation(s, param.checkGid, param.additional + [p]);
      if refused.Some? then Outcome(s, Err(refused.value))
      else
        match GetMatchmakeSessionByID(s, param.gid)
        case Err(e) => Outcome(s, Err(e))
        case Ok(session) =>
          if session.userPasswordEnabled && param.userPassword != session.userPassword
          then Outcome(s, Err(InvalidPassword))
          else if session.systemPasswordEnabled && param.systemPassword != session.systemPassword
          then Outcome(s, Err(InvalidPassword))
          else if !session.openParticipation then Outcome(s, Err(PermissionDenied))
          else JoinMatchmakeSessionWithParticipants(s, param.gid, session, p, param.additional, param.imAlreadyJoined)
  }

  function CommunitiesOwned(s: State, p: Pid): set<Gid> {
    set gid | gid in s.gatherings && s.gatherings[gid].registered && s.gatherings[gid].kind == CommunityKind
              && s.gatherings[gid].owner == p
  }

  /** `valid` is the outcome of CheckValidPersistentGathering, which depends on the clock. */
  function CreateCommunity(s: State, p: Pid, form: Form, valid: bool, creationMax: int): Outcome<nat> {
    if !valid then Outcome(s, Err(InvalidArgument))
    else if |CommunitiesOwned(s, p)| >= creationMax then Outcome(s, Err(CreationMax))
    else
      var r := RegisterGathering(s, p, 0, form, CommunityKind);
      match r.result
      case Err(_) => r
      case Ok(gid) => JoinGathering(r.state, gid, p, 1)
  }

  function EndParticipation(s: State, p: Pid, gid: Gid, message: string): Outcome<()> {
    if |message| > MAX_MESSAGE then Outcome(s, Err(InvalidArgument)) else EndGatheringParticipation(s, gid, p)
  }

  function HostChanged(s: State, gid: Gid, p: Pid): State
    requires gid in s.gatherings
  {
    var g := s.gatherings[gid];
    s.(gatherings := s.gatherings[gid := g.(host := p)],
       tracking := s.tracking + [LogChangeHost(p, gid, g.host, p)])
  }

  function OwnerAndHostChanged(s: State, gid: Gid, p: Pid): State
    requires gid in s.gatherings
  {
    var g := s.gatherings[gid];
    s.(gatherings := s.gatherings[gid := g.(owner := p, host := p)],
       tracking := s.tracking + [LogChangeHost(p, gid, g.host, p), LogChangeOwner(p, gid, g.owner, p)])
  }

  function UpdateSessionHost(s: State, p: Pid, gid: Gid, isMigrateOwner: bool): Outcome<()> {
    if gid !in s.gatherings || !s.gatherings[gid].registered then Outcome(s, Err(SessionVoid))
    else if p !in s.gatherings[gid].participants then Outcome(s, Err(PermissionDenied))
    else if !isMigrateOwner then Outcome(HostChanged(s, gid, p), Ok(()))
    else if ParticipantsChangeOwner !in s.gatherings[gid].form.flags then Outcome(s, Err(InvalidOperation))
    else Outcome(OwnerAndHostChanged(s, gid, p), Ok(()))
  }

  function UpdateSessionHostV1(s: State, p: Pid, gid: Gid): Outcome<()> {
    if gid !in s.gatherings || !s.gatherings[gid].registered then Outcome(s, Err(SessionVoid))
    else if p !in s.gatherings[gid].participants then Outcome(s, Err(PermissionDenied))
    else if ParticipantsChangeOwner !in s.gatherings[gid].form.flags then Outcome(HostChanged(s, gid, p), Ok(()))
    else Outcome(OwnerAndHostChanged(s, gid, p), Ok(()))
  }

  function UpdateSessionURL(s: State, p: Pid, gid: Gid): Outcome<()> {
    UpdateSessionHost(s, p, gid, false)
  }

  function Unregister(s: State, p: Pid, gid: Gid): Outcome<()> {
    if gid !in s.gatherings || !s.gatherings[gid].registered then Outcome(s, Err(SessionVoid))
    else if s.gatherings[gid].owner != p then Outcome(s, Err(PermissionDenied))
    else Outcome(Unregistered(s, gid, p), Ok(()))
  }

  /** The session of its owner; others may not change it. */
  function OwnSession(s: State, p: Pid, gid: Gid): Result<Session> {
    match GetMatchmakeSessionByID(s, gid)
    case Err(e) => Err(e)
    case Ok(session) => if s.gatherings[gid].owner != p then Err(PermissionDenied) else Ok(session)
  }

  function SetOpenParticipation(s: State, p: Pid, gid: Gid, open: bool): Outcome<()> {
    match OwnSession(s, p, gid)
    case Err(e) => Outcome(s, Err(e))
    case Ok(session) => Outcome(s.(sessions := s.sessions[gid := session.(openParticipation := open)]), Ok(()))
  }

  function ModifyGameAttribute(s: State, p: Pid, gid: Gid, index: nat, value: nat): Outcome<()> {
    match OwnSession(s, p, gid)
    case Err(e) => Outcome(s, Err(e))
    case Ok(session) =>
      if index >= |session.attribs| then Outcome(s, Err(InvalidIndex))
      else Outcome(s.(sessions := s.sessions[gid := session.(attribs := session.attribs[index := value])]), Ok(()))
  }

  function UpdateProgressScore(s: State, p: Pid, gid: Gid, score: nat): Outcome<()> {
    if score > 100 then Outcome(s, Err(InvalidArgument))
    else
      match OwnSession(s, p, gid)
      case Err(e) => Outcome(s, Err(e))
      case Ok(session) => Outcome(s.(sessions := s.sessions[gid := session.(progressScore := score)]), Ok(()))
  }

  /** At start-up every session of an earlier run is unregistered, without a log entry. */
  function Restarted(s: State): State {
    s.(gatherings := map gid | gid in s.gatherings ::
         if s.gatherings[gid].kind == SessionKind then s.gatherings[gid].(registered := false) else s.gatherings[gid])
  }
}
