/**
 The primitive moves of the matchmaking tables. Every handler is a finite run of moves (see `Handlers`), so what
 all moves keep, all handlers keep, over every run of the server.
 */
module Moves {
  import opened ParticipantLists
  import opened Tables
  import Spec = MatchmakingSpec

  datatype Move =
    | Register(g: Gathering)
    | AddSession(gid: Gid, session: Session)
    | Join(gid: Gid, source: Pid, newcomers: seq<Pid>, inFront: bool)
    | Depart(gid: Gid, p: Pid, exit: Spec.Exit)
    | SetHost(gid: Gid, p: Pid)
    | SetOwnerAndHost(gid: Gid, p: Pid)
    | Unregister(gid: Gid, p: Pid)
    | Count(p: Pid, community: Gid, gid: Gid)
    | SetSession(gid: Gid, session: Session)
    | Restart

  /** Sessions are hosted by whoever registers them, communities by nobody. */
  function FirstHost(kind: Kind, owner: Pid): Pid {
    if kind == SessionKind then owner else 0
  }

  function JoinedList(present: seq<Pid>, newcomers: seq<Pid>, inFront: bool): seq<Pid> {
    if inFront then newcomers + present else present + newcomers
  }

  predicate IsRegistered(s: State, gid: Gid) {
    gid in s.gatherings && s.gatherings[gid].registered
  }

  /** The columns that guard a session by password. */
  predicate SameGuard(a: Session, b: Session) {
    && a.userPasswordEnabled == b.userPasswordEnabled && a.userPassword == b.userPassword
    && a.systemPasswordEnabled == b.systemPasswordEnabled && a.systemPassword == b.systemPassword
  }

  predicate Enabled(s: State, m: Move) {
    match m
    case Register(g) =>
      Spec.Storable(g.form) && g.registered && g.participants == [] && g.owner != 0 && g.host == FirstHost(g.kind, g.owner)
    case AddSession(gid, _) => gid in s.gatherings && gid !in s.sessions && s.gatherings[gid].kind == SessionKind
    case Join(gid, _, newcomers, inFront) =>
      && IsRegistered(s, gid)
      && var g := s.gatherings[gid];
      && (g.participants != [] || g.owner in newcomers)
      && (g.form.maxParticipants == 0 || |g.participants| + |newcomers| <= g.form.maxParticipants)
    case Depart(gid, p, _) => IsRegistered(s, gid) && p in s.gatherings[gid].participants
    case SetHost(gid, p) => IsRegistered(s, gid) && p in s.gatherings[gid].participants
    case SetOwnerAndHost(gid, p) =>
      IsRegistered(s, gid) && p in s.gatherings[gid].participants && p != 0
      && ParticipantsChangeOwner in s.gatherings[gid].form.flags
    case Unregister(gid, p) => IsRegistered(s, gid) && p == s.gatherings[gid].owner
    case Count(_, _, _) => true
    case SetSession(gid, session) => gid in s.sessions && SameGuard(session, s.sessions[gid])
    case Restart => true
  }

  function Do(s: State, m: Move): State
    requires Enabled(s, m)
  {
    match m
    case Register(g) => Spec.Registered(s, g)
    case AddSession(gid, session) => s.(sessions := s.sessions[gid := session])
    case Join(gid, source, newcomers, inFront) =>
      Spec.Joined(s, gid, source, newcomers, JoinedList(s.gatherings[gid].participants, newcomers, inFront))
    case Depart(gid, p, exit) => Spec.Departed(s, gid, p, exit)
    case SetHost(gid, p) => Spec.HostChanged(s, gid, p)
    case SetOwnerAndHost(gid, p) => Spec.OwnerAndHostChanged(s, gid, p)
    case Unregister(gid, p) => Spec.Unregistered(s, gid, p)
    case Count(p, community, gid) => Spec.Counted(s, p, community, gid)
    case SetSession(gid, session) => s.(sessions := s.sessions[gid := session])
    case Restart => Spec.Restarted(s)
  }

  predicate CanRun(s: State, ms: seq<Move>)
    decreases |ms|
  {
    ms == [] || (Enabled(s, ms[0]) && CanRun(Do(s, ms[0]), ms[1..]))
  }

  function Run(s: State, ms: seq<Move>): State
    requires CanRun(s, ms)
    decreases |ms|
  {
    if ms == [] then s else Run(Do(s, ms[0]), ms[1..])
  }

  /** Runs compose. */
  lemma {:induction false} RunConcat(s: State, a: seq<Move>, b: seq<Move>)
    requires CanRun(s, a) && CanRun(Run(s, a), b)
    ensures CanRun(s, a + b) && Run(s, a + b) == Run(Run(s, a), b)
    decreases |a|
  {
    if a == [] {
      assert a + b == b;
    } else {
      assert (a + b)[1..] == a[1..] + b;
      RunConcat(Do(s, a[0]), a[1..], b);
    }
  }

  // ---------------------------------------------------------------- what a move touches

  /** A gathering whose row a move may change, and whose log entries it may write. */
  predicate Touches(s: State, m: Move, gid: Gid) {
    match m
    case Register(_) => gid == s.nextId
    case AddSession(_, _) => false
    case Join(g, _, _, _) => gid == g
    case Depart(g, _, _) => gid == g
    case SetHost(g, _) => gid == g
    case SetOwnerAndHost(g, _) => gid == g
    case Unregister(g, _) => gid == g
    case Count(_, _, _) => false
    case SetSession(_, _) => false
    case Restart => IsRegistered(s, gid) && s.gatherings[gid].kind == SessionKind
  }

  lemma UntouchedRows(s: State, m: Move, gid: Gid)
    requires Enabled(s, m) && gid in s.gatherings && !Touches(s, m, gid)
    ensures gid in Do(s, m).gatherings && Do(s, m).gatherings[gid] == s.gatherings[gid]
  {
  }

  /** The entries a move appends. */
  function Entries(s: State, m: Move): seq<Event>
    requires Enabled(s, m)
  {
    match m
    case Register(g) => [LogRegister(g.owner, s.nextId)]
    case Join(gid, source, newcomers, inFront) =>
      [LogJoin(source, gid, newcomers, JoinedList(s.gatherings[gid].participants, newcomers, inFront))]
    case Depart(gid, p, exit) => Spec.DepartureEntries(s.gatherings[gid], gid, p, exit)
    case SetHost(gid, p) => [LogChangeHost(p, gid, s.gatherings[gid].host, p)]
    case SetOwnerAndHost(gid, p) =>
      [LogChangeHost(p, gid, s.gatherings[gid].host, p), LogChangeOwner(p, gid, s.gatherings[gid].owner, p)]
    case Unregister(gid, p) => [LogUnregister(p, gid)]
    case _ => []
  }

  lemma EntriesAreAppended(s: State, m: Move)
    requires Enabled(s, m)
    ensures Do(s, m).tracking == s.tracking + Entries(s, m)
    ensures forall e :: e in Entries(s, m) ==> Touches(s, m, e.gid)
  {
  }

  // ---------------------------------------------------------------- well-formed tables and capacity

  /** The serial is ahead of every row, session rows belong to sessions, and the log speaks of rows only. */
  ghost predicate WellFormed(s: State) {
    && s.nextId >= 1
    && (forall gid :: gid in s.gatherings ==> 1 <= gid < s.nextId)
    && (forall gid :: gid in s.sessions ==> gid in s.gatherings && s.gatherings[gid].kind == SessionKind)
    && (forall e :: e in s.tracking ==> e.gid in s.gatherings)
  }

  /** Within its limit, and the limit fits its column. */
  predicate WithinLimit(g: Gathering) {
    && Spec.Storable(g.form)
    && (g.form.maxParticipants != 0 ==> |g.participants| <= g.form.maxParticipants)
  }

  /**
   Owner and host stay inside: a registered gathering with participants, and without the flags that let it go on
   without users, is owned by a participant and hosted by a participant or by nobody.
   */
  predicate OwnerAndHostInside(g: Gathering) {
    g.registered && g.participants != [] && !Spec.Lenient(g) ==>
      g.owner in g.participants && (g.host == 0 || g.host in g.participants)
  }

  /** Until somebody joins, nobody but the owner can be host. */
  predicate EmptyIsNew(g: Gathering) {
    g.registered && g.participants == [] && !Spec.Lenient(g) ==> g.host == FirstHost(g.kind, g.owner)
  }

  predicate GoodRow(g: Gathering) {
    WithinLimit(g) && OwnerAndHostInside(g) && EmptyIsNew(g) && g.owner != 0
  }

  ghost predicate Good(s: State) {
    WellFormed(s) && forall gid :: gid in s.gatherings ==> GoodRow(s.gatherings[gid])
  }

  lemma DepartureStaysInside(g: Gathering, p: Pid)
    requires OwnerAndHostInside(g) && g.registered && p in g.participants && g.owner != 0
    ensures EmptyIsNew(Spec.AfterDeparture(g, p)) && OwnerAndHostInside(Spec.AfterDeparture(g, p))
    ensures Spec.AfterDeparture(g, p).owner != 0
  {
    WithoutMembers(g.participants, p, g.owner);
    WithoutMembers(g.participants, p, g.host);
  }

  /**
   Exactly when a departure breaks this: PID 0 owns the gathering, and its host leaves it to others. The hand-over
   takes owner 0 for "none found" and keeps the departed host.
   */
  lemma DepartureBreaksIff(g: Gathering, p: Pid)
    requires g.registered && p in g.participants && OwnerAndHostInside(g) && EmptyIsNew(g)
    ensures OwnerAndHostInside(Spec.AfterDeparture(g, p)) && EmptyIsNew(Spec.AfterDeparture(g, p))
       <==> !(!Spec.Lenient(g) && g.owner == 0 && p == g.host && p != 0 && Without(g.participants, p) != [])
  {
    WithoutMembers(g.participants, p, g.owner);
    WithoutMembers(g.participants, p, g.host);
  }

  /** The smallest such gathering. */
  lemma OwnerZeroKeepsDepartedHost(g: Gathering)
    requires g.registered && g.owner == 0 && g.host == 5 && g.participants == [0, 5] && !Spec.Lenient(g)
    ensures OwnerAndHostInside(g) && !OwnerAndHostInside(Spec.AfterDeparture(g, 5))
  {
    assert Without([0, 5], 5) == [0] by {
      assert [0, 5][1..] == [5] && [5][1..] == [];
    }
  }

  lemma MoveKeepsRowGood(s: State, m: Move, gid: Gid)
    requires Good(s) && Enabled(s, m) && gid in Do(s, m).gatherings
    ensures GoodRow(Do(s, m).gatherings[gid])
  {
    if gid in s.gatherings && !Touches(s, m, gid) {
      UntouchedRows(s, m, gid);
    } else if m.Depart? {
      DepartureStaysInside(s.gatherings[gid], m.p);
    }
  }

  lemma MoveKeepsWellFormed(s: State, m: Move)
    requires WellFormed(s) && Enabled(s, m)
    ensures WellFormed(Do(s, m))
  {
    EntriesAreAppended(s, m);
    forall e | e in Do(s, m).tracking
      ensures e.gid in Do(s, m).gatherings
    {
      assert e in s.tracking || e in Entries(s, m);
    }
  }

  lemma MoveKeepsGood(s: State, m: Move)
    requires Good(s) && Enabled(s, m)
    ensures Good(Do(s, m))
  {
    MoveKeepsWellFormed(s, m);
    forall gid | gid in Do(s, m).gatherings
      ensures GoodRow(Do(s, m).gatherings[gid])
    {
      MoveKeepsRowGood(s, m, gid);
    }
  }

  lemma {:induction false} RunKeepsGood(s: State, ms: seq<Move>)
    requires Good(s) && CanRun(s, ms)
    ensures Good(Run(s, ms))
    decreases |ms|
  {
    if ms != [] {
      MoveKeepsGood(s, ms[0]);
      RunKeepsGood(Do(s, ms[0]), ms[1..]);
    }
  }
}
