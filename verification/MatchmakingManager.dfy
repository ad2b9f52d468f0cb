/**
 The server's side of matchmaking. The fields are the database tables; the methods are the routines and
 handlers that change them, each of which runs to its end under the manager's mutex.
 */
module MatchmakingManager {
  import opened ParticipantLists
  import opened Tables
  import Search = SearchCriteria
  import Spec = MatchmakingSpec

  class Manager {
    var gatherings: map<Gid, Gathering>
    var nextId: Gid
    var sessions: map<Gid, Session>
    var tracking: seq<Event>
    var counts: map<(Pid, Gid), nat>
    var communityLog: seq<CommunityEntry>

    ghost function Db(): State
      reads this
    {
      State(gatherings, nextId, sessions, tracking, counts, communityLog)
    }

    constructor ()
      ensures Db() == EMPTY
    {
      gatherings, nextId, sessions := map[], 1, map[];
      tracking, counts, communityLog := [], map[], [];
    }

    // ------------------------------------------------------------ database routines

    method FindGatheringByID(id: Gid) returns (r: Result<Gathering>)
      ensures r == if id in gatherings && gatherings[id].registered then Ok(gatherings[id]) else Err(SessionVoid)
    {
      if id !in gatherings || !gatherings[id].registered {
        return Err(SessionVoid);
      }
      return Ok(gatherings[id]);
    }

    method RemoveParticipantFromGathering(gid: Gid, p: Pid) returns (r: Result<seq<Pid>>)
      modifies this`gatherings
      ensures gid !in old(gatherings) ==> r == Err(SessionVoid) && gatherings == old(gatherings)
      ensures gid in old(gatherings) ==>
                var rest := Without(old(gatherings)[gid].participants, p);
                r == Ok(rest) && gatherings == old(gatherings)[gid := old(gatherings)[gid].(participants := rest)]
    {
      if gid !in gatherings {
        return Err(SessionVoid);
      }
      var newParticipants := Without(gatherings[gid].participants, p);
      gatherings := gatherings[gid := gatherings[gid].(participants := newParticipants)];
      return Ok(newParticipants);
    }

    method UnregisterGathering(source: Pid, gid: Gid) returns (r: Result<()>)
      modifies this`gatherings, this`tracking
      ensures gid !in old(gatherings) ==> r == Err(SessionVoid) && Db() == old(Db())
      ensures gid in old(gatherings) ==> r == Ok(()) && Db() == Spec.Unregistered(old(Db()), gid, source)
      ensures gid in old(gatherings) ==>
                gatherings == old(gatherings)[gid := old(gatherings)[gid].(registered := false)]
                && tracking == old(tracking) + [LogUnregister(source, gid)]
    {
      if gid !in gatherings {
        return Err(SessionVoid);
      }
      gatherings := gatherings[gid := gatherings[gid].(registered := false)];
      tracking := tracking + [LogUnregister(source, gid)];
      return Ok(());
    }

    /** Writes both columns; the log entries are the callers' business. */
    method WriteSessionHost(gid: Gid, owner: Pid, host: Pid) returns (r: Result<()>)
      modifies this`gatherings
      ensures gid !in old(gatherings) ==> r == Err(SessionVoid) && gatherings == old(gatherings)
      ensures gid in old(gatherings) ==>
                r == Ok(()) && gatherings == old(gatherings)[gid := old(gatherings)[gid].(owner := owner, host := host)]
    {
      if gid !in gatherings {
        return Err(SessionVoid);
      }
      gatherings := gatherings[gid := gatherings[gid].(owner := owner, host := host)];
      return Ok(());
    }

    /**
     Looks for a new owner among the remaining participants. 0 stands for "none found", and then the gathering
     is unregistered: this happens exactly when the first remaining participant is PID 0 or all are the owner.
     */
    method MigrateGatheringOwnership(source: Pid, gid: Gid, gathering: Gathering, participants: seq<Pid>)
      returns (r: Result<Pid>)
      requires gid in gatherings
      modifies this`gatherings, this`tracking
      ensures
        var others := Without(participants, gathering.owner);
        if others == [] || others[0] == 0 then
          r == Ok(0)
          && gatherings == old(gatherings)[gid := old(gatherings)[gid].(registered := false)]
          && tracking == old(tracking) + [LogUnregister(source, gid)]
        else
          r == Ok(others[0])
          && gatherings == old(gatherings)[gid := old(gatherings)[gid].(owner := others[0], host := gathering.host)]
          && tracking == old(tracking) + [LogChangeOwner(source, gid, gathering.owner, others[0])]
    {
      var uniqueParticipants := RemoveDuplicates(participants);
      var newOwner: Pid := 0;
      var i := 0;
      while i < |uniqueParticipants|
        invariant 0 <= i <= |uniqueParticipants| && newOwner == 0
        invariant forall j :: 0 <= j < i ==> uniqueParticipants[j] == gathering.owner
      {
        if uniqueParticipants[i] != gathering.owner {
          newOwner := uniqueParticipants[i];
          break;
        }
        i := i + 1;
      }
      FirstUniqueIsFirst(participants, gathering.owner, i);

      if newOwner == 0 {
        var _ := UnregisterGathering(source, gid);
        return Ok(0);
      }
      var _ := WriteSessionHost(gid, newOwner, gathering.host);
      tracking := tracking + [LogChangeOwner(source, gid, gathering.owner, newOwner)];
      return Ok(newOwner);
    }

    method EndGatheringParticipation(gid: Gid, p: Pid) returns (r: Result<()>)
      modifies this`gatherings, this`tracking
      ensures Outcome(Db(), r) == Spec.EndGatheringParticipation(old(Db()), gid, p)
    {
      var found := FindGatheringByID(gid);
      if found.Err? {
        return Err(found.error);
      }
      var gathering := found.value;
      if p !in gathering.participants {
        return Err(NotParticipated);
      }
      ghost var before, log := gatherings, tracking;
      var removed := RemoveParticipantFromGathering(gid, p);
      var newParticipants := removed.value;
      tracking := tracking + [LogLeave(p, gid, newParticipants)];

      if PersistentGathering in gathering.form.flags || PersistentGatheringAllowZeroUsers in gathering.form.flags {
        return Ok(());
      }
      if |newParticipants| == 0 {
        r := UnregisterGathering(p, gid);
      } else {
        r := HandOverAfterLeaving(gid, p, gathering, newParticipants);
      }
      assert gatherings == before[gid := Spec.AfterDeparture(gathering, p)];
      assert tracking == log + Spec.DepartureEntries(gathering, gid, p, Spec.Leave);
    }

    /** The rest of the routine, when somebody remains. */
    method HandOverAfterLeaving(gid: Gid, p: Pid, gathering: Gathering, newParticipants: seq<Pid>) returns (r: Result<()>)
      requires newParticipants == Without(gathering.participants, p) && newParticipants != [] && !Spec.Lenient(gathering)
      requires gid in gatherings && gatherings[gid] == gathering.(participants := newParticipants)
      modifies this`gatherings, this`tracking
      ensures r == Ok(())
      ensures gatherings == old(gatherings)[gid := Spec.AfterDeparture(gathering, p)]
      ensures tracking == old(tracking) + Spec.DepartureEntries(gathering, gid, p, Spec.Leave)[1..]
    {
      var ownerPID := gathering.owner;
      if p == gathering.owner {
        if DisconnectChangeOwner !in gathering.form.flags {
          r := UnregisterGathering(p, gid);
          return;
        }
        WithoutAbsent(newParticipants, p);
        var migrated := MigrateGatheringOwnership(p, gid, gathering, newParticipants);
        ownerPID := migrated.value;
      }
      if p == gathering.host && ownerPID != 0 {
        var _ := WriteSessionHost(gid, ownerPID, ownerPID);
        tracking := tracking + [LogChangeHost(p, gid, gathering.host, ownerPID)];
      }
      return Ok(());
    }

    /** The rows come in no particular order, and each is read as it was when the query started. */
    method DisconnectParticipant(p: Pid) returns (ghost order: seq<Gid>)
      modifies this
      ensures Spec.Enumerates(order, Spec.GatheringsOf(old(Db()), p))
      ensures Db() == Spec.DisconnectEach(old(Db()), p, order)
    {
      var snapshot := gatherings;
      var rows := set gid | gid in snapshot && snapshot[gid].registered && p in snapshot[gid].participants;
      ghost var all := rows;
      order := [];
      while rows != {}
        invariant rows <= all
        invariant Spec.Enumerates(order, all - rows)
        invariant forall gid :: gid in rows ==> gid in gatherings && gatherings[gid] == snapshot[gid]
        invariant Db() == Spec.DisconnectEach(old(Db()), p, order)
        decreases |rows|
      {
        var gid :| gid in rows;
        rows := rows - {gid};
        ghost var before := Db();
        DisconnectFromRow(gid, p, snapshot[gid]);
        DisconnectEachAppend(old(Db()), p, order, gid);
        order := order + [gid];
      }
    }

    /** One pass of the loop above; `gathering` is the row the query returned. */
    method DisconnectFromRow(gid: Gid, p: Pid, gathering: Gathering)
      requires gid in gatherings && gatherings[gid] == gathering
      modifies this`gatherings, this`tracking
      ensures Db() == Spec.DisconnectFrom(old(Db()), gid, p)
    {
      if PersistentGathering in gathering.form.flags
         || (gathering.kind == CommunityKind && PersistentGatheringLeaveParticipation !in gathering.form.flags) {
        return;
      }
      ghost var before, log := gatherings, tracking;
      var removed := RemoveParticipantFromGathering(gid, p);
      var participants := removed.value;
      tracking := tracking + [LogDisconnect(p, gid, participants)];

      if PersistentGathering in gathering.form.flags || PersistentGatheringAllowZeroUsers in gathering.form.flags {
        return;
      }
      if |participants| == 0 {
        var _ := UnregisterGathering(p, gid);
      } else {
        HandOverAfterDisconnect(gid, p, gathering, participants);
      }
      assert gatherings == before[gid := Spec.AfterDeparture(gathering, p)];
      assert tracking == log + Spec.DepartureEntries(gathering, gid, p, Spec.Disconnect);
    }

    /** The rest of the pass, when somebody remains. */
    method HandOverAfterDisconnect(gid: Gid, p: Pid, gathering: Gathering, participants: seq<Pid>)
      requires participants == Without(gathering.participants, p) && participants != [] && !Spec.Lenient(gathering)
      requires gid in gatherings && gatherings[gid] == gathering.(participants := participants)
      modifies this`gatherings, this`tracking
      ensures gatherings == old(gatherings)[gid := Spec.AfterDeparture(gathering, p)]
      ensures tracking == old(tracking) + Spec.DepartureEntries(gathering, gid, p, Spec.Disconnect)[1..]
    {
      var ownerPID := gathering.owner;
      if p == gathering.owner {
        if DisconnectChangeOwner !in gathering.form.flags {
          var _ := UnregisterGathering(p, gid);
          return;
        }
        WithoutAbsent(participants, p);
        var migrated := MigrateGatheringOwnership(p, gid, gathering, participants);
        ownerPID := migrated.value;
      }
      if p == gathering.host && ownerPID != 0 {
        var _ := WriteSessionHost(gid, ownerPID, ownerPID);
        tracking := tracking + [LogChangeHost(p, gid, gathering.host, ownerPID)];
      }
    }

    method RegisterGathering(owner: Pid, host: Pid, form: Form, kind: Kind) returns (r: Result<Gid>)
      modifies this`gatherings, this`nextId, this`tracking
      ensures Outcome(Db(), r) == Spec.RegisterGathering(old(Db()), owner, host, form, kind)
    {
      if form.minParticipants > INT32_MAX || form.maxParticipants > INT32_MAX {
        return Err(Unknown);
      }
      var gid := nextId;
      nextId := nextId + 1;
      gatherings := gatherings[gid := Spec.NewGathering(form, kind, owner, host)];
      tracking := tracking + [LogRegister(owner, gid)];
      return Ok(gid);
    }

    method JoinGathering(gid: Gid, p: Pid, vacant: UInt16) returns (r: Result<nat>)
      modifies this`gatherings, this`tracking
      ensures Outcome(Db(), r) == Spec.JoinGathering(old(Db()), gid, p, vacant)
    {
      var vacantParticipants := vacant;
      if vacantParticipants == 0 {
        vacantParticipants := 1;
      }
      if gid !in gatherings {
        return Err(SessionVoid);
      }
      var maxParticipants, participants := gatherings[gid].form.maxParticipants, gatherings[gid].participants;
      if maxParticipants != 0 {
        if (|participants| % UINT32_SIZE + vacantParticipants) % UINT32_SIZE > maxParticipants {
          return Err(SessionFull);
        }
      }
      if p in participants {
        return Err(AlreadyParticipated);
      }
      var newParticipants: seq<Pid> := [];
      for i := 0 to vacantParticipants
        invariant newParticipants == Copies(p, i)
      {
        newParticipants := newParticipants + [p];
      }
      var totalParticipants := newParticipants + participants;
      gatherings := gatherings[gid := gatherings[gid].(participants := totalParticipants)];
      tracking := tracking + [LogJoin(p, gid, newParticipants, totalParticipants)];
      return Ok(|totalParticipants| % UINT32_SIZE);
    }

    method JoinGatheringWithParticipants(gid: Gid, p: Pid, additional: seq<Pid>, imAlreadyJoined: bool)
      returns (r: Result<nat>)
      modifies this`gatherings, this`tracking
      ensures Outcome(Db(), r) == Spec.JoinGatheringWithParticipants(old(Db()), gid, p, additional, imAlreadyJoined)
    {
      if gid !in gatherings {
        return Err(SessionVoid);
      }
      var maxParticipants, oldParticipants := gatherings[gid].form.maxParticipants, gatherings[gid].participants;
      if (|oldParticipants| + 1 + |additional|) % UINT32_SIZE > maxParticipants {
        return Err(SessionFull);
      }
      var newParticipants: seq<Pid> := [];
      if imAlreadyJoined {
        if p !in oldParticipants {
          return Err(NotParticipated);
        }
      } else {
        if p in oldParticipants {
          return Err(AlreadyParticipated);
        }
        newParticipants := [p];
      }
      ghost var caller := newParticipants;
      for i := 0 to |additional|
        invariant newParticipants == caller + additional[..i]
      {
        assert additional[..i + 1] == additional[..i] + [additional[i]];
        newParticipants := newParticipants + [additional[i]];
      }
      assert additional[..|additional|] == additional;
      var participants := oldParticipants + newParticipants;
      gatherings := gatherings[gid := gatherings[gid].(participants := participants)];
      tracking := tracking + [LogJoin(p, gid, newParticipants, participants)];
      return Ok(|participants| % UINT32_SIZE);
    }

    method EndMatchmakeSessionsParticipation(p: Pid) returns (ghost order: seq<Gid>)
      modifies this
      ensures Spec.Enumerates(order, Spec.SessionRowsOf(old(Db()), p))
      ensures Db() == Spec.LeaveEach(old(Db()), p, order)
    {
      var rows := set gid | gid in gatherings && gatherings[gid].kind == SessionKind && p in gatherings[gid].participants;
      ghost var all := rows;
      order := [];
      while rows != {}
        invariant rows <= all
        invariant Spec.Enumerates(order, all - rows)
        invariant Db() == Spec.LeaveEach(old(Db()), p, order)
        decreases |rows|
      {
        var gid :| gid in rows;
        rows := rows - {gid};
        var _ := EndGatheringParticipation(gid, p);
        LeaveEachAppend(old(Db()), p, order, gid);
        order := order + [gid];
      }
    }

    /** The upsert, which returns the count it stored. */
    method UpdatePersistentGatheringParticipationCount(p: Pid, community: Gid) returns (count: nat)
      modifies this`counts
      ensures count == (if (p, community) in old(counts) then old(counts)[(p, community)] else 0) + 1
      ensures counts == old(counts)[(p, community) := count]
    {
      count := 1;
      if (p, community) in counts {
        count := counts[(p, community)] + 1;
      }
      counts := counts[(p, community) := count];
    }

    method JoinMatchmakeSession(gid: Gid, session: Session, p: Pid, vacant: UInt16) returns (r: Result<nat>)
      modifies this
      ensures Outcome(Db(), r) == Spec.JoinMatchmakeSession(old(Db()), gid, session, p, vacant)
    {
      r := JoinGathering(gid, p, vacant);
      if r.Ok? && session.systemType == Spec.SYSTEM_TYPE_PERSISTENT_GATHERING {
        var community := session.attribs[0];
        var count := UpdatePersistentGatheringParticipationCount(p, community);
        communityLog := communityLog + [CommunityEntry(p, community, gid, count)];
      }
    }

    method JoinMatchmakeSessionWithParticipants(
      gid: Gid, session: Session, p: Pid, additional: seq<Pid>, imAlreadyJoined: bool)
      returns (r: Result<nat>)
      modifies this
      ensures Outcome(Db(), r)
           == Spec.JoinMatchmakeSessionWithParticipants(old(Db()), gid, session, p, additional, imAlreadyJoined)
    {
      r := JoinGatheringWithParticipants(gid, p, additional, imAlreadyJoined);
      if r.Ok? && session.systemType == Spec.SYSTEM_TYPE_PERSISTENT_GATHERING {
        var community := session.attribs[0];
        var participantList := additional + [p];
        ghost var joined := Db();
        for i := 0 to |participantList|
          invariant Spec.CountedEach(joined, participantList, community, gid)
                 == Spec.CountedEach(Db(), participantList[i..], community, gid)
        {
          var count := UpdatePersistentGatheringParticipationCount(participantList[i], community);
          communityLog := communityLog + [CommunityEntry(participantList[i], community, gid, count)];
        }
      }
    }

    method CreateMatchmakeSession(p: Pid, f: SessionForm) returns (r: Result<Gid>)
      modifies this
      ensures Outcome(Db(), r) == Spec.CreateMatchmakeSession(old(Db()), p, f)
    {
      r := RegisterGathering(p, p, f.form, SessionKind);
      if r.Err? {
        return;
      }
      sessions := sessions[r.value := f.session.(systemPasswordEnabled := false)];
    }

    // ------------------------------------------------------------ handlers

    method OnCreateMatchmakeSession(p: Pid, offered: Option<SessionRequest>, message: string, count: UInt16)
      returns (r: Result<nat>, ghost order: seq<Gid>)
      modifies this
      ensures |message| <= Spec.MAX_MESSAGE ==> Spec.Enumerates(order, Spec.SessionRowsOf(old(Db()), p))
      ensures Outcome(Db(), r) == Spec.CreateSession(old(Db()), p, order, offered, message, count)
    {
      order := [];
      if |message| > Spec.MAX_MESSAGE {
        r := Err(InvalidArgument);
        return;
      }
      order := EndMatchmakeSessionsParticipation(p);
      if offered.None? || !Spec.CheckValidMatchmakeSession(offered.value) {
        r := Err(InvalidArgument);
        return;
      }
      var f := Spec.ToSessionForm(offered.value);
      var created := CreateMatchmakeSession(p, f);
      if created.Err? {
        r := Err(created.error);
        return;
      }
      r := JoinMatchmakeSession(created.value, f.session, p, count);
    }

    method OnCreateMatchmakeSessionWithParam(
      p: Pid, request: SessionRequest, message: string, checkGid: Gid, additional: seq<Pid>)
      returns (r: Result<nat>, ghost order: seq<Gid>)
      modifies this
      ensures Spec.CheckValidMatchmakeSession(request) && |message| <= Spec.MAX_MESSAGE
              && (checkGid != 0 ==> Spec.CheckGatheringForParticipation(old(Db()), checkGid, additional + [p]).None?) ==>
                Spec.Enumerates(order, Spec.SessionRowsOf(old(Db()), p))
      ensures Outcome(Db(), r)
           == Spec.CreateSessionWithParam(old(Db()), p, order, request, message, checkGid, additional)
    {
      order := [];
      if !Spec.CheckValidMatchmakeSession(request) || |message| > Spec.MAX_MESSAGE {
        r := Err(InvalidArgument);
        return;
      }
      if checkGid != 0 {
        var refused := CheckGatheringForParticipation(checkGid, additional + [p]);
        if refused.Some? {
          r := Err(refused.value);
          return;
        }
      }
      order := EndMatchmakeSessionsParticipation(p);
      var f := Spec.ToSessionForm(request);
      var created := CreateMatchmakeSession(p, f);
      if created.Err? {
        r := Err(created.error);
        return;
      }
      r := JoinMatchmakeSessionWithParticipants(created.value, f.session, p, additional, false);
    }

    method CheckGatheringForParticipation(gid: Gid, ps: seq<Pid>) returns (refused: Option<Error>)
      ensures refused == Spec.CheckGatheringForParticipation(Db(), gid, ps)
    {
      var found := FindGatheringByID(gid);
      if found.Err? {
        return Some(found.error);
      }
      for i := 0 to |ps|
        invariant forall p :: p in ps[..i] ==> p in found.value.participants
      {
        if ps[i] !in found.value.participants {
          return Some(NotParticipated);
        }
      }
      return None;
    }

    method GetMatchmakeSessionByID(gid: Gid) returns (r: Result<Session>)
      ensures r == Spec.GetMatchmakeSessionByID(Db(), gid)
    {
      if gid !in gatherings || gid !in sessions {
        return Err(SessionVoid);
      }
      if !gatherings[gid].registered || gatherings[gid].kind != SessionKind {
        return Err(SessionVoid);
      }
      if |gatherings[gid].participants| == 0 {
        return Err(Unknown);
      }
      return Ok(sessions[gid]);
    }

    /** JoinMatchmakeSession is the case `count == 1` of JoinMatchmakeSessionEx. */
    method OnJoinMatchmakeSessionEx(p: Pid, gid: Gid, message: string, count: UInt16) returns (r: Result<nat>)
      modifies this
      ensures Outcome(Db(), r) == Spec.JoinSession(old(Db()), p, gid, message, count)
    {
      if |message| > Spec.MAX_MESSAGE {
        return Err(InvalidArgument);
      }
      var joined := GetMatchmakeSessionByID(gid);
      if joined.Err? {
        return Err(joined.error);
      }
      if joined.value.userPasswordEnabled || joined.value.systemPasswordEnabled {
        return Err(PermissionDenied);
      }
      if !joined.value.openParticipation {
        return Err(PermissionDenied);
      }
      r := JoinMatchmakeSession(gid, joined.value, p, count);
    }

    method OnJoinMatchmakeSessionWithParam(p: Pid, param: Spec.JoinParam) returns (r: Result<nat>)
      modifies this
      ensures Outcome(Db(), r) == Spec.JoinSessionWithParam(old(Db()), p, param)
    {
      if |param.message| > Spec.MAX_MESSAGE {
        return Err(InvalidArgument);
      }
      if param.checkGid != 0 {
        var refused := CheckGatheringForParticipation(param.checkGid, param.additional + [p]);
        if refused.Some? {
          return Err(refused.value);
        }
      }
      var joined := GetMatchmakeSessionByID(param.gid);
      if joined.Err? {
        return Err(joined.error);
      }
      if joined.value.userPasswordEnabled && param.userPassword != joined.value.userPassword {
        return Err(InvalidPassword);
      }
      if joined.value.systemPasswordEnabled && param.systemPassword != joined.value.systemPassword {
        return Err(InvalidPassword);
      }
      if !joined.value.openParticipation {
        return Err(PermissionDenied);
      }
      r := JoinMatchmakeSessionWithParticipants(param.gid, joined.value, p, param.additional, param.imAlreadyJoined);
    }

    /** A search by example. The rows are gone through in no particular order. */
    method FindMatchmakeSession(search: SessionForm, friends: seq<Pid>) returns (found: Option<Gid>)
      ensures Spec.IsClosestMatch(Db(), search, friends, found)
    {
      found := None;
      var rows := gatherings.Keys * sessions.Keys;
      while rows != {}
        invariant rows <= gatherings.Keys * sessions.Keys
        invariant found.Some? ==> Spec.FindMatches(Db(), found.value, search, friends)
        invariant forall gid :: gid !in rows && Spec.FindMatches(Db(), gid, search, friends) ==>
                    found.Some?
                    && Spec.AttributeDistance(Db(), found.value, search) <= Spec.AttributeDistance(Db(), gid, search)
        decreases |rows|
      {
        var gid :| gid in rows;
        rows := rows - {gid};
        var db := State(gatherings, nextId, sessions, tracking, counts, communityLog);
        if Spec.FindMatches(db, gid, search, friends)
           && (found.None? || Spec.AttributeDistance(db, gid, search) < Spec.AttributeDistance(db, found.value, search)) {
          found := Some(gid);
        }
      }
    }

    method OnAutoMatchmakePostpone(p: Pid, offered: Option<SessionRequest>, cleanup: SessionForm -> SessionForm,
                                   friends: seq<Pid>, message: string)
      returns (r: Result<nat>, ghost order: seq<Gid>, ghost found: Option<Gid>)
      modifies this
      ensures |message| <= Spec.MAX_MESSAGE ==> Spec.Enumerates(order, Spec.SessionRowsOf(old(Db()), p))
      ensures |message| <= Spec.MAX_MESSAGE && offered.Some? && Spec.CheckValidMatchmakeSession(offered.value) ==>
                Spec.IsClosestMatch(Spec.LeaveEach(old(Db()), p, order), cleanup(Spec.ToSessionForm(offered.value)),
                                    friends, found)
      ensures found.Some? ==> found.value in old(sessions)
      ensures Outcome(Db(), r) == Spec.AutoMatchmake(old(Db()), p, order, offered, cleanup, message, found)
    {
      order, found := [], None;
      if |message| > Spec.MAX_MESSAGE {
        r := Err(InvalidArgument);
        return;
      }
      order := EndMatchmakeSessionsParticipation(p);
      Spec.LeaveEachKeepsSessions(old(Db()), p, order);
      if offered.None? || !Spec.CheckValidMatchmakeSession(offered.value) {
        r := Err(InvalidArgument);
        return;
      }
      var search := cleanup(Spec.ToSessionForm(offered.value));
      var result := FindMatchmakeSession(search, friends);
      found := result;
      if result.Some? {
        r := JoinMatchmakeSession(result.value, sessions[result.value], p, 1);
      } else {
        var created := CreateMatchmakeSession(p, search);
        if created.Err? {
          r := Err(created.error);
          return;
        }
        r := JoinMatchmakeSession(created.value, search.session, p, 1);
      }
    }

    /** `criteria` are as the game server's clean-up hook leaves them. */
    method OnAutoMatchmakeWithSearchCriteriaPostpone(
      p: Pid, criteria: seq<Search.Criterion>, offered: Option<SessionRequest>, message: string)
      returns (r: Result<nat>, ghost order: seq<Gid>, ghost answer: Option<seq<Gid>>, ghost parts: seq<seq<Gid>>)
      modifies this
      ensures Spec.KnownAnswer(old(Db()), answer)
      ensures |message| <= Spec.MAX_MESSAGE && |criteria| <= 2 ==>
                Spec.Enumerates(order, Spec.SessionRowsOf(old(Db()), p))
      ensures |message| <= Spec.MAX_MESSAGE && |criteria| <= 2
              && offered.Some? && Spec.CheckValidMatchmakeSession(offered.value) ==>
                SearchedFor(Spec.LeaveEach(old(Db()), p, order), criteria, offered.value.progressScore, answer, parts)
      ensures Outcome(Db(), r)
           == Spec.AutoMatchmakeWithSearchCriteria(old(Db()), p, order, Vacants(criteria), offered, message, answer)
    {
      order, answer, parts := [], None, [];
      if |message| > Spec.MAX_MESSAGE || |criteria| > 2 {
        r := Err(InvalidArgument);
        return;
      }
      order := EndMatchmakeSessionsParticipation(p);
      Spec.LeaveEachKeepsSessions(old(Db()), p, order);
      if offered.None? || !Spec.CheckValidMatchmakeSession(offered.value) {
        r := Err(InvalidArgument);
        return;
      }
      var f := Spec.CanonicalForm(offered.value);
      var results;
      results, parts := Search.FindMatchmakeSessionBySearchCriteria(
        Search.Database(gatherings, sessions), criteria, Search.Range(0, 1), Some(f.session.progressScore));
      answer := results;
      if results.None? {
        r := Err(IndexOutOfRange);
        return;
      }
      if |results.value| > 0 {
        Search.ResultsAreAccepted(Search.Database(gatherings, sessions), criteria, Search.Range(0, 1),
                                  Some(f.session.progressScore), parts, results.value[0]);
      }
      var vacantParticipants: UInt16 := 1;
      if |criteria| > 0 {
        vacantParticipants := criteria[0].vacantParticipants;
      }
      if |results.value| > 0 {
        var found := results.value[0];
        if sessions[found].userPasswordEnabled || sessions[found].systemPasswordEnabled {
          r := Err(PermissionDenied);
          return;
        }
        r := JoinMatchmakeSession(found, sessions[found], p, vacantParticipants);
      } else {
        var created := CreateMatchmakeSession(p, f);
        if created.Err? {
          r := Err(created.error);
          return;
        }
        r := JoinMatchmakeSession(created.value, f.session, p, vacantParticipants);
      }
    }

    method OnAutoMatchmakeWithParamPostpone(
      p: Pid, criteria: seq<Search.Criterion>, request: SessionRequest, message: string, checkGid: Gid,
      additional: seq<Pid>)
      returns (r: Result<nat>, ghost order: seq<Gid>, ghost answer: Option<seq<Gid>>, ghost parts: seq<seq<Gid>>)
      modifies this
      ensures Spec.KnownAnswer(old(Db()), answer)
      ensures Spec.CheckValidMatchmakeSession(request) && |message| <= Spec.MAX_MESSAGE
              && (checkGid != 0 ==> Spec.CheckGatheringForParticipation(old(Db()), checkGid, additional + [p]).None?) ==>
                Spec.Enumerates(order, Spec.SessionRowsOf(old(Db()), p))
                && SearchedFor(Spec.LeaveEach(old(Db()), p, order), criteria, request.progressScore, answer, parts)
      ensures Outcome(Db(), r)
           == Spec.AutoMatchmakeWithParam(old(Db()), p, order, request, message, checkGid, additional, answer)
    {
      order, answer, parts := [], None, [];
      if !Spec.CheckValidMatchmakeSession(request) || |message| > Spec.MAX_MESSAGE {
        r := Err(InvalidArgument);
        return;
      }
      if checkGid != 0 {
        var refused := CheckGatheringForParticipation(checkGid, additional + [p]);
        if refused.Some? {
          r := Err(refused.value);
          return;
        }
      }
      order := EndMatchmakeSessionsParticipation(p);
      Spec.LeaveEachKeepsSessions(old(Db()), p, order);
      var results;
      results, parts := Search.FindMatchmakeSessionBySearchCriteria(
        Search.Database(gatherings, sessions), criteria, Search.Range(0, 1), Some(request.progressScore));
      answer := results;
      if results.None? {
        r := Err(IndexOutOfRange);
        return;
      }
      if |results.value| > 0 {
        var found := results.value[0];
        Search.ResultsAreAccepted(Search.Database(gatherings, sessions), criteria, Search.Range(0, 1),
                                  Some(request.progressScore), parts, found);
        if sessions[found].userPasswordEnabled || sessions[found].systemPasswordEnabled {
          r := Err(PermissionDenied);
          return;
        }
        r := JoinMatchmakeSessionWithParticipants(found, sessions[found], p, additional, false);
      } else {
        var f := Spec.ToSessionForm(request);
        var created := CreateMatchmakeSession(p, f);
        if created.Err? {
          r := Err(created.error);
          return;
        }
        r := JoinMatchmakeSessionWithParticipants(created.value, f.session, p, additional, false);
      }
    }

    method OnCreateCommunity(p: Pid, form: Form, valid: bool, creationMax: int) returns (r: Result<nat>)
      modifies this
      ensures Outcome(Db(), r) == Spec.CreateCommunity(old(Db()), p, form, valid, creationMax)
    {
      if !valid {
        return Err(InvalidArgument);
      }
      var created := set gid | gid in gatherings && gatherings[gid].registered
                               && gatherings[gid].kind == CommunityKind && gatherings[gid].owner == p;
      assert created == Spec.CommunitiesOwned(Db(), p);
      if |created| >= creationMax {
        return Err(CreationMax);
      }
      var registered := RegisterGathering(p, 0, form, CommunityKind);
      if registered.Err? {
        return Err(registered.error);
      }
      r := JoinGathering(registered.value, p, 1);
    }

    method OnEndParticipation(p: Pid, gid: Gid, message: string) returns (r: Result<()>)
      modifies this
      ensures Outcome(Db(), r) == Spec.EndParticipation(old(Db()), p, gid, message)
    {
      if |message| > Spec.MAX_MESSAGE {
        return Err(InvalidArgument);
      }
      r := EndGatheringParticipation(gid, p);
    }

    method OnUpdateSessionHost(p: Pid, gid: Gid, isMigrateOwner: bool) returns (r: Result<()>)
      modifies this
      ensures Outcome(Db(), r) == Spec.UpdateSessionHost(old(Db()), p, gid, isMigrateOwner)
    {
      var found := FindGatheringByID(gid);
      if found.Err? {
        return Err(found.error);
      }
      var gathering := found.value;
      if p !in gathering.participants {
        return Err(PermissionDenied);
      }
      if !isMigrateOwner {
        var _ := WriteSessionHost(gid, gathering.owner, p);
        tracking := tracking + [LogChangeHost(p, gid, gathering.host, p)];
      } else {
        if ParticipantsChangeOwner !in gathering.form.flags {
          return Err(InvalidOperation);
        }
        var _ := WriteSessionHost(gid, p, p);
        tracking := tracking + [LogChangeHost(p, gid, gathering.host, p)];
        tracking := tracking + [LogChangeOwner(p, gid, gathering.owner, p)];
      }
      return Ok(());
    }

    method OnUpdateSessionHostV1(p: Pid, gid: Gid) returns (r: Result<()>)
      modifies this
      ensures Outcome(Db(), r) == Spec.UpdateSessionHostV1(old(Db()), p, gid)
    {
      var found := FindGatheringByID(gid);
      if found.Err? {
        return Err(found.error);
      }
      var gathering := found.value;
      if p !in gathering.participants {
        return Err(PermissionDenied);
      }
      if ParticipantsChangeOwner !in gathering.form.flags {
        var _ := WriteSessionHost(gid, gathering.owner, p);
        tracking := tracking + [LogChangeHost(p, gid, gathering.host, p)];
      } else {
        var _ := WriteSessionHost(gid, p, p);
        tracking := tracking + [LogChangeHost(p, gid, gathering.host, p)];
        tracking := tracking + [LogChangeOwner(p, gid, gathering.owner, p)];
      }
      return Ok(());
    }

    method OnUpdateSessionURL(p: Pid, gid: Gid) returns (r: Result<()>)
      modifies this
      ensures Outcome(Db(), r) == Spec.UpdateSessionURL(old(Db()), p, gid)
    {
      var found := FindGatheringByID(gid);
      if found.Err? {
        return Err(found.error);
      }
      var gathering := found.value;
      if p !in gathering.participants {
        return Err(PermissionDenied);
      }
      var _ := WriteSessionHost(gid, gathering.owner, p);
      tracking := tracking + [LogChangeHost(p, gid, gathering.host, p)];
      return Ok(());
    }

    method OnUnregisterGathering(p: Pid, gid: Gid) returns (r: Result<()>)
      modifies this
      ensures Outcome(Db(), r) == Spec.Unregister(old(Db()), p, gid)
    {
      var found := FindGatheringByID(gid);
      if found.Err? {
        return Err(found.error);
      }
      if found.value.owner != p {
        return Err(PermissionDenied);
      }
      r := UnregisterGathering(p, gid);
    }

    method OnSetParticipation(p: Pid, gid: Gid, open: bool) returns (r: Result<()>)
      modifies this
      ensures Outcome(Db(), r) == Spec.SetOpenParticipation(old(Db()), p, gid, open)
    {
      var session := GetMatchmakeSessionByID(gid);
      if session.Err? {
        return Err(session.error);
      }
      if gatherings[gid].owner != p {
        return Err(PermissionDenied);
      }
      sessions := sessions[gid := session.value.(openParticipation := open)];
      return Ok(());
    }

    method OnModifyCurrentGameAttribute(p: Pid, gid: Gid, attribIndex: nat, newValue: nat) returns (r: Result<()>)
      modifies this
      ensures Outcome(Db(), r) == Spec.ModifyGameAttribute(old(Db()), p, gid, attribIndex, newValue)
    {
      var session := GetMatchmakeSessionByID(gid);
      if session.Err? {
        return Err(session.error);
      }
      if gatherings[gid].owner != p {
        return Err(PermissionDenied);
      }
      if attribIndex >= |session.value.attribs| {
        return Err(InvalidIndex);
      }
      sessions := sessions[gid := session.value.(attribs := session.value.attribs[attribIndex := newValue])];
      return Ok(());
    }

    method OnUpdateProgressScore(p: Pid, gid: Gid, progressScore: nat) returns (r: Result<()>)
      modifies this
      ensures Outcome(Db(), r) == Spec.UpdateProgressScore(old(Db()), p, gid, progressScore)
    {
      if progressScore > 100 {
        return Err(InvalidArgument);
      }
      var session := GetMatchmakeSessionByID(gid);
      if session.Err? {
        return Err(session.error);
      }
      if gatherings[gid].owner != p {
        return Err(PermissionDenied);
      }
      sessions := sessions[gid := session.value.(progressScore := progressScore)];
      return Ok(());
    }

    method OnServerStart()
      modifies this
      ensures Db() == Spec.Restarted(old(Db()))
    {
      gatherings := map gid | gid in gatherings ::
        if gatherings[gid].kind == SessionKind then gatherings[gid].(registered := false) else gatherings[gid];
    }
  }

  function Vacants(criteria: seq<Search.Criterion>): seq<UInt16> {
    seq(|criteria|, i requires 0 <= i < |criteria| => criteria[i].vacantParticipants)
  }

  /** `answer` is what a search of `s` by `criteria` for one session gives. */
  ghost predicate SearchedFor(s: State, criteria: seq<Search.Criterion>, score: nat,
                              answer: Option<seq<Gid>>, parts: seq<seq<Gid>>)
  {
    && (answer.None? <==> Search.AnyIndexFails(criteria, Some(score)))
    && (answer.Some? ==>
          Search.Collects(Search.Database(s.gatherings, s.sessions), criteria, Search.Range(0, 1), Some(score), parts)
          && answer.value == Search.Flatten(parts))
  }

  /** Skipping the owner among the unique values or among all of them leads to the same first value. */
  lemma {:induction false} FirstOtherOfUnique(ps: seq<Pid>, owner: Pid)
    ensures
      var unique, others := Without(FirstOccurrences(ps), owner), Without(ps, owner);
      (unique == [] <==> others == []) && (others != [] ==> unique[0] == others[0])
  {
    if ps != [] {
      var init, last := ps[..|ps| - 1], ps[|ps| - 1];
      assert ps == init + [last];
      FirstOtherOfUnique(init, owner);
      assert Without([last], owner) == if last == owner then [] else [last];
      WithoutConcat(init, [last], owner);
      if last in init {
        assert FirstOccurrences(ps) == FirstOccurrences(init);
        WithoutMembers(init, owner, last);
      } else {
        WithoutConcat(FirstOccurrences(init), [last], owner);
      }
    }
  }

  lemma FirstUniqueIsFirst(ps: seq<Pid>, owner: Pid, i: nat)
    requires
      var unique := FirstOccurrences(ps);
      i <= |unique| && (forall j :: 0 <= j < i ==> unique[j] == owner) && (i < |unique| ==> unique[i] != owner)
    ensures
      var unique, others := FirstOccurrences(ps), Without(ps, owner);
      if i < |unique| then others != [] && others[0] == unique[i] else others == []
  {
    var unique := FirstOccurrences(ps);
    FirstOtherOfUnique(ps, owner);
    assert unique == unique[..i] + unique[i..];
    WithoutConcat(unique[..i], unique[i..], owner);
    assert unique[..i] == Copies(owner, i);
    WithoutCopies(owner, i);
  }

  lemma {:induction false} DisconnectEachAppend(s: State, p: Pid, order: seq<Gid>, gid: Gid)
    ensures Spec.DisconnectEach(s, p, order + [gid]) == Spec.DisconnectFrom(Spec.DisconnectEach(s, p, order), gid, p)
    decreases |order|
  {
    if order == [] {
      assert [gid][1..] == [];
    } else {
      assert (order + [gid])[1..] == order[1..] + [gid];
      DisconnectEachAppend(Spec.DisconnectFrom(s, order[0], p), p, order[1..], gid);
    }
  }

  lemma {:induction false} LeaveEachAppend(s: State, p: Pid, order: seq<Gid>, gid: Gid)
    ensures Spec.LeaveEach(s, p, order + [gid])
         == Spec.EndGatheringParticipation(Spec.LeaveEach(s, p, order), gid, p).state
    decreases |order|
  {
    if order == [] {
      assert [gid][1..] == [];
    } else {
      assert (order + [gid])[1..] == order[1..] + [gid];
      LeaveEachAppend(Spec.EndGatheringParticipation(s, order[0], p).state, p, order[1..], gid);
    }
  }
}
