/**
 What the routines and handlers accept, how they refuse, and what they leave in the tables, said with columns, callers
 and lists alone. The rules bind the functions of `MatchmakingSpec` from outside.
 */
module HandlerRules {
  import opened ParticipantLists
  import opened Tables
  import Spec = MatchmakingSpec

  // ---------------------------------------------------------------- joining

  /** `t` is `s` after these players have been put into one list and logged. */
  predicate ListIs(s: State, t: State, gid: Gid, source: Pid, newcomers: seq<Pid>, total: seq<Pid>)
    requires gid in s.gatherings
  {
    t == s.(gatherings := s.gatherings[gid := s.gatherings[gid].(participants := total)],
            tracking := s.tracking + [LogJoin(source, gid, newcomers, total)])
  }

  /** The caller comes with guests, who are copies of its own PID in front of the list. */
  lemma JoinRule(s: State, gid: Gid, p: Pid, vacant: UInt16)
    requires gid in s.gatherings ==> |s.gatherings[gid].participants| + 0x1_0000 < 0x1_0000_0000
    ensures
      var r, k := Spec.JoinGathering(s, gid, p, vacant), if vacant == 0 then 1 else vacant;
      if gid !in s.gatherings then r == Outcome(s, Err(SessionVoid))
      else
        var present, limit := s.gatherings[gid].participants, s.gatherings[gid].form.maxParticipants;
        && (r.result.Ok? <==> (limit == 0 || |present| + k <= limit) && p !in present)
        && (r.result == Err(SessionFull) <==> limit != 0 && |present| + k > limit)
        && (r.result == Err(AlreadyParticipated) <==> (limit == 0 || |present| + k <= limit) && p in present)
        && (r.result.Err? ==> r.state == s)
        && (r.result.Ok? ==>
              var guests := seq(k, _ => p);
              r.result == Ok(|present| + k) && ListIs(s, r.state, gid, p, guests, guests + present))
  {
  }

  /** The extra participants come last, in the order given, behind the caller if it is not in already. */
  lemma JoinWithRule(s: State, gid: Gid, p: Pid, additional: seq<Pid>, imAlreadyJoined: bool)
    requires gid in s.gatherings ==> |s.gatherings[gid].participants| + 1 + |additional| < 0x1_0000_0000
    ensures
      var r := Spec.JoinGatheringWithParticipants(s, gid, p, additional, imAlreadyJoined);
      if gid !in s.gatherings then r == Outcome(s, Err(SessionVoid))
      else
        var present, limit := s.gatherings[gid].participants, s.gatherings[gid].form.maxParticipants;
        var fits := |present| + 1 + |additional| <= limit;
        && (r.result.Ok? <==> fits && (imAlreadyJoined <==> p in present))
        && (r.result == Err(SessionFull) <==> !fits)
        && (r.result == Err(NotParticipated) <==> fits && imAlreadyJoined && p !in present)
        && (r.result == Err(AlreadyParticipated) <==> fits && !imAlreadyJoined && p in present)
        && (r.result.Err? ==> r.state == s)
        && (r.result.Ok? ==>
              var newcomers := if imAlreadyJoined then additional else [p] + additional;
              r.result == Ok(|present + newcomers|) && ListIs(s, r.state, gid, p, newcomers, present + newcomers))
  {
    assert [] + additional == additional;
  }

  // ---------------------------------------------------------------- community counting

  function CountOf(s: State, q: Pid, community: Gid): nat {
    if (q, community) in s.counts then s.counts[(q, community)] else 0
  }

  /** The entries name these players in this order. */
  predicate NamesInOrder(entries: seq<CommunityEntry>, ps: seq<Pid>, community: Gid, gid: Gid) {
    |entries| == |ps| && forall i :: 0 <= i < |ps| ==>
      entries[i].pid == ps[i] && entries[i].community == community && entries[i].gid == gid
  }

  /** Everybody named is counted, as often as named, in this community and no other. */
  lemma {:induction false} CountedEachRule(s: State, ps: seq<Pid>, community: Gid, gid: Gid)
    ensures
      var t := Spec.CountedEach(s, ps, community, gid);
      && t == s.(counts := t.counts, communityLog := t.communityLog)
      && (forall q :: CountOf(t, q, community) == CountOf(s, q, community) + multiset(ps)[q])
      && (forall q, other :: other != community ==> CountOf(t, q, other) == CountOf(s, q, other))
      && |t.communityLog| >= |s.communityLog| && t.communityLog[..|s.communityLog|] == s.communityLog
      && NamesInOrder(t.communityLog[|s.communityLog|..], ps, community, gid)
    decreases |ps|
  {
    if ps != [] {
      var u := Spec.Counted(s, ps[0], community, gid);
      CountedEachRule(u, ps[1..], community, gid);
      assert ps == [ps[0]] + ps[1..];
      NamesOneMore(s.communityLog, Spec.CountedEach(u, ps[1..], community, gid).communityLog, ps, community, gid,
                   u.communityLog[|s.communityLog|]);
    }
  }

  lemma NamesOneMore(before: seq<CommunityEntry>, after: seq<CommunityEntry>, ps: seq<Pid>, community: Gid, gid: Gid,
                     entry: CommunityEntry)
    requires ps != [] && entry.pid == ps[0] && entry.community == community && entry.gid == gid
    requires |after| > |before| && after[..|before| + 1] == before + [entry]
    requires NamesInOrder(after[|before| + 1..], ps[1..], community, gid)
    ensures after[..|before|] == before && NamesInOrder(after[|before|..], ps, community, gid)
  {
    assert after[..|before|] == after[..|before| + 1][..|before|];
    assert after[|before|] == after[..|before| + 1][|before|];
    forall i | 0 <= i < |ps|
      ensures after[|before|..][i].pid == ps[i] && after[|before|..][i].community == community
              && after[|before|..][i].gid == gid
    {
      if i > 0 {
        assert after[|before|..][i] == after[|before| + 1..][i - 1] && ps[1..][i - 1] == ps[i];
      }
    }
  }

  /** A join into a session of system type 5 counts its player in the community that attribute 0 names; others do not. */
  lemma CountRule(s: State, gid: Gid, session: Session, p: Pid, vacant: UInt16)
    ensures
      var j, r := Spec.JoinGathering(s, gid, p, vacant), Spec.JoinMatchmakeSession(s, gid, session, p, vacant);
      && r.result == j.result
      && r.state == j.state.(counts := r.state.counts, communityLog := r.state.communityLog)
      && (if r.result.Ok? && session.systemType == 5 then
            var n := CountOf(s, p, session.attribs[0]) + 1;
            && r.state.counts == s.counts[(p, session.attribs[0]) := n]
            && r.state.communityLog == s.communityLog + [CommunityEntry(p, session.attribs[0], gid, n)]
          else r.state.counts == s.counts && r.state.communityLog == s.communityLog)
  {
  }

  lemma CountWithRule(s: State, gid: Gid, session: Session, p: Pid, additional: seq<Pid>, imAlreadyJoined: bool)
    ensures
      var j := Spec.JoinGatheringWithParticipants(s, gid, p, additional, imAlreadyJoined);
      var r := Spec.JoinMatchmakeSessionWithParticipants(s, gid, session, p, additional, imAlreadyJoined);
      && r.result == j.result
      && r.state == j.state.(counts := r.state.counts, communityLog := r.state.communityLog)
      && (if r.result.Ok? && session.systemType == 5 then
            && (forall q :: CountOf(r.state, q, session.attribs[0])
                            == CountOf(s, q, session.attribs[0]) + multiset(additional + [p])[q])
            && |r.state.communityLog| >= |s.communityLog|
            && NamesInOrder(r.state.communityLog[|s.communityLog|..], additional + [p], session.attribs[0], gid)
          else r.state.counts == s.counts && r.state.communityLog == s.communityLog)
  {
    var j := Spec.JoinGatheringWithParticipants(s, gid, p, additional, imAlreadyJoined);
    CountedEachRule(j.state, additional + [p], session.attribs[0], gid);
  }

  // ---------------------------------------------------------------- creating

  /** A request that passes the checks, with their constants. */
  predicate Acceptable(r: SessionRequest) {
    && |r.form.description| <= 256 && |r.attribs| == 6 && r.progressScore <= 100 && |r.userPassword| <= 32
    && |r.codeword| <= 256 && |r.applicationBuffer| <= 512 && |r.sessionKey| <= 512
  }

  /** The session row carries the columns of the request. */
  lemma RequestRule(request: SessionRequest)
    ensures Spec.CheckValidMatchmakeSession(request) <==> Acceptable(request)
    ensures Acceptable(request) ==>
              var f, c := Spec.ToSessionForm(request), Spec.CanonicalForm(request);
              && f.form == request.form && f.session.gameMode == request.gameMode && f.session.attribs == request.attribs
              && f.session.openParticipation == request.openParticipation && f.session.systemType == request.systemType
              && f.session.progressScore == request.progressScore && f.session.referGid == request.referGid
              && f.session.codeword == request.codeword
              && f.session.userPasswordEnabled == request.userPasswordEnabled
              && f.session.userPassword == request.userPassword
              && c.form == f.form && c.session == f.session.(gameMode := c.session.gameMode)
              && c.session.gameMode == request.gameMode / 0x1000 * 0x1000 + request.gameMode % 0x400
  {
  }

  /** Both limits fit a signed 32-bit column. */
  predicate FitsColumns(form: Form) {
    form.minParticipants < 0x8000_0000 && form.maxParticipants < 0x8000_0000
  }

  /** `t` is `s` after a session of this form has been registered and this list has joined it. */
  predicate HasCreated(s: State, t: State, p: Pid, f: SessionForm, list: seq<Pid>) {
    && t.gatherings == s.gatherings[s.nextId := Gathering(f.form, SessionKind, p, p, true, list)]
    && t.sessions == s.sessions[s.nextId := f.session.(systemPasswordEnabled := false)]
    && t.nextId == s.nextId + 1
    && t.tracking == s.tracking + [LogRegister(p, s.nextId)] + if list == [] then [] else [LogJoin(p, s.nextId, list, list)]
  }

  lemma CreationRule(s: State, p: Pid, f: SessionForm)
    ensures
      var r := Spec.CreateMatchmakeSession(s, p, f);
      if FitsColumns(f.form) then
        r.result == Ok(s.nextId) && HasCreated(s, r.state, p, f, [])
        && r.state.counts == s.counts && r.state.communityLog == s.communityLog
      else r == Outcome(s, Err(Unknown))
  {
  }

  /** Creating and joining with guests, from where the creator has left its sessions. */
  lemma CreateAndJoinRule(t: State, p: Pid, f: SessionForm, count: UInt16)
    ensures
      var r, k := Spec.JoinFoundOrCreated(t, p, None, f, count), if count == 0 then 1 else count;
      if !FitsColumns(f.form) then r == Outcome(t, Err(Unknown))
      else if f.form.maxParticipants == 0 || k <= f.form.maxParticipants then
        r.result == Ok(k) && HasCreated(t, r.state, p, f, seq(k, _ => p))
      else r.result == Err(SessionFull) && HasCreated(t, r.state, p, f, [])
  {
    if FitsColumns(f.form) {
      var u := Spec.CreateMatchmakeSession(t, p, f).state;
      JoinRule(u, t.nextId, p, count);
      CountRule(u, t.nextId, f.session, p, count);
      var k := if count == 0 then 1 else count;
      assert seq(k, _ => p) + u.gatherings[t.nextId].participants == seq(k, _ => p);
    }
  }

  lemma CreateAndJoinWithRule(t: State, p: Pid, f: SessionForm, additional: seq<Pid>)
    requires 1 + |additional| < 0x1_0000_0000
    ensures
      var c := Spec.CreateMatchmakeSession(t, p, f);
      var r := Spec.JoinMatchmakeSessionWithParticipants(c.state, t.nextId, f.session, p, additional, false);
      FitsColumns(f.form) ==>
        if 1 + |additional| <= f.form.maxParticipants then
          r.result == Ok(1 + |additional|) && HasCreated(t, r.state, p, f, [p] + additional)
        else r.result == Err(SessionFull) && HasCreated(t, r.state, p, f, [])
  {
    if FitsColumns(f.form) {
      var u := Spec.CreateMatchmakeSession(t, p, f).state;
      JoinWithRule(u, t.nextId, p, additional, false);
      CountWithRule(u, t.nextId, f.session, p, additional, false);
      assert u.gatherings[t.nextId].participants + ([p] + additional) == [p] + additional;
    }
  }

  /** CreateMatchmakeSession: refusals before and after leaving, then a session for the creator and its guests. */
  lemma CreateSessionRule(
    s: State, p: Pid, order: seq<Gid>, offered: Option<SessionRequest>, message: string, count: UInt16)
    ensures
      var t, r := Spec.LeaveEach(s, p, order), Spec.CreateSession(s, p, order, offered, message, count);
      if |message| > 256 then r == Outcome(s, Err(InvalidArgument))
      else if offered.None? || !Acceptable(offered.value) then r == Outcome(t, Err(InvalidArgument))
      else r == Spec.JoinFoundOrCreated(t, p, None, Spec.ToSessionForm(offered.value), count)
  {
  }

  /** Everybody who is to come along has to be in the gathering asked for. */
  lemma CheckRule(s: State, gid: Gid, ps: seq<Pid>)
    ensures
      var refused := Spec.CheckGatheringForParticipation(s, gid, ps);
      && (refused == Some(SessionVoid) <==> gid !in s.gatherings || !s.gatherings[gid].registered)
      && (refused == None <==> gid in s.gatherings && s.gatherings[gid].registered
                               && forall q :: q in ps ==> q in s.gatherings[gid].participants)
      && (refused.Some? ==> refused.value == SessionVoid || refused.value == NotParticipated)
  {
  }

  /** The variant with parameters: the check comes before leaving, and the extra participants join too. */
  lemma CreateWithParamRule(
    s: State, p: Pid, order: seq<Gid>, request: SessionRequest, message: string, checkGid: Gid, additional: seq<Pid>)
    requires 1 + |additional| < 0x1_0000_0000
    ensures
      var t, r := Spec.LeaveEach(s, p, order), Spec.CreateSessionWithParam(s, p, order, request, message, checkGid, additional);
      var refused := Spec.CheckGatheringForParticipation(s, checkGid, additional + [p]);
      if |message| > 256 || !Acceptable(request) then r == Outcome(s, Err(InvalidArgument))
      else if checkGid != 0 && refused.Some? then r == Outcome(s, Err(refused.value))
      else
        var f := Spec.ToSessionForm(request);
        if !FitsColumns(request.form) then r == Outcome(t, Err(Unknown))
        else if 1 + |additional| <= request.form.maxParticipants then
          r.result == Ok(1 + |additional|) && HasCreated(t, r.state, p, f, [p] + additional)
        else r.result == Err(SessionFull) && HasCreated(t, r.state, p, f, [])
  {
    if Acceptable(request) {
      CreateAndJoinWithRule(Spec.LeaveEach(s, p, order), p, Spec.ToSessionForm(request), additional);
    }
  }

  // ---------------------------------------------------------------- joining by request

  /** A session that requests can name: registered, with participants and a session row. */
  predicate IsThere(s: State, gid: Gid) {
    && gid in s.gatherings && s.gatherings[gid].registered && s.gatherings[gid].kind == SessionKind
    && s.gatherings[gid].participants != [] && gid in s.sessions
  }

  lemma GetRule(s: State, gid: Gid)
    ensures
      var r := Spec.GetMatchmakeSessionByID(s, gid);
      && (r.Ok? <==> IsThere(s, gid))
      && (r.Ok? ==> r.value == s.sessions[gid])
      && (r.Err? ==>
            if gid in s.gatherings && s.gatherings[gid].registered && s.gatherings[gid].kind == SessionKind && gid in s.sessions
            then r.error == Unknown else r.error == SessionVoid)
  {
  }

  /** By ID: any password and a closed session keep callers out; nothing changes for those who are refused. */
  lemma JoinSessionRule(s: State, p: Pid, gid: Gid, message: string, count: UInt16)
    ensures
      var r := Spec.JoinSession(s, p, gid, message, count);
      if |message| > 256 then r == Outcome(s, Err(InvalidArgument))
      else if !IsThere(s, gid) then r.state == s && r.result.Err? && r.result.error in {SessionVoid, Unknown}
      else
        var session := s.sessions[gid];
        if session.userPasswordEnabled || session.systemPasswordEnabled || !session.openParticipation then
          r == Outcome(s, Err(PermissionDenied))
        else r == Spec.JoinMatchmakeSession(s, gid, session, p, count)
  {
  }

  /** With parameters: a participation check, then the passwords that are set, then whether the session is open. */
  lemma JoinWithParamRule(s: State, p: Pid, param: Spec.JoinParam)
    ensures
      var r := Spec.JoinSessionWithParam(s, p, param);
      var refused := Spec.CheckGatheringForParticipation(s, param.checkGid, param.additional + [p]);
      if |param.message| > 256 then r == Outcome(s, Err(InvalidArgument))
      else if param.checkGid != 0 && refused.Some? then r == Outcome(s, Err(refused.value))
      else if !IsThere(s, param.gid) then r.state == s && r.result.Err? && r.result.error in {SessionVoid, Unknown}
      else
        var session := s.sessions[param.gid];
        if (session.userPasswordEnabled && session.userPassword != param.userPassword)
           || (session.systemPasswordEnabled && session.systemPassword != param.systemPassword) then
          r == Outcome(s, Err(InvalidPassword))
        else if !session.openParticipation then r == Outcome(s, Err(PermissionDenied))
        else r == Spec.JoinMatchmakeSessionWithParticipants(s, param.gid, session, p, param.additional, param.imAlreadyJoined)
  {
  }

  /** Auto-matchmaking with parameters joins what the search found unless it has a password, or creates. */
  lemma AutoWithParamRule(
    s: State, p: Pid, order: seq<Gid>, request: SessionRequest, message: string, checkGid: Gid, additional: seq<Pid>,
    answer: Option<seq<Gid>>)
    requires Spec.KnownAnswer(s, answer) && 1 + |additional| < 0x1_0000_0000
    ensures Spec.LeaveEach(s, p, order).sessions == s.sessions
    ensures
      var t := Spec.LeaveEach(s, p, order);
      var r := Spec.AutoMatchmakeWithParam(s, p, order, request, message, checkGid, additional, answer);
      var refused := Spec.CheckGatheringForParticipation(s, checkGid, additional + [p]);
      if |message| > 256 || !Acceptable(request) then r == Outcome(s, Err(InvalidArgument))
      else if checkGid != 0 && refused.Some? then r == Outcome(s, Err(refused.value))
      else if answer == None then r == Outcome(t, Err(IndexOutOfRange))
      else if answer.value != [] then
        var found := answer.value[0];
        if s.sessions[found].userPasswordEnabled || s.sessions[found].systemPasswordEnabled then
          r == Outcome(t, Err(PermissionDenied))
        else r == Spec.JoinMatchmakeSessionWithParticipants(t, found, s.sessions[found], p, additional, false)
      else if !FitsColumns(request.form) then r == Outcome(t, Err(Unknown))
      else if 1 + |additional| <= request.form.maxParticipants then
        r.result == Ok(1 + |additional|) && HasCreated(t, r.state, p, Spec.ToSessionForm(request), [p] + additional)
      else r.result == Err(SessionFull) && HasCreated(t, r.state, p, Spec.ToSessionForm(request), [])
  {
    Spec.LeaveEachKeepsSessions(s, p, order);
    if Acceptable(request) {
      CreateAndJoinWithRule(Spec.LeaveEach(s, p, order), p, Spec.ToSessionForm(request), additional);
    }
  }

  /** Auto-matchmaking with criteria joins what the search found, with the first criterion's guests, or creates. */
  lemma AutoWithCriteriaRule(
    s: State, p: Pid, order: seq<Gid>, vacants: seq<UInt16>, offered: Option<SessionRequest>, message: string,
    answer: Option<seq<Gid>>)
    requires Spec.KnownAnswer(s, answer)
    ensures Spec.LeaveEach(s, p, order).sessions == s.sessions
    ensures
      var t := Spec.LeaveEach(s, p, order);
      var r := Spec.AutoMatchmakeWithSearchCriteria(s, p, order, vacants, offered, message, answer);
      if |message| > 256 || |vacants| > 2 then r == Outcome(s, Err(InvalidArgument))
      else if offered.None? || !Acceptable(offered.value) then r == Outcome(t, Err(InvalidArgument))
      else if answer == None then r == Outcome(t, Err(IndexOutOfRange))
      else
        var guests: UInt16 := if vacants == [] then 1 else vacants[0];
        if answer.value != [] then
          var found := answer.value[0];
          if s.sessions[found].userPasswordEnabled || s.sessions[found].systemPasswordEnabled then
            r == Outcome(t, Err(PermissionDenied))
          else r == Spec.JoinMatchmakeSession(t, found, s.sessions[found], p, guests)
        else r == Spec.JoinFoundOrCreated(t, p, None, Spec.CanonicalForm(offered.value), guests)
  {
    Spec.LeaveEachKeepsSessions(s, p, order);
  }

  // ---------------------------------------------------------------- hosts and owners

  /** `t` is `s` with this owner and host, each change logged. */
  predicate HostAndOwnerAre(s: State, t: State, gid: Gid, p: Pid, newOwner: bool)
    requires gid in s.gatherings
  {
    var g := s.gatherings[gid];
    t == s.(gatherings := s.gatherings[gid := if newOwner then g.(host := p, owner := p) else g.(host := p)],
            tracking := s.tracking + [LogChangeHost(p, gid, g.host, p)]
                        + if newOwner then [LogChangeOwner(p, gid, g.owner, p)] else [])
  }

  /** The three host requests: participants only; ownership goes along when it is asked for, or by the flag alone in V1. */
  lemma HostRule(s: State, p: Pid, gid: Gid, isMigrateOwner: bool)
    ensures
      var r, v1, url := Spec.UpdateSessionHost(s, p, gid, isMigrateOwner), Spec.UpdateSessionHostV1(s, p, gid),
                        Spec.UpdateSessionURL(s, p, gid);
      if gid !in s.gatherings || !s.gatherings[gid].registered then r == v1 == url == Outcome(s, Err(SessionVoid))
      else if p !in s.gatherings[gid].participants then r == v1 == url == Outcome(s, Err(PermissionDenied))
      else
        var transferable := ParticipantsChangeOwner in s.gatherings[gid].form.flags;
        && (if isMigrateOwner && !transferable then r == Outcome(s, Err(InvalidOperation))
            else r.result == Ok(()) && HostAndOwnerAre(s, r.state, gid, p, isMigrateOwner))
        && v1.result == Ok(()) && HostAndOwnerAre(s, v1.state, gid, p, transferable)
        && url.result == Ok(()) && HostAndOwnerAre(s, url.state, gid, p, false)
  {
  }

  /** Only the owner ends a gathering. */
  lemma UnregisterRule(s: State, p: Pid, gid: Gid)
    ensures
      var r := Spec.Unregister(s, p, gid);
      if gid !in s.gatherings || !s.gatherings[gid].registered then r == Outcome(s, Err(SessionVoid))
      else if s.gatherings[gid].owner != p then r == Outcome(s, Err(PermissionDenied))
      else r == Outcome(s.(gatherings := s.gatherings[gid := s.gatherings[gid].(registered := false)],
                           tracking := s.tracking + [LogUnregister(p, gid)]), Ok(()))
  {
  }

  /** Only the owner changes a session: whether it is open, one of its six attributes, its progress score. */
  lemma SessionChangeRule(s: State, p: Pid, gid: Gid, open: bool, index: nat, value: nat, score: nat)
    ensures
      var o, a, c := Spec.SetOpenParticipation(s, p, gid, open), Spec.ModifyGameAttribute(s, p, gid, index, value),
                     Spec.UpdateProgressScore(s, p, gid, score);
      && (score > 100 ==> c == Outcome(s, Err(InvalidArgument)))
      && if !IsThere(s, gid) then
           o.result.Err? && a.result.Err? && c.result.Err? && o.state == a.state == c.state == s
         else if s.gatherings[gid].owner != p then
           o == a == Outcome(s, Err(PermissionDenied)) && (score <= 100 ==> c == o)
         else
           var session := s.sessions[gid];
           && o == Outcome(s.(sessions := s.sessions[gid := session.(openParticipation := open)]), Ok(()))
           && a == (if index < 6
                    then Outcome(s.(sessions := s.sessions[gid := session.(attribs := session.attribs[index := value])]), Ok(()))
                    else Outcome(s, Err(InvalidIndex)))
           && (score <= 100 ==> c == Outcome(s.(sessions := s.sessions[gid := session.(progressScore := score)]), Ok(())))
  {
  }

  /** A community: hosted by nobody, its creator the first participant, as long as the creator may own one more. */
  lemma CommunityRule(s: State, p: Pid, form: Form, valid: bool, creationMax: int)
    ensures
      var r := Spec.CreateCommunity(s, p, form, valid, creationMax);
      var owned := set gid | gid in s.gatherings && s.gatherings[gid].registered
                             && s.gatherings[gid].kind == CommunityKind && s.gatherings[gid].owner == p;
      if !valid then r == Outcome(s, Err(InvalidArgument))
      else if |owned| >= creationMax then r == Outcome(s, Err(CreationMax))
      else if !FitsColumns(form) then r == Outcome(s, Err(Unknown))
      else
        && r.result == Ok(1)
        && r.state == s.(
             gatherings := s.gatherings[s.nextId := Gathering(form, CommunityKind, p, 0, true, [p])],
             nextId := s.nextId + 1,
             tracking := s.tracking + [LogRegister(p, s.nextId)] + [LogJoin(p, s.nextId, [p], [p])])
  {
    var none: seq<Pid> := [];
    assert Spec.CommunitiesOwned(s, p)
        == set gid | gid in s.gatherings && s.gatherings[gid].registered
                     && s.gatherings[gid].kind == CommunityKind && s.gatherings[gid].owner == p;
    assert Copies(p, 1) == [p] && Copies(p, 1) + none == [p];
  }

  /** A restart unregisters all sessions and touches nothing else. */
  lemma RestartRule(s: State)
    ensures
      var t := Spec.Restarted(s);
      && t == s.(gatherings := t.gatherings) && t.gatherings.Keys == s.gatherings.Keys
      && forall gid :: gid in s.gatherings ==>
           t.gatherings[gid] == s.gatherings[gid].(registered := t.gatherings[gid].registered)
           && (t.gatherings[gid].registered <==> s.gatherings[gid].registered && s.gatherings[gid].kind == CommunityKind)
  {
  }
}
