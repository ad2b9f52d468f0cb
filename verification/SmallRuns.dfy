/** Short runs of the server, for the inputs that show where it does not do what one would expect. */
module SmallRuns {
  import opened ParticipantLists
  import opened Tables
  import opened Moves
  import opened Handlers
  import Spec = MatchmakingSpec

  const CREATOR: Pid := 7
  const VISITOR: Pid := 5

  /** A valid request for an open session with this limit. */
  function Asking(limit: nat): (request: SessionRequest)
    ensures Spec.CheckValidMatchmakeSession(request)
  {
    SessionRequest(Form(1, limit, 0, {}, ""), 0, [0, 0, 0, 0, 0, 0], true, 0, 0, 0, "", false, "", false, [], [])
  }

  function Creating(p: Pid, limit: nat, count: UInt16): Step {
    CreateSession(p, [], Some(Asking(limit)), "", count)
  }

  const NOBODY: seq<Pid> := []

  /** The tables with one session and these participants in it. */
  function OneSession(limit: nat, participants: seq<Pid>): State {
    var f := Spec.ToSessionForm(Asking(limit));
    State(map[1 := Gathering(f.form, SessionKind, CREATOR, CREATOR, true, participants)], 2, map[1 := f.session],
          [LogRegister(CREATOR, 1)] + if participants == [] then [] else [LogJoin(CREATOR, 1, participants, participants)],
          map[], [])
  }

  lemma OneStep(s: State, step: Step)
    requires Allowed(s, step)
    ensures Serves(s, [step]) && Served(s, [step]) == Next(s, step)
  {
    assert [step][1..] == [];
  }

  lemma TwoSteps(s: State, first: Step, second: Step)
    requires Allowed(s, first) && Allowed(Next(s, first), second)
    ensures Serves(s, [first, second]) && Served(s, [first, second]) == Next(Next(s, first), second)
  {
    OneStep(Next(s, first), second);
    assert [first, second][1..] == [second];
  }

  /** Whoever is in no session creates one and is alone in it. */
  lemma CreationStep(s: State, p: Pid, limit: nat)
    requires p != 0 && limit <= INT32_MAX && Spec.SessionRowsOf(s, p) == {}
    ensures Allowed(s, Creating(p, limit, 1))
    ensures
      var t, f := Next(s, Creating(p, limit, 1)), Spec.ToSessionForm(Asking(limit));
      && t.gatherings == s.gatherings[s.nextId := Gathering(f.form, SessionKind, p, p, true, [p])]
      && t.sessions == s.sessions[s.nextId := f.session] && t.nextId == s.nextId + 1
  {
    assert Copies(p, 1) + NOBODY == [p];
  }

  lemma CreationRun(limit: nat)
    requires limit <= INT32_MAX
    ensures Serves(EMPTY, [Creating(CREATOR, limit, 1)])
    ensures Served(EMPTY, [Creating(CREATOR, limit, 1)]) == OneSession(limit, [CREATOR])
  {
    OneStep(EMPTY, Creating(CREATOR, limit, 1));
    assert Copies(CREATOR, 1) + NOBODY == [CREATOR] && Copies(CREATOR, 1) == [CREATOR];
  }

  /** A creator who brings more guests than the session holds is refused, and leaves it behind, registered and empty. */
  lemma RefusedCreationRun(limit: nat, count: UInt16)
    requires 0 < limit < count
    ensures Serves(EMPTY, [Creating(CREATOR, limit, count)])
    ensures Spec.CreateSession(EMPTY, CREATOR, [], Some(Asking(limit)), "", count).result == Err(SessionFull)
    ensures Served(EMPTY, [Creating(CREATOR, limit, count)]) == OneSession(limit, [])
  {
    OneStep(EMPTY, Creating(CREATOR, limit, count));
  }

  /** With a limit of 0 the same visitor is let in alone, and found too many as soon as extra participants may come along. */
  lemma JoinsDisagreeAboutZero()
    ensures
      var s := OneSession(0, [CREATOR]);
      && Spec.JoinGathering(s, 1, VISITOR, 1).result == Ok(2)
      && Spec.JoinGatheringWithParticipants(s, 1, VISITOR, [], false).result == Err(SessionFull)
    ensures Served(EMPTY, [Creating(CREATOR, 0, 1)]) == OneSession(0, [CREATOR])
  {
    CreationRun(0);
  }
}
