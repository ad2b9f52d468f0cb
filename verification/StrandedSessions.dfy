/**
 Stranded sessions: a creator who is refused leaves behind a session that is registered and empty. Over every run of the
 server nobody ever enters it.
 */
module StrandedSessions {
  import opened ParticipantLists
  import opened Tables
  import opened Moves
  import opened Handlers
  import opened AutoMatchmaking
  import opened Admission
  import Runs = SmallRuns
  import Spec = MatchmakingSpec

  /** The row stays, or is unregistered. */
  predicate AtMostUnregistered(before: Gathering, after: Gathering) {
    after == before || after == before.(registered := false)
  }

  predicate StaysStranded(s: State, t: State, gid: Gid) {
    Stranded(s, gid) && Stranded(t, gid) && AtMostUnregistered(s.gatherings[gid], t.gatherings[gid])
  }

  /** No request brings anybody into a stranded session; all that can happen to it is to be unregistered. */
  lemma StepPassesStranded(s: State, step: Step, gid: Gid)
    requires Good(s) && Allowed(s, step) && Stranded(s, gid)
    ensures StaysStranded(s, Next(s, step), gid)
  {
    StepFollows(s, step, gid);
  }

  /** Such sessions are reachable: three players cannot create a session for two, but leave it registered. */
  lemma StrandedIsReachable() returns (steps: seq<Step>)
    ensures Serves(EMPTY, steps) && Stranded(Served(EMPTY, steps), 1) && IsRegistered(Served(EMPTY, steps), 1)
    ensures Spec.CreateSession(EMPTY, Runs.CREATOR, [], Some(Runs.Asking(2)), "", 3).result == Err(SessionFull)
    ensures steps == [Runs.Creating(Runs.CREATOR, 2, 3)]
  {
    Runs.RefusedCreationRun(2, 3);
    steps := [Runs.Creating(Runs.CREATOR, 2, 3)];
  }

  /** A refused creation is never undone: over every run of the server, nobody enters what it left behind. */
  lemma {:induction false} StrandedForever(s: State, steps: seq<Step>, gid: Gid)
    requires Good(s) && Serves(s, steps) && Stranded(s, gid)
    ensures StaysStranded(s, Served(s, steps), gid)
    decreases |steps|
  {
    if steps != [] {
      var t := Next(s, steps[0]);
      StepPassesStranded(s, steps[0], gid);
      StepKeepsGood(s, steps[0]);
      StrandedForever(t, steps[1..], gid);
    }
  }
}
