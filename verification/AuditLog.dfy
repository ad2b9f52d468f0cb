/** The tracking log explains the gatherings table: replaying it gives back every row. */
module AuditLog {
  import opened ParticipantLists
  import opened Tables
  import opened Moves
  import opened Handlers
  import Runs = SmallRuns
  import Spec = MatchmakingSpec

  /**
   What the log alone says about one gathering: owner and host as last logged, the list as last logged, the
   multiset of participants summed up from the entries' own changes, how often it was registered and unregistered,
   and whether every change entry names the value it replaces.
   */
  datatype View = View(
    owner: Pid, host: Pid, list: seq<Pid>, members: multiset<Pid>,
    registrations: nat, unregistrations: nat, chained: bool)

  const UNKNOWN: View := View(0, 0, [], multiset{}, 0, 0, true)

  function Read(v: View, e: Event, kind: Kind): View {
    match e
    case LogRegister(source, _) =>
      v.(owner := source, host := FirstHost(kind, source), registrations := v.registrations + 1)
    case LogJoin(_, _, newcomers, total) => v.(list := total, members := v.members + multiset(newcomers))
    case LogLeave(source, _, total) => v.(list := total, members := v.members[source := 0])
    case LogDisconnect(source, _, total) => v.(list := total, members := v.members[source := 0])
    case LogUnregister(_, _) => v.(unregistrations := v.unregistrations + 1)
    case LogChangeHost(_, _, oldHost, newHost) => v.(host := newHost, chained := v.chained && v.host == oldHost)
    case LogChangeOwner(_, _, oldOwner, newOwner) => v.(owner := newOwner, chained := v.chained && v.owner == oldOwner)
  }

  /** Reads the entries about `gid` in order. */
  function Replay(v: View, log: seq<Event>, gid: Gid, kind: Kind): View
    decreases |log|
  {
    if log == [] then v
    else Replay(if log[0].gid == gid then Read(v, log[0], kind) else v, log[1..], gid, kind)
  }

  lemma {:induction false} ReplayConcat(v: View, a: seq<Event>, b: seq<Event>, gid: Gid, kind: Kind)
    ensures Replay(v, a + b, gid, kind) == Replay(Replay(v, a, gid, kind), b, gid, kind)
    decreases |a|
  {
    if a == [] {
      assert a + b == b;
    } else {
      assert (a + b)[1..] == a[1..] + b;
      ReplayConcat(if a[0].gid == gid then Read(v, a[0], kind) else v, a[1..], b, gid, kind);
    }
  }

  /** The row as the log would have it; `swept` says that a restart has unregistered it, which is not logged. */
  function ViewOf(g: Gathering, swept: bool): View {
    View(g.owner, g.host, g.participants, multiset(g.participants),
         1, if g.registered || swept then 0 else 1, true)
  }

  ghost predicate Explains(s: State, swept: set<Gid>, gid: Gid)
    requires gid in s.gatherings
  {
    var g := s.gatherings[gid];
    && Replay(UNKNOWN, s.tracking, gid, g.kind) == ViewOf(g, gid in swept)
    && (gid in swept ==> !g.registered && g.kind == SessionKind)
  }

  ghost predicate Explained(s: State, swept: set<Gid>) {
    swept <= s.gatherings.Keys && forall gid :: gid in s.gatherings ==> Explains(s, swept, gid)
  }

  /** What a restart sweeps up. */
  function SweptBy(s: State, m: Move): set<Gid> {
    if m.Restart? then set gid | gid in s.gatherings && s.gatherings[gid].registered && s.gatherings[gid].kind == SessionKind
    else {}
  }

  lemma {:induction false} OthersIgnore(v: View, log: seq<Event>, gid: Gid, kind: Kind)
    requires forall e :: e in log ==> e.gid != gid
    ensures Replay(v, log, gid, kind) == v
    decreases |log|
  {
    if log != [] {
      assert log[0] in log;
      OthersIgnore(v, log[1..], gid, kind);
    }
  }

  /** Entries of one gathering are read one after the other; a move appends three at most. */
  lemma ReadAll(v: View, log: seq<Event>, gid: Gid, kind: Kind)
    requires forall e :: e in log ==> e.gid == gid
    requires 1 <= |log| <= 3
    ensures
      var v1 := Read(v, log[0], kind);
      Replay(v, log, gid, kind)
      == if |log| == 1 then v1
         else var v2 := Read(v1, log[1], kind); if |log| == 2 then v2 else Read(v2, log[2], kind)
  {
    var v1 := Read(v, log[0], kind);
    assert log[0] in log && Replay(v, log, gid, kind) == Replay(v1, log[1..], gid, kind);
    if |log| > 1 {
      var v2, rest := Read(v1, log[1], kind), log[1..];
      assert log[1] in log && rest[0] == log[1] && rest[1..] == log[2..];
      assert Replay(v1, rest, gid, kind) == Replay(v2, log[2..], gid, kind);
      if |log| > 2 {
        var last := log[2..];
        assert log[2] in log && last[0] == log[2] && last[1..] == [];
        assert Replay(v2, last, gid, kind) == Replay(Read(v2, log[2], kind), [], gid, kind);
      }
    }
  }

  /** The first entry of a departure gives the list that is left. */
  lemma ExitIsRead(g: Gathering, gid: Gid, p: Pid, exit: Spec.Exit)
    ensures
      var rest := Without(g.participants, p);
      Read(ViewOf(g, false), Spec.ExitEntry(exit, p, gid, rest), g.kind)
      == ViewOf(g, false).(list := rest, members := multiset(rest))
  {
    WithoutMultiset(g.participants, p);
  }

  /** The others give the new owner and host, and chain on to the old ones. */
  lemma HandOverIsRead(v: View, g: Gathering, gid: Gid, p: Pid, heir: Pid)
    requires v.owner == g.owner && v.host == g.host && v.chained
    ensures
      var owner := if p == g.owner then [LogChangeOwner(p, gid, g.owner, heir)] else [];
      var host := if p == g.host && heir != 0 then [LogChangeHost(p, gid, g.host, heir)] else [];
      Replay(v, owner + host, gid, g.kind)
      == v.(owner := if p == g.owner then heir else g.owner, host := if p == g.host && heir != 0 then heir else g.host)
  {
    var owner := if p == g.owner then [LogChangeOwner(p, gid, g.owner, heir)] else [];
    var host := if p == g.host && heir != 0 then [LogChangeHost(p, gid, g.host, heir)] else [];
    ReplayConcat(v, owner, host, gid, g.kind);
    ReadOne(v, LogChangeOwner(p, gid, g.owner, heir), gid, g.kind);
    ReadOne(Replay(v, owner, gid, g.kind), LogChangeHost(p, gid, g.host, heir), gid, g.kind);
  }

  lemma ReadOne(v: View, e: Event, gid: Gid, kind: Kind)
    requires e.gid == gid
    ensures Replay(v, [e], gid, kind) == Read(v, e, kind)
  {
    assert [e][1..] == [];
  }

  lemma DepartureIsRead(g: Gathering, gid: Gid, p: Pid, exit: Spec.Exit)
    requires g.registered
    ensures Replay(ViewOf(g, false), Spec.DepartureEntries(g, gid, p, exit), gid, g.kind)
         == ViewOf(Spec.AfterDeparture(g, p), false)
  {
    var rest, heir := Without(g.participants, p), Spec.Heir(g, p);
    var first := Spec.ExitEntry(exit, p, gid, rest);
    var others := Spec.DepartureEntries(g, gid, p, exit)[1..];
    assert Spec.DepartureEntries(g, gid, p, exit) == [first] + others;
    ReplayConcat(ViewOf(g, false), [first], others, gid, g.kind);
    ReadOne(ViewOf(g, false), first, gid, g.kind);
    ExitIsRead(g, gid, p, exit);
    var v := ViewOf(g, false).(list := rest, members := multiset(rest));
    if Spec.Lenient(g) {
      assert others == [];
    } else if Spec.EndsWith(g, p) {
      assert others == [LogUnregister(p, gid)];
      ReadOne(v, LogUnregister(p, gid), gid, g.kind);
    } else {
      HandOverIsRead(v, g, gid, p, heir);
    }
  }

  lemma OwnerChangeIsRead(s: State, gid: Gid, p: Pid)
    requires Enabled(s, SetOwnerAndHost(gid, p))
    ensures Replay(ViewOf(s.gatherings[gid], false), Entries(s, SetOwnerAndHost(gid, p)), gid, s.gatherings[gid].kind)
         == ViewOf(Do(s, SetOwnerAndHost(gid, p)).gatherings[gid], false)
  {
    ReadAll(ViewOf(s.gatherings[gid], false), Entries(s, SetOwnerAndHost(gid, p)), gid, s.gatherings[gid].kind);
  }

  lemma ChangeIsRead(s: State, m: Move, gid: Gid)
    requires Enabled(s, m) && IsRegistered(s, gid) && Touches(s, m, gid) && !m.Restart? && !m.Register?
    ensures Replay(ViewOf(s.gatherings[gid], false), Entries(s, m), gid, s.gatherings[gid].kind)
         == ViewOf(Do(s, m).gatherings[gid], false)
  {
    if m.Depart? {
      DepartureIsRead(s.gatherings[gid], gid, m.p, m.exit);
    } else if m.SetOwnerAndHost? {
      OwnerChangeIsRead(s, gid, m.p);
    } else {
      ReadOne(ViewOf(s.gatherings[gid], false), Entries(s, m)[0], gid, s.gatherings[gid].kind);
    }
  }

  lemma MoveIsRead(s: State, m: Move, swept: set<Gid>, gid: Gid)
    requires WellFormed(s) && Explained(s, swept) && Enabled(s, m) && gid in s.gatherings
    ensures Explains(Do(s, m), swept + SweptBy(s, m), gid)
  {
    var g := s.gatherings[gid];
    assert Explains(s, swept, gid);
    EntriesAreAppended(s, m);
    ReplayConcat(UNKNOWN, s.tracking, Entries(s, m), gid, g.kind);
    if m.Restart? {
      assert Entries(s, m) == [];
    } else if Touches(s, m, gid) {
      ChangeIsRead(s, m, gid);
    } else {
      UntouchedRows(s, m, gid);
      OthersIgnore(ViewOf(g, gid in swept), Entries(s, m), gid, g.kind);
    }
  }

  lemma RegistrationIsRead(s: State, m: Move, swept: set<Gid>)
    requires WellFormed(s) && Explained(s, swept) && Enabled(s, m) && m.Register?
    ensures Explains(Do(s, m), swept, s.nextId)
  {
    OthersIgnore(UNKNOWN, s.tracking, s.nextId, m.g.kind);
    ReplayConcat(UNKNOWN, s.tracking, Entries(s, m), s.nextId, m.g.kind);
    ReadAll(UNKNOWN, Entries(s, m), s.nextId, m.g.kind);
  }

  lemma MoveKeepsExplained(s: State, m: Move, swept: set<Gid>)
    requires Good(s) && Explained(s, swept) && Enabled(s, m)
    ensures Explained(Do(s, m), swept + SweptBy(s, m))
  {
    forall gid | gid in Do(s, m).gatherings
      ensures Explains(Do(s, m), swept + SweptBy(s, m), gid)
    {
      if gid in s.gatherings {
        MoveIsRead(s, m, swept, gid);
      } else {
        assert m.Register? && gid == s.nextId;
        RegistrationIsRead(s, m, swept);
        assert swept + SweptBy(s, m) == swept;
      }
    }
  }

  lemma {:induction false} RunIsExplained(s: State, ms: seq<Move>, swept: set<Gid>)
    requires Good(s) && Explained(s, swept) && CanRun(s, ms)
    requires forall m :: m in ms ==> !m.Restart?
    ensures Explained(Run(s, ms), swept)
    decreases |ms|
  {
    if ms != [] {
      MoveKeepsGood(s, ms[0]);
      MoveKeepsExplained(s, ms[0], swept);
      assert ms[0] in ms && swept + SweptBy(s, ms[0]) == swept;
      RunIsExplained(Do(s, ms[0]), ms[1..], swept);
    }
  }

  /** The sessions that restarts have unregistered in the course of a run of the server. */
  ghost function Swept(s: State, steps: seq<Step>): set<Gid>
    requires Serves(s, steps)
    decreases |steps|
  {
    if steps == [] then {}
    else (if steps[0].ServerStart? then SweptBy(s, Restart) else {}) + Swept(Next(s, steps[0]), steps[1..])
  }

  lemma {:induction false} ServiceIsExplained(s: State, steps: seq<Step>, swept: set<Gid>)
    requires Good(s) && Explained(s, swept) && Serves(s, steps)
    ensures Explained(Served(s, steps), swept + Swept(s, steps))
    decreases |steps|
  {
    if steps == [] {
      assert swept + Swept(s, steps) == swept;
    } else {
      var step, t := steps[0], Next(s, steps[0]);
      if step.ServerStart? {
        MoveKeepsGood(s, Restart);
        MoveKeepsExplained(s, Restart, swept);
        ServiceIsExplained(t, steps[1..], swept + SweptBy(s, Restart));
        assert swept + SweptBy(s, Restart) + Swept(t, steps[1..]) == swept + Swept(s, steps);
      } else {
        var ms := HandlerIsRun(s, step);
        RunKeepsGood(s, ms);
        RunIsExplained(s, ms, swept);
        ServiceIsExplained(t, steps[1..], swept);
        assert swept + Swept(t, steps[1..]) == swept + Swept(s, steps);
      }
    }
  }

  /**
   Over every run of the server, the log replays to the table. Owner, host and list are those last logged, change
   entries chain old to new, the participants are the sum of the logged changes, and there is one registration. A
   row is unregistered exactly when one unregister entry says so or a restart swept it up, and never both.
   */
  lemma LogReplaysToTable(steps: seq<Step>, gid: Gid)
    requires Serves(EMPTY, steps) && gid in Served(EMPTY, steps).gatherings
    ensures
      var s := Served(EMPTY, steps);
      var g, v := s.gatherings[gid], Replay(UNKNOWN, s.tracking, gid, s.gatherings[gid].kind);
      && v.owner == g.owner && v.host == g.host && v.list == g.participants && v.chained
      && v.members == multiset(g.participants)
      && v.registrations == 1 && v.unregistrations <= 1
      && (g.registered <==> v.unregistrations == 0 && gid !in Swept(EMPTY, steps))
      && !(v.unregistrations == 1 && gid in Swept(EMPTY, steps))
  {
    assert Explained(EMPTY, {});
    ServiceIsExplained(EMPTY, steps, {});
    assert {} + Swept(EMPTY, steps) == Swept(EMPTY, steps);
    assert Explains(Served(EMPTY, steps), Swept(EMPTY, steps), gid);
  }

  /** The third case is real: a session is created, the server restarts, and the row is unregistered without an entry. */
  lemma RestartIsNotLogged() returns (steps: seq<Step>)
    ensures Serves(EMPTY, steps) && 1 in Served(EMPTY, steps).gatherings
    ensures !Served(EMPTY, steps).gatherings[1].registered && 1 in Swept(EMPTY, steps)
    ensures Replay(UNKNOWN, Served(EMPTY, steps).tracking, 1, SessionKind).unregistrations == 0
  {
    var create := Runs.Creating(Runs.CREATOR, 2, 1);
    Runs.CreationRun(2);
    Runs.OneStep(EMPTY, create);
    Runs.TwoSteps(EMPTY, create, ServerStart);
    steps := [create, ServerStart];
    assert steps[1..] == [ServerStart];
    var t := Next(EMPTY, create);
    assert t == Runs.OneSession(2, [Runs.CREATOR]);
    SweptByRestart(t, 1);
    LogReplaysToTable(steps, 1);
  }

  lemma SweptByRestart(s: State, gid: Gid)
    requires gid in s.gatherings && s.gatherings[gid].registered && s.gatherings[gid].kind == SessionKind
    ensures Serves(s, [ServerStart]) && gid in Swept(s, [ServerStart])
  {
    assert [ServerStart][1..] == [];
    assert gid in SweptBy(s, Restart);
  }
}
