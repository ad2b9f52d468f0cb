/** The matchmaking tables: gatherings, matchmake sessions, the tracking log and community counters. */
module Tables {
  import opened ParticipantLists

  type Gid = nat
  type UInt16 = n: nat | n < 0x1_0000

  const INT32_MAX: nat := 0x7FFF_FFFF
  const UINT32_SIZE: nat := 0x1_0000_0000

  /** The gathering flags the handlers test, by name. */
  datatype Flag =
    | PersistentGathering
    | PersistentGatheringLeaveParticipation
    | PersistentGatheringAllowZeroUsers
    | DisconnectChangeOwner
    | ParticipantsChangeOwner

  /** The `type` column: "MatchmakeSession" or "PersistentGathering". */
  datatype Kind = SessionKind | CommunityKind

  /** The client-supplied half of a gathering row. */
  datatype Form = Form(minParticipants: nat, maxParticipants: nat, policy: nat, flags: set<Flag>, description: string)

  datatype Gathering = Gathering(
    form: Form, kind: Kind, owner: Pid, host: Pid, registered: bool, participants: seq<Pid>)

  type Attributes = a: seq<nat> | |a| == 6 witness [0, 0, 0, 0, 0, 0]

  datatype Session = Session(
    gameMode: nat, attribs: Attributes, openParticipation: bool, systemType: nat, progressScore: nat,
    referGid: nat, codeword: string,
    userPasswordEnabled: bool, userPassword: string, systemPasswordEnabled: bool, systemPassword: string)

  /** A session ready to be stored. */
  datatype SessionForm = SessionForm(form: Form, session: Session)

  /** A session as a client sends it: nothing about it is checked yet. */
  datatype SessionRequest = SessionRequest(
    form: Form, gameMode: nat, attribs: seq<nat>, openParticipation: bool, systemType: nat, progressScore: nat,
    referGid: nat, codeword: string, userPasswordEnabled: bool, userPassword: string, systemPasswordEnabled: bool,
    applicationBuffer: seq<bv8>, sessionKey: seq<bv8>)

  /** The tracking tables merged into one log in the order of insertion. */
  datatype Event =
    | LogRegister(source: Pid, gid: Gid)
    | LogJoin(source: Pid, gid: Gid, newParticipants: seq<Pid>, total: seq<Pid>)
    | LogLeave(source: Pid, gid: Gid, total: seq<Pid>)
    | LogDisconnect(source: Pid, gid: Gid, total: seq<Pid>)
    | LogUnregister(source: Pid, gid: Gid)
    | LogChangeHost(source: Pid, gid: Gid, oldHost: Pid, newHost: Pid)
    | LogChangeOwner(source: Pid, gid: Gid, oldOwner: Pid, newOwner: Pid)

  datatype CommunityEntry = CommunityEntry(pid: Pid, community: Gid, gid: Gid, count: nat)

  datatype State = State(
    gatherings: map<Gid, Gathering>,
    nextId: Gid,
    sessions: map<Gid, Session>,
    tracking: seq<Event>,
    counts: map<(Pid, Gid), nat>,
    communityLog: seq<CommunityEntry>)

  /** The tables as the schema set-up creates them; the serial starts at 1. */
  const EMPTY: State := State(map[], 1, map[], [], map[], [])

  datatype Error =
    | SessionVoid | SessionFull | AlreadyParticipated | NotParticipated | PermissionDenied
    | InvalidOperation | InvalidArgument | InvalidIndex | InvalidPassword | CreationMax | IndexOutOfRange | Unknown

  datatype Option<+T> = None | Some(value: T)
  datatype Result<+T> = Ok(value: T) | Err(error: Error)
  datatype Outcome<+T> = Outcome(state: State, result: Result<T>)
}
