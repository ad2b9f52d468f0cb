# A verified model of the matchmaking and course servers

This project models, in Dafny, the parts of the Super Mario Maker server that keep state, and proves what its players
and operators rely on. Three systems are modelled.

**Matchmaking.** Gatherings (sessions and communities) with owner, host, limit, flags and a list of participants in
which guests repeat their player's ID; session rows; a tracking log; and community counters. `MatchmakingManager` is
the manager object: its fields are the tables, its methods the database routines and the handlers, written as the
server writes them. Each is proved equal to a function on table values in `MatchmakingSpec`. `Moves` breaks these
functions down into ten primitive changes, `Handlers` shows that every handler is a run of them, and
`MatchmakingServer` that every sequence of requests to the manager object is a run of the resulting transition system.
`DepartureRules`, `HandlerRules` and `SearchRules` say of each routine, handler and search what it accepts and does,
with columns and lists alone. `RunInvariants`, `AuditLog`, `Departures`, `AutoMatchmaking` and `StrandedSessions` then
prove properties of all runs. `SearchCriteria` (with `Decimals`) compiles search criteria, given as strings, to
queries, and proves that the queries mean what the criteria say; `SearchLimits` says how much a search returns,
`SearchFinds` when it finds something. `Admission` says who can get into a session that is closed or has a password.
`SmallRuns` holds short runs of the server, from which the counterexamples start.

**Course files.** `CourseContainer` splits a course file at its magic numbers, `CourseHeader` builds the 44-byte header
that describes the pieces and proves that a client recovers them from file and header. The decompressor and the CRC are
parameters: everything holds for any functions in their place.

**Course tables.** `DataStore` is the course server's side, with a ghost history of single writes that explains its
tables entirely. `DataStoreWrites` proves that every table is a fold over that history, and how an object lives;
`CourseServer` lifts this to requests of clients and administrators, and `DataStoreRules` says who may do what.
`BufferQueues` is about the order of queues, `DataIds` about the sequence that gives out DataIDs, statement by
statement (`setval` with the reading of the last value is one), so that imports may interleave with inserts in any way.

All methods of the two classes and all loops of the source they model are imperative. Values that a method gets from
outside (the order of unordered rows, the random order of a search, clock readings, stored file sizes, the friends of a
player, the game server's clean-up hook) are parameters or chosen freely.

## What turned out not to hold

Where the code does not meet what one would expect of it, the model keeps the code, shows an input, and states exactly
when the code does.

- A restart unregisters sessions without a log entry (matchmake-extension/protocol.go, line 148; a run in
  `AuditLog.RestartIsNotLogged`). The log therefore explains `registered` only together with the sessions that restarts
  have swept up; `AuditLog.LogReplaysToTable` has them as an exact third case.
- The two joins disagree about a limit of 0: `JoinGathering` is then never full, and `JoinGatheringWithParticipants` is
  full unless the size it checks wraps to 0 (`RunInvariants.ZeroLimitIsFullIff`; a run in
  `SmallRuns.JoinsDisagreeAboutZero`). That size is truncated to uint32, and the limit is kept exactly when this
  changes nothing (`RunInvariants.JoinWithKeepsLimitIff` and the counterexample beside it).
- PID 0 means "nobody" to ownership migration and to the host column. A departure leaves a departed player as host
  exactly when PID 0 owns the gathering and its host leaves it to others (`Moves.DepartureBreaksIff`), so everything
  about runs is for nonzero callers.
- Auto-matchmaking refuses a valid request exactly when the limits it asks for, uint32 in the request, do not fit the
  `integer` columns of the table (`AutoMatchmaking.AutoMatchmakeAlwaysPlaces`, `AutoMatchmaking.WideLimitIsRefused`).
- The variant with criteria joins with the guests of the first criterion whichever criterion found the session, so that
  it can be refused what it has found: `AutoMatchmaking.CriteriaPlaceIff` has the exact condition, and
  `AutoMatchmaking.SecondCriterionCanBeRefused` a run. A creator who brings more guests than the new session holds is
  refused too, and the empty session stays registered (`StrandedSessions.StrandedIsReachable`); nobody can ever enter
  it (`StrandedSessions.StrandedForever`).
- The requested length bounds a search exactly when the criteria with ranges of their own come first and their lengths
  add up to no more than it (`SearchLimits.SharedBoundIff`); otherwise a later LIMIT may even wrap
  (`SearchLimits.OwnRangeBreaksTheBound`, after a run of the server).
- A session without participants takes up a place on the page and is dropped only afterwards, so that a match can be
  missed behind it (a run in `SearchFinds.EmptySessionIsServed`). `SearchFinds.FindsIff` says exactly when none is, for
  every order and every offset.
- The handlers that search by criteria check passwords but not whether a session is open, so they lead into closed
  sessions (`Admission.ClosedIsEntered`), unless all criteria exclude these (`Admission.LockedIsExcluded`); nothing
  else does (`Admission.StepAdmits`).
- Criteria of fewer than two attributes panic with some orders, exactly those that `SearchCriteria.CompileCriterion`
  reports as out of range.
- A batch of ratings or of uploads stops at its first error and keeps what came before, also when it was sent as
  transactional (`DataStore.BatchChangesNothingIff`). A rating of a slot that was never initialised is lost.
- Two statements make up an import, so an automatic insert between them can fail (`DataIds.AutomaticIdCollidesIff`).
- Completing an attached file asks for no owner. This cannot bring a deleted object back
  (`DataStoreWrites.AvailabilityIsOneWay`).
- The check that a community exists before a participation in it is counted never fails, because the look-up turns
  every error into success (get_persistent_gathering_by_id.go, lines 75-77); the model counts without it.

## Model

| member | source | states |
|---|---|---|
| `ParticipantLists.RemoveDuplicates` | nex-protocols-common-go-patch/globals/utils.go:24-35 | the result has exactly the values of the input, each once, in the order of their first occurrences |
| `ParticipantLists.FirstOccurrencesMeaning` | nex-protocols-common-go-patch/globals/utils.go:24-35 | deduplication keeps the same set of values, repeats none, and keeps the first value first |
| `ParticipantLists.WithoutMultiset` | nex-protocols-common-go-patch/match-making/database/remove_participant_from_gathering.go:12-24 | removal sets one multiplicity to zero and leaves every other multiplicity as it was |
| `MatchmakingManager.Manager.FindGatheringByID` | nex-protocols-common-go-patch/match-making/database/find_gathering_by_id.go:15-49 | finds a gathering exactly when its row exists and is registered |
| `MatchmakingManager.Manager.RemoveParticipantFromGathering` | nex-protocols-common-go-patch/match-making/database/remove_participant_from_gathering.go:12-24 | all copies of the participant leave the stored list, which is returned; a missing row is SessionVoid |
| `MatchmakingManager.Manager.UnregisterGathering` | nex-protocols-common-go-patch/match-making/database/unregister_gathering.go:11-32 | clears `registered` of one row and logs it; a missing row is SessionVoid |
| `MatchmakingManager.Manager.WriteSessionHost` | nex-protocols-common-go-patch/match-making/database/update_session_host.go:10-26 | sets owner and host of one row and nothing else |
| `MatchmakingManager.Manager.MigrateGatheringOwnership` | nex-protocols-common-go-patch/match-making/database/migrate_gathering_ownership.go:14-75 | the new owner is the first remaining participant who is not the owner; the gathering is unregistered instead exactly when there is none or that participant is PID 0 |
| `MatchmakingManager.Manager.EndGatheringParticipation` | nex-protocols-common-go-patch/match-making/database/end_gathering_participation.go:16-126 | row, log and error after a leave: list without the player, then unregistered, handed over or only shortened by flags and ownership |
| `MatchmakingManager.Manager.DisconnectParticipant` | nex-protocols-common-go-patch/match-making/database/disconnect_participant.go:16-165 | goes once through every registered gathering of the player, in some order, and ends up with the departures of exactly the rows that are not skipped |
| `MatchmakingManager.Manager.DisconnectFromRow` | nex-protocols-common-go-patch/match-making/database/disconnect_participant.go:49-140 | one row: skipped, only shortened, unregistered or handed over |
| `MatchmakingManager.Manager.RegisterGathering` | nex-protocols-common-go-patch/match-making/database/register_gathering.go:12-68 | a new row under the next ID, registered and empty, and its log entry; a limit that does not fit its column fails and changes nothing |
| `MatchmakingManager.Manager.JoinGathering` | nex-protocols-common-go-patch/match-making/database/join_gathering.go:19-124 | full, already joined, or the guests put in front of the list, logged, and the new length |
| `MatchmakingManager.Manager.JoinGatheringWithParticipants` | nex-protocols-common-go-patch/match-making/database/join_gathering_with_participants.go:19-141 | full, not joined, already joined, or caller and extra participants appended, logged, and the new length |
| `MatchmakingManager.Manager.EndMatchmakeSessionsParticipation` | nex-protocols-common-go-patch/matchmake-extension/database/end_matchmake_sessions_participation.go:10-29 | leaves every session that lists the player, each once, in some order |
| `MatchmakingManager.Manager.UpdatePersistentGatheringParticipationCount` | nex-protocols-common-go-patch/matchmake-extension/database/update_persistent_gathering_participation_count.go:10-30 | the counter of one user in one community goes up by one and is returned |
| `MatchmakingManager.Manager.JoinMatchmakeSession` | nex-protocols-common-go-patch/matchmake-extension/database/join_matchmake_session.go:13-42 | a join that also counts the player in the community of its session; the look-up in between never reports an error |
| `MatchmakingManager.Manager.JoinMatchmakeSessionWithParticipants` | nex-protocols-common-go-patch/matchmake-extension/database/join_matchmake_session_with_participants.go:14-47 | the join with extra participants counts each of them and the caller |
| `MatchmakingManager.Manager.CreateMatchmakeSession` | nex-protocols-common-go-patch/matchmake-extension/database/create_matchmake_session.go:15-100 | a registered gathering with its session row |
| `MatchmakingManager.Manager.CheckGatheringForParticipation` | nex-protocols-common-go-patch/matchmake-extension/database/check_gathering_for_participation.go:13-26 | refuses exactly when the gathering is not registered or somebody on the list is not in it |
| `MatchmakingManager.Manager.GetMatchmakeSessionByID` | nex-protocols-common-go-patch/matchmake-extension/database/get_matchmake_session_by_id.go:15-107 | finds registered sessions that have participants |
| `MatchmakingManager.Manager.FindMatchmakeSession` | nex-protocols-common-go-patch/matchmake-extension/database/find_matchmake_session.go:15-145 | the answer matches the search and no match is closer in attribute 1; there is none exactly when nothing matches |
| `MatchmakingManager.Manager.OnCreateMatchmakeSession` | nex-protocols-common-go-patch/matchmake-extension/create_matchmake_session.go:12-85 | leave all, create, join: tables and result on every path |
| `MatchmakingManager.Manager.OnCreateMatchmakeSessionWithParam` | nex-protocols-common-go-patch/matchmake-extension/create_matchmake_session_with_param.go:13-80 | participation check, leave all, create, join with extra participants |
| `MatchmakingManager.Manager.OnJoinMatchmakeSessionEx` | nex-protocols-common-go-patch/matchmake-extension/join_matchmake_session_ex.go:11-78 | password or closed sessions are refused, others joined with guests |
| `MatchmakingManager.Manager.OnJoinMatchmakeSessionWithParam` | nex-protocols-common-go-patch/matchmake-extension/join_matchmake_session_with_param.go:12-90 | the order of the guards, and the join with extra participants behind them |
| `MatchmakingManager.Manager.OnAutoMatchmakePostpone` | nex-protocols-common-go-patch/matchmake-extension/auto_matchmake_postpone.go:12-99 | leave all, search on what is left, then join the closest match or create and join |
| `MatchmakingManager.Manager.OnAutoMatchmakeWithSearchCriteriaPostpone` | nex-protocols-common-go-patch/matchmake-extension/auto_matchmake_with_search_criteria_postpone.go:18-134 | as above with criteria: canonical game mode, password refusal, guests of the first criterion |
| `MatchmakingManager.Manager.OnAutoMatchmakeWithParamPostpone` | nex-protocols-common-go-patch/matchmake-extension/auto_matchmake_with_param_postpone.go:13-105 | as above with extra participants |
| `MatchmakingManager.Manager.OnCreateCommunity` | nex-protocols-common-go-patch/matchmake-extension/create_community.go:13-69 | creation limit, a gathering without a host, and its creator as first participant |
| `MatchmakingManager.Manager.OnEndParticipation` | nex-protocols-common-go-patch/match-making-ext/end_participation.go:11-52 | message limit, then the leave |
| `MatchmakingManager.Manager.OnUpdateSessionHost` | nex-protocols-common-go-patch/match-making/update_session_host.go:16-102 | a participant becomes host, and owner too if asked for and the flag permits it |
| `MatchmakingManager.Manager.OnUpdateSessionHostV1` | nex-protocols-common-go-patch/match-making/update_session_host_v1.go:16-98 | a participant becomes host, and owner too if the flag permits it |
| `MatchmakingManager.Manager.OnUpdateSessionURL` | nex-protocols-common-go-patch/match-making/update_session_url.go:14-70 | a participant becomes host |
| `MatchmakingManager.Manager.OnUnregisterGathering` | nex-protocols-common-go-patch/match-making/unregister_gathering.go:13-70 | only the owner ends a gathering |
| `MatchmakingManager.Manager.OnSetParticipation` | nex-protocols-common-go-patch/matchmake-extension/open_participation.go:11-51 | only the owner opens (or, in the twin handler, closes) a session |
| `MatchmakingManager.Manager.OnModifyCurrentGameAttribute` | nex-protocols-common-go-patch/matchmake-extension/modify_current_game_attribute.go:11-58 | only the owner changes an attribute, and only one of the six |
| `MatchmakingManager.Manager.OnUpdateProgressScore` | nex-protocols-common-go-patch/matchmake-extension/update_progress_score.go:11-55 | only the owner changes the progress score, up to 100 |
| `MatchmakingManager.Manager.OnServerStart` | nex-protocols-common-go-patch/matchmake-extension/protocol.go:147-152 | a restart unregisters every session and logs nothing |
| `MatchmakingManager.FirstUniqueIsFirst` | nex-protocols-common-go-patch/match-making/database/migrate_gathering_ownership.go:16-23 | searching the deduplicated list for a successor finds the first one of the full list |
| `DepartureRules.LeaveRule` | nex-protocols-common-go-patch/match-making/database/end_gathering_participation.go:16-102 | a leave, by flags, list, owner and host: refused as SessionVoid or NotParticipated; else unregistered if and only if neither zero-user flag is set and nobody remains, or the owner leaves without DisconnectChangeOwner (or to PID 0); else handed to the first who remains, the host with it; each change logged, nothing else touched |
| `DepartureRules.DisconnectRule` | nex-protocols-common-go-patch/match-making/database/disconnect_participant.go:49-140 | a lost connection, by flags and kind: the player stays exactly with PersistentGathering, or in a community without PersistentGatheringLeaveParticipation; every other row and its log follow the same rule as a leave |
| `DepartureRules.HandedOnToTheLast` | nex-protocols-common-go-patch/match-making/database/end_gathering_participation.go:47-75 | over every run, a gathering with DisconnectChangeOwner ends only deserted, or because its owner or a restart asks for it |
| `DepartureRules.EndRule` | nex-protocols-common-go-patch/match-making-ext/end_participation.go:11-52 | messages over 256 characters are refused, others leave |
| `HandlerRules.JoinRule` | nex-protocols-common-go-patch/match-making/database/join_gathering.go:22-124 | accepted if and only if there is room (a limit of 0 is none) and the caller is not in; which error each refusal gives; the guests in front of the old list, logged, nothing else touched |
| `HandlerRules.JoinWithRule` | nex-protocols-common-go-patch/match-making/database/join_gathering_with_participants.go:33-141 | accepted if and only if the list with everybody fits the limit and the caller is in or not as it says; which error each refusal gives; old list, caller, extra participants in this order |
| `HandlerRules.CountRule` | nex-protocols-common-go-patch/matchmake-extension/database/join_matchmake_session.go:19-39 | a join into a session of system type 5 counts its player in the community of attribute 0, others count nobody |
| `HandlerRules.CountWithRule` | nex-protocols-common-go-patch/matchmake-extension/database/join_matchmake_session_with_participants.go:21-42 | with extra participants everybody named is counted, as often as named, and logged in that order |
| `HandlerRules.RequestRule` | nex-protocols-common-go-patch/globals/utils.go:38-79 | the limits of a valid request, and the columns of the request that a session carries |
| `HandlerRules.CreationRule` | nex-protocols-common-go-patch/matchmake-extension/database/create_matchmake_session.go:15-100 | row, session row and entry of a new session; refused if and only if a limit does not fit its column |
| `HandlerRules.CreateAndJoinRule` | nex-protocols-common-go-patch/matchmake-extension/create_matchmake_session.go:45-61 | creator and guests are in, or the session stays behind empty when they are more than its limit |
| `HandlerRules.CreateSessionRule` | nex-protocols-common-go-patch/matchmake-extension/create_matchmake_session.go:12-61 | refusals before and after leaving, then creating and joining |
| `HandlerRules.CheckRule` | nex-protocols-common-go-patch/matchmake-extension/database/check_gathering_for_participation.go:13-26 | passes if and only if the gathering is registered and everybody named is in it |
| `HandlerRules.CreateWithParamRule` | nex-protocols-common-go-patch/matchmake-extension/create_matchmake_session_with_param.go:13-80 | the participation check before leaving; then creator and extra participants are in, or the session stays behind empty |
| `HandlerRules.GetRule` | nex-protocols-common-go-patch/matchmake-extension/database/get_matchmake_session_by_id.go:15-107 | found if and only if registered, a session and with participants |
| `HandlerRules.JoinSessionRule` | nex-protocols-common-go-patch/matchmake-extension/join_matchmake_session_ex.go:11-78 | a password of either kind or a closed session keeps the caller out |
| `HandlerRules.JoinWithParamRule` | nex-protocols-common-go-patch/matchmake-extension/join_matchmake_session_with_param.go:12-90 | participation check, then the passwords that are set, then whether the session is open |
| `HandlerRules.AutoWithParamRule` | nex-protocols-common-go-patch/matchmake-extension/auto_matchmake_with_param_postpone.go:13-105 | each refusal, and which session is joined or created |
| `HandlerRules.AutoWithCriteriaRule` | nex-protocols-common-go-patch/matchmake-extension/auto_matchmake_with_search_criteria_postpone.go:18-134 | each refusal, and which session is joined or created, with the guests of the first criterion |
| `HandlerRules.HostRule` | nex-protocols-common-go-patch/match-making/update_session_host.go:37-71 | participants only; host and, when asked for and permitted, owner are the caller, logged, nothing else touched; likewise for the two variants |
| `HandlerRules.UnregisterRule` | nex-protocols-common-go-patch/match-making/unregister_gathering.go:13-70 | only the owner; the row is unregistered and logged |
| `HandlerRules.SessionChangeRule` | nex-protocols-common-go-patch/matchmake-extension/modify_current_game_attribute.go:11-58 | only the owner; exactly the column asked for changes |
| `HandlerRules.CommunityRule` | nex-protocols-common-go-patch/matchmake-extension/create_community.go:13-69 | refused if and only if invalid, at the creation limit, or too wide; else a community without host whose creator is in it |
| `HandlerRules.RestartRule` | nex-protocols-common-go-patch/matchmake-extension/protocol.go:147-152 | all sessions and nothing but sessions are unregistered |
| `Moves.MoveKeepsGood` | nex-protocols-common-go-patch/match-making/database/end_gathering_participation.go:27-102 | every primitive change of the tables keeps well-formedness, limits, and owner and host inside |
| `Moves.DepartureStaysInside` | nex-protocols-common-go-patch/match-making/database/end_gathering_participation.go:38-80 | after a departure owner and host are still participants, if they were before |
| `Moves.DepartureBreaksIff` | nex-protocols-common-go-patch/match-making/database/end_gathering_participation.go:38-80 | a departure moves owner or host outside if and only if PID 0 owns the gathering and its host leaves it to others |
| `Moves.OwnerZeroKeepsDepartedHost` | nex-protocols-common-go-patch/match-making/database/end_gathering_participation.go:77-80 | the smallest input: with owner PID 0 a departed player stays host |
| `Handlers.HandlerIsRun` | nex-protocols-common-go-patch/matchmake-extension/auto_matchmake_postpone.go:30-78 | every handler, on every path, is a finite run of primitive changes |
| `Handlers.ServiceIsRun` | nex-protocols-common-go-patch/matchmake-extension/auto_matchmake_postpone.go:30-78 | every sequence of requests, each under the mutex, is a run of primitive changes |
| `MatchmakingServer.Serve` | nex-protocols-common-go-patch/match-making/protocol.go:159-171 | any request to the manager object is one step of the transition system |
| `MatchmakingServer.ServeAll` | nex-protocols-common-go-patch/match-making/protocol.go:159-171 | from empty tables, any sequence of requests leaves the object in the state the transition system reaches, and that state is good |
| `RunInvariants.ReachableIsGood` | nex-protocols-common-go-patch/match-making/database/register_gathering.go:12-68 | the invariants hold in every reachable state |
| `RunInvariants.OwnerAndHostStayInside` | nex-protocols-common-go-patch/match-making/database/end_gathering_participation.go:38-80 | in every reachable state a registered, non-empty gathering without the two zero-user flags has its owner inside, and its host inside or nobody |
| `RunInvariants.CapacityIsKept` | nex-protocols-common-go-patch/match-making/database/join_gathering.go:39-43 | in every reachable state a gathering with a limit holds no more entries than its limit |
| `RunInvariants.JoinReportsLength` | nex-protocols-common-go-patch/match-making/database/join_gathering.go:39-124 | an accepted join adds only the copies of the caller and reports the length, exactly while that fits into uint32; a limit is kept, and then it always fits |
| `RunInvariants.JoinWithReportsLength` | nex-protocols-common-go-patch/match-making/database/join_gathering_with_participants.go:33-141 | an accepted join adds exactly the newcomers and reports the length, exactly while that fits into uint32; with a limit and a list that fits into a message it always does, and the limit is kept |
| `RunInvariants.JoinWithKeepsLimitIff` | nex-protocols-common-go-patch/match-making/database/join_gathering_with_participants.go:33-35 | an accepted join has kept the limit if and only if the size did not wrap in uint32 |
| `RunInvariants.WideListBreaksLimit` | nex-protocols-common-go-patch/match-making/database/join_gathering_with_participants.go:33-35 | the input that breaks it: 2^32 - 1 extra participants enter a session for one |
| `RunInvariants.ZeroLimitIsFullIff` | nex-protocols-common-go-patch/match-making/database/join_gathering_with_participants.go:33-35 | at a limit of 0 the plain join is never full; the one with extra participants is full if and only if the size does not wrap to 0 in uint32 |
| `SmallRuns.JoinsDisagreeAboutZero` | nex-protocols-common-go-patch/match-making/database/join_gathering.go:39-43 | a run after which one join lets a visitor in and the other finds the session full |
| `RunInvariants.UnregisteredIsFinal` | nex-protocols-common-go-patch/match-making/database/find_gathering_by_id.go:15-49 | under any further requests an unregistered row never changes |
| `RunInvariants.OwnerIsStable` | nex-protocols-common-go-patch/match-making/update_session_host.go:37-71 | without DisconnectChangeOwner and ParticipantsChangeOwner the owner never changes, under any requests |
| `RunInvariants.CommunityCountsAreGapless` | nex-protocols-common-go-patch/matchmake-extension/database/join_matchmake_session_with_participants.go:21-42 | over every run the counts logged for a user in a community are 1, 2, ..., n, with n the stored counter |
| `AuditLog.LogReplaysToTable` | nex-protocols-common-go-patch/match-making/database/end_gathering_participation.go:27-102 | over every run the log alone gives back owner, host, list, multiset of participants and registration of every row, with chained changes; unregistered exactly when one entry says so or a restart swept the row |
| `AuditLog.RestartIsNotLogged` | nex-protocols-common-go-patch/matchmake-extension/protocol.go:147-152 | a run after which a row is unregistered with no entry that says so |
| `AuditLog.DepartureIsRead` | nex-protocols-common-go-patch/match-making/database/end_gathering_participation.go:32-102 | the entries of one departure, read in order, turn the old row into the new one |
| `AuditLog.MoveKeepsExplained` | nex-protocols-common-go-patch/matchmake-extension/protocol.go:147-152 | each primitive change keeps log and table in agreement, except for the rows a restart sweeps up, which are exactly accounted for |
| `Departures.DisconnectingEqualsLeaving` | nex-protocols-common-go-patch/match-making/database/disconnect_participant.go:19-140 | the two versions of "a player goes away" agree on all tables, for any order of the rows on either side |
| `Departures.DisconnectLeavesOnlySkipped` | nex-protocols-common-go-patch/match-making/database/disconnect_participant.go:19-58 | rows that are skipped or of others are untouched; the player is gone from all the rest |
| `Departures.DisconnectLogsDepartures` | nex-protocols-common-go-patch/match-making/database/disconnect_participant.go:63-140 | per gathering, the log gets one departure or nothing, whatever the order of the rows |
| `Departures.LeaveEachRow` | nex-protocols-common-go-patch/matchmake-extension/database/end_matchmake_sessions_participation.go:10-29 | leaving a list of gatherings changes each of the player's registered rows on it once, as a departure, and no other row |
| `Departures.OthersAreUnaffected` | nex-protocols-common-go-patch/match-making/database/remove_participant_from_gathering.go:12-24 | order and multiplicity of everybody else are what they would be if the player had never joined or left |
| `Departures.LeaveUndoesJoin` | nex-protocols-common-go-patch/match-making/database/join_gathering.go:45-59 | k copies joined and then removed restore the list exactly, with any joins and leaves of others in between |
| `Departures.JoinThenLeaveOnTables` | nex-protocols-common-go-patch/match-making/database/join_gathering.go:45-59 | the same for runs of changes to the tables |
| `Departures.GuestLeavesNoTrace` | nex-protocols-common-go-patch/match-making/database/end_gathering_participation.go:27-102 | a join and a leave of a player who neither owns nor hosts give back the whole gatherings table |
| `AutoMatchmaking.LeavingLeavesNone` | nex-protocols-common-go-patch/matchmake-extension/database/end_matchmake_sessions_participation.go:10-29 | after leaving, the caller is in no registered session, and everything else is untouched |
| `AutoMatchmaking.AutoMatchmakeAlwaysPlaces` | nex-protocols-common-go-patch/matchmake-extension/auto_matchmake_postpone.go:34-76 | a valid request succeeds if and only if the limits it asks for fit their columns; the caller is then in exactly one session, with the game mode, system type, codeword, attributes and limits it asked for; a new one is created only if none suited |
| `AutoMatchmaking.WideLimitIsRefused` | nex-protocols-common-go-patch/match-making/database/register_gathering.go:12-68 | the input that is refused: a limit of 2^31 |
| `AutoMatchmaking.InvalidRequestStillLeaves` | nex-protocols-common-go-patch/matchmake-extension/auto_matchmake_postpone.go:34-49 | an invalid request still ends every participation of the caller |
| `AutoMatchmaking.FoundOrCreatedPlaces` | nex-protocols-common-go-patch/matchmake-extension/auto_matchmake_postpone.go:59-76 | joining the found or created session: accepted if and only if there is room (and, when created, it can be stored); what a refusal leaves behind |
| `AutoMatchmaking.CriteriaPlaceIff` | nex-protocols-common-go-patch/matchmake-extension/auto_matchmake_with_search_criteria_postpone.go:44-108 | exactly when the variant with criteria lets a valid request in |
| `AutoMatchmaking.AnswersAreFindable` | nex-protocols-common-go-patch/matchmake-extension/database/find_matchmake_session_by_search_criteria.go:62-74 | what the search returns first is a registered session with participants |
| `AutoMatchmaking.CriteriaAreEnough` | nex-protocols-common-go-patch/matchmake-extension/auto_matchmake_with_search_criteria_postpone.go:87-102 | what a client can arrange: if every criterion excludes passwords and asks for at least the room of the first, what is found is never refused |
| `AutoMatchmaking.OneCriterionIsEnough` | nex-protocols-common-go-patch/matchmake-extension/auto_matchmake_with_search_criteria_postpone.go:87-102 | with a single criterion that asks for room and excludes passwords, what is found is never refused |
| `AutoMatchmaking.SecondCriterionCanBeRefused` | nex-protocols-common-go-patch/matchmake-extension/auto_matchmake_with_search_criteria_postpone.go:97-102 | with two it can be: after a run that creates one session for two, a visitor whose second criterion finds it is answered SessionFull for the guests of the first |
| `MatchmakingSpec.CanonicalClearsRegionBits` | nex-protocols-common-go-patch/matchmake-extension/auto_matchmake_with_search_criteria_postpone.go:12-16 | the arithmetic form of the canonical game mode is the bit mask of the source |
| `AutoMatchmaking.CanonicalModesAgreeIff` | nex-protocols-common-go-patch/matchmake-extension/auto_matchmake_with_search_criteria_postpone.go:12-16 | canonical game modes agree if and only if the requested ones do outside the region bits; the step is idempotent |
| `StrandedSessions.StepPassesStranded` | nex-protocols-common-go-patch/matchmake-extension/auto_matchmake_with_search_criteria_postpone.go:79-106 | no request brings anybody into a session whose creator was refused |
| `StrandedSessions.StrandedIsReachable` | nex-protocols-common-go-patch/matchmake-extension/create_matchmake_session.go:30-60 | a run that leaves such a session: its creator brings more guests than it holds |
| `StrandedSessions.StrandedForever` | nex-protocols-common-go-patch/matchmake-extension/auto_matchmake_with_search_criteria_postpone.go:79-106 | over every run such a session stays empty; it can only be unregistered |
| `Admission.StepFollows` | nex-protocols-common-go-patch/matchmake-extension/auto_matchmake_postpone.go:34-76 | whatever the request, on every gathering that exists: nobody comes in, and a gathering without participants is at most unregistered; or there were participants and everybody new is admitted |
| `Admission.StepAdmits` | nex-protocols-common-go-patch/matchmake-extension/join_matchmake_session_with_param.go:39-62 | whoever gets into an existing session is the caller or named by it; into one with a password only by name and with the password, into a closed one only through a search by criteria |
| `Admission.PasswordGuards` | nex-protocols-common-go-patch/matchmake-extension/join_matchmake_session_with_param.go:39-62 | over every run, whoever is in a session with a password and once was not has been brought in by somebody who knew the password |
| `Admission.StepKeepsGuard` | nex-protocols-common-go-patch/matchmake-extension/protocol.go:163-203 | no request changes the password of a session |
| `Admission.LockedIsExcluded` | nex-protocols-common-go-patch/matchmake-extension/database/find_matchmake_session_by_search_criteria.go:71-71 | criteria that exclude locked sessions find open ones only |
| `Admission.ClosedIsEntered` | nex-protocols-common-go-patch/matchmake-extension/auto_matchmake_with_search_criteria_postpone.go:87-106 | others are a way in: a run after which a visitor enters a closed session |
| `SearchRules.ExampleRule` | nex-protocols-common-go-patch/matchmake-extension/database/find_matchmake_session.go:52-70 | the answer has every column that was asked for and no session that has them is nearer in attribute 1; none is found only if none has them |
| `SearchRules.AcceptedRule` | nex-protocols-common-go-patch/matchmake-extension/database/find_matchmake_session_by_search_criteria.go:64-220 | the sessions that a criterion accepts, column by column |
| `SearchRules.PartRule` | nex-protocols-common-go-patch/matchmake-extension/database/find_matchmake_session_by_search_criteria.go:83-108 | an empty part admits anything, a printed number that number, two with a comma what lies between them, ends included |
| `SearchRules.SkipRule` | nex-protocols-common-go-patch/matchmake-extension/database/find_matchmake_session_by_search_criteria.go:111-114 | which criteria are passed over, and which panic |
| `SearchRules.SliceRule` | nex-protocols-common-go-patch/matchmake-extension/database/find_matchmake_session_by_search_criteria.go:279-287 | limit and offset of a criterion, from its own range or the shared one |
| `SearchRules.NearestRule` | nex-protocols-common-go-patch/matchmake-extension/database/find_matchmake_session_by_search_criteria.go:226-245 | nearest neighbour and broadening range: ascending distance in attribute 1, and a first page leaves off nobody who is nearer than one on it |
| `SearchRules.ProgressRule` | nex-protocols-common-go-patch/matchmake-extension/database/find_matchmake_session_by_search_criteria.go:246-254 | progress score: the same by distance from the caller's score |
| `SearchRules.CombinedRule` | nex-protocols-common-go-patch/matchmake-extension/database/find_matchmake_session_by_search_criteria.go:255-274 | both: the same by distance of the sums |
| `Decimals.ParseUint` | nex-protocols-common-go-patch/matchmake-extension/database/find_matchmake_session_by_search_criteria.go:86-104 | accepts exactly the decimal numerals below the bound and returns the number they denote |
| `Decimals.Decimal` | nex-protocols-common-go-patch/matchmake-extension/database/find_matchmake_session_by_search_criteria.go:98-106 | a printed number is a numeral of that number |
| `Decimals.CutIsUnique` | nex-protocols-common-go-patch/matchmake-extension/database/find_matchmake_session_by_search_criteria.go:84-84 | a text has one division at its first comma |
| `SearchCriteria.CompilePart` | nex-protocols-common-go-patch/matchmake-extension/database/find_matchmake_session_by_search_criteria.go:83-108 | a part compiles exactly when it is well-formed, and then its clause holds exactly when the part, read directly, admits the value |
| `SearchCriteria.CompileFilters` | nex-protocols-common-go-patch/matchmake-extension/database/find_matchmake_session_by_search_criteria.go:76-220 | all filter parts of a criterion together, in the order they are tried |
| `SearchCriteria.CompileCriterion` | nex-protocols-common-go-patch/matchmake-extension/database/find_matchmake_session_by_search_criteria.go:76-277 | the query selects a session if and only if the criterion accepts it; a criterion is passed over if and only if a part is malformed or its source is missing; it panics if and only if its order reads an attribute it lacks |
| `SearchCriteria.Execute` | nex-protocols-common-go-patch/matchmake-extension/database/find_matchmake_session_by_search_criteria.go:289-301 | the database's side: a page of the selected rows in an order that ORDER BY allows |
| `SearchCriteria.ScanRows` | nex-protocols-common-go-patch/matchmake-extension/database/find_matchmake_session_by_search_criteria.go:303-354 | rows without participants are dropped, the others kept in order |
| `SearchCriteria.FindMatchmakeSessionBySearchCriteria` | nex-protocols-common-go-patch/matchmake-extension/database/find_matchmake_session_by_search_criteria.go:19-360 | the result is the concatenation of what each criterion contributes under the limit the ones before it leave |
| `SearchCriteria.ResultsAreAccepted` | nex-protocols-common-go-patch/matchmake-extension/database/find_matchmake_session_by_search_criteria.go:64-220 | every result has participants and is accepted by some criterion |
| `SearchLimits.SharedBoundIff` | nex-protocols-common-go-patch/matchmake-extension/database/find_matchmake_session_by_search_criteria.go:281-287 | the shared limit bounds the total, for every table (and likewise for every table the server can reach) and all criteria with these ranges, if and only if the ranges of their own come first and together do not exceed the requested length |
| `SearchLimits.FittingRangesKeepTheBound` | nex-protocols-common-go-patch/matchmake-extension/database/find_matchmake_session_by_search_criteria.go:281-287 | with ranges that fit together the total is at most the requested length, and criteria with ranges of their own keep to these |
| `SearchLimits.FullRun` | nex-protocols-common-go-patch/matchmake-extension/database/find_matchmake_session_by_search_criteria.go:281-287 | for any list of ranges, a search of a large table that returns all it may: more than requested if the ranges do not fit together |
| `SearchLimits.CrowdIsServed` | nex-protocols-common-go-patch/matchmake-extension/create_matchmake_session.go:28-61 | the server reaches such a table: as many players create a session each |
| `SearchLimits.SharedRangeBound` | nex-protocols-common-go-patch/matchmake-extension/database/find_matchmake_session_by_search_criteria.go:281-287 | if no criterion has a range of its own, the total is at most the requested length |
| `SearchLimits.SharedLimitsNeverWrap` | nex-protocols-common-go-patch/matchmake-extension/database/find_matchmake_session_by_search_criteria.go:281-287 | if the ranges fit together, every shared LIMIT is what is left of the requested length: the subtraction never wraps |
| `SearchLimits.OwnRangeBreaksTheBound` | nex-protocols-common-go-patch/matchmake-extension/database/find_matchmake_session_by_search_criteria.go:281-287 | the smallest input that breaks it, after a run of two creations; the next LIMIT wraps |
| `SearchFinds.FindsIff` | nex-protocols-common-go-patch/matchmake-extension/database/find_matchmake_session_by_search_criteria.go:212-340 | for every order and every offset, something is found on every page the database may give if and only if the page shows more rows of some sort key than there are empty sessions with it |
| `SearchFinds.UnorderedFindsIff` | nex-protocols-common-go-patch/matchmake-extension/database/find_matchmake_session_by_search_criteria.go:212-340 | without an order, something is found on every page the database may give if and only if the empty accepted sessions are fewer than the places, and those with participants more than the offset |
| `SearchFinds.FirstPageFindsIff` | nex-protocols-common-go-patch/matchmake-extension/database/find_matchmake_session_by_search_criteria.go:212-340 | in any order, on the first page: if and only if somebody is accepted, and the empty sessions that may come before everybody are fewer than the places |
| `SearchFinds.RoomyCriterionFinds` | nex-protocols-common-go-patch/matchmake-extension/database/find_matchmake_session_by_search_criteria.go:212-220 | a criterion that asks for room contributes nothing if and only if it accepts no session |
| `SearchFinds.EmptySessionHidesMatch` | nex-protocols-common-go-patch/matchmake-extension/database/find_matchmake_session_by_search_criteria.go:303-340 | tables on which a criterion misses a session it accepts, behind an empty one |
| `SearchFinds.EmptySessionIsServed` | nex-protocols-common-go-patch/matchmake-extension/database/find_matchmake_session_by_search_criteria.go:303-340 | a run that leads to such tables |
| `CourseContainer.Index` | smmdatabase/admin.go:24-27 | the first occurrence from a position on, or none if there is none |
| `CourseContainer.FindStarts` | smmdatabase/admin.go:20-30 | the scan finds all occurrences |
| `CourseContainer.StartsMeaning` | smmdatabase/admin.go:20-30 | all occurrences means: every position that holds the magic number, each once, ascending |
| `CourseContainer.MagicRule` | smmdatabase/admin.go:20-20 | the magic number is the four letters ASH0 |
| `CourseContainer.NoOverlap` | smmdatabase/admin.go:29-29 | occurrences are at least four bytes apart, so that resuming behind one misses none |
| `CourseContainer.NoStraddle` | smmdatabase/admin.go:20-30 | no occurrence straddles a join |
| `CourseContainer.SplitCourseSegments` | smmdatabase/admin.go:19-44 | succeeds exactly on four occurrences, with the pieces between them |
| `CourseContainer.SplitUndoesJoin` | smmdatabase/admin.go:19-44 | segments that begin with the magic number and contain it once come back from their concatenation, whatever their number |
| `CourseContainer.JoinUndoesSplit` | smmdatabase/admin.go:35-43 | what precedes the first occurrence and the pieces make up the file |
| `CourseContainer.SplitsIff` | smmdatabase/admin.go:19-44 | a file splits into given segments if and only if it is their concatenation behind something without the magic number |
| `CourseHeader.WordRule` | smmdatabase/admin.go:384-394 | words are big-endian |
| `CourseHeader.PutUint32` | smmdatabase/admin.go:384-394 | writes the big-endian word at its place and no other word |
| `CourseHeader.CourseGameStyleIndex` | smmdatabase/admin.go:80-98 | succeeds exactly on the four markers at 0x6A, with the marker's position in the style order |
| `CourseHeader.BuildCourseMetaBinary` | smmdatabase/admin.go:371-397 | succeeds exactly on four segments with a known marker; the 44 bytes give style, the constants, and length and checksum of every segment |
| `CourseHeader.DecodeIsInjective` | smmdatabase/admin.go:383-394 | what a client reads from the header fixes all 44 bytes |
| `CourseHeader.WordsDetermineBytes` | smmdatabase/admin.go:383-394 | eleven words fix all 44 bytes |
| `CourseHeader.LengthsAddUpIff` | smmdatabase/admin.go:386-389 | the four lengths add up to the file size if and only if the file begins with the magic number and no segment reaches 2^32 bytes |
| `CourseHeader.ClientRecoversSegments` | smmdatabase/admin.go:356-397 | slicing the file by the header gives the segments, each with its checksum |
| `CourseHeader.CourseRoundTrip` | smmdatabase/admin.go:366-397 | four segments laid end to end come back from the file and its header |
| `CourseHeader.ExtractCourseThumbnailJPEG` | smmdatabase/admin.go:120-144 | the picture inside the first segment, or nothing |
| `CourseHeader.PictureRoundTrip` | smmdatabase/admin.go:113-143 | the picture laid out in a thumbnail comes back if and only if it looks like a JPEG |
| `DataIds.AutomaticIdCollidesIff` | smmdatabase/admin.go:425-458 | under any interleaving of statements the next automatic DataID is taken if and only if an import has inserted it and not yet moved the sequence |
| `DataIds.AutomaticIdsAreUnique` | smmdatabase/connect.go:55-67 | an automatic DataID is never given out twice |
| `DataIds.StatementsKeepAhead` | smmdatabase/admin.go:441-443 | every DataID in the table is below the start, above the maximum, behind the sequence, or of an import under way |
| `DataIds.ImportUnderWayCollides` | smmdatabase/admin.go:426-443 | the interleaving that collides |
| `DataStoreWrites.RecordIsFold` | smmdatabase/smm_specific.go:17-38 | over any run a course record is the fold of the accepted uploads to its slot |
| `DataStoreWrites.BestIsEarliestBest` | smmdatabase/smm_specific.go:17-38 | that fold: minimum score; holder and update time of the earliest upload that attains it; founder and creation time of the first upload |
| `DataStoreWrites.BestScoreIgnoresOrder` | smmdatabase/smm_specific.go:17-38 | the best score does not depend on the order of uploads |
| `DataStoreWrites.RecordFallsIff` | smmdatabase/smm_specific.go:27-30 | a standing record falls if and only if some upload is strictly better |
| `DataStoreWrites.ScoresAddUp` | smmdatabase/smm_specific.go:186-201 | over any run a custom ranking grows by exactly the sum of the accepted scores |
| `DataStoreWrites.RatingsAddUp` | smmdatabase/generic_datastore.go:229-245 | over any run an initialised slot counts and sums its ratings; one that is not loses them all |
| `DataStoreWrites.QueueIsLastTouch` | smmdatabase/smm_specific.go:136-181 | with a forward clock a slot reads as the fold "remove if present, append" over its additions |
| `BufferQueues.LastTouchMembers` | smmdatabase/smm_specific.go:143-148 | that fold lists every buffer added, once |
| `BufferQueues.LastTouchOrder` | smmdatabase/smm_specific.go:143-163 | and orders the buffers by their most recent additions |
| `BufferQueues.ReadingIsUnique` | smmdatabase/smm_specific.go:163-178 | with distinct dates the order of a reading leaves no choice |
| `DataStoreWrites.FlagsOnlyRise` | smmdatabase/generic_datastore.go:17-33 | over any run upload and deletion flags never go back, and nothing puts an object under review |
| `DataStoreWrites.AvailabilityIsOneWay` | smmdatabase/generic_datastore.go:17-33 | what was available and is not any more never is again |
| `DataStoreWrites.DeletedIsFrozen` | smmdatabase/generic_datastore.go:247-254 | after its deletion no client request changes an object's records, rankings, ratings or buffers |
| `DataStoreWrites.WritesKeepIdsAhead` | smmdatabase/admin.go:441-443 | with insert and bump as one step no DataID in the table is within reach of the sequence |
| `DataStoreRules.UnavailableRule` | smmdatabase/generic_datastore.go:17-33 | usable means uploaded, not deleted, not under review; which error each of the others gives |
| `DataStoreRules.PermissionRule` | nex-protocols-common-go-patch/datastore/protocol.go:70-110 | whom each of the four levels permits, and which error the others get |
| `DataStoreRules.RefusalRule` | nex_smm/datastore_handlers.go:149-162 | ratings ask for access, changes for the permission to delete, buffers for ownership in slot 0 of maker objects |
| `DataStoreRules.CompleteRule` | nex-protocols-common-go-patch/datastore/complete_post_objects.go:42-60 | complete means stored with the announced size |
| `DataStoreRules.ScoresRule` | nex_smm/datastore_handlers.go:78-80 | scores are handled one by one, in order |
| `DataStoreRules.RankedRule` | smmdatabase/smm_specific.go:206-237 | rankings come in the order and as often as asked for |
| `DataStoreRules.RankingRule` | smmdatabase/smm_specific.go:219-236 | exactly usable objects with a ranking that is a uint32 are shown |
| `DataStoreRules.BatchRule` | nex-protocols-common-go-patch/datastore/rate_objects.go:43-68 | a batch adds every value to its own slot |
| `DataStoreRules.AnswersRule` | nex-protocols-common-go-patch/datastore/rate_objects.go:59-67 | and answers with each slot as it is right after its turn |
| `DataStoreRules.SequenceRule` | smmdatabase/connect.go:55-60 | where the sequence starts and ends, and how an import moves it |
| `DataStore.DataStore.IsObjectAvailable` | smmdatabase/generic_datastore.go:17-33 | no error exactly when uploaded, not deleted and not under review; NotFound before UnderReviewing |
| `DataStore.DataStore.InsertObject` | smmdatabase/generic_datastore.go:191-210 | an insert without ID takes the next DataID, never one in the table |
| `DataStore.DataStore.PreparePostObject` | nex-protocols-common-go-patch/datastore/prepare_post_object.go:38-56 | a new object that is not uploaded yet, with its rating slots |
| `DataStore.DataStore.CompletePostObject` | nex-protocols-common-go-patch/datastore/complete_post_object.go:12-111 | accepted exactly for the owner of an existing, unavailable object whose stored size agrees; success completes, failure deletes |
| `DataStore.DataStore.CompletePostObjects` | nex-protocols-common-go-patch/datastore/complete_post_objects.go:36-71 | completes the files before the first incomplete one and reports that one's error |
| `DataStore.DataStore.ChangeMeta` | nex-protocols-common-go-patch/datastore/change_meta.go:36-69 | availability, then the permission to delete, then the data type if asked for |
| `DataStore.DataStore.DeleteObject` | nex-protocols-common-go-patch/datastore/delete_object.go:16-19 | always refused: the server does not provide the deletion it needs |
| `CourseServer.ServeAll` | nex_smm/secure.go:139-153 | any sequence of requests only raises the flags of objects; requests of clients alone leave records, rankings, ratings and buffers of deleted objects as they are |
| `CourseServer.WritesFollow` | smmdatabase/generic_datastore.go:17-33 | what a stretch of the history keeps of every object |
| `DataStore.DataStore.CompleteAttachFile` | nex_smm/datastore_handlers.go:253-265 | completes whatever object is named, without asking for its owner |
| `DataStore.DataStore.InsertOrUpdateCourseRecord` | smmdatabase/smm_specific.go:17-38 | refused exactly for unavailable objects; otherwise one upload enters the history |
| `DataStore.DataStore.GetCourseRecord` | smmdatabase/smm_specific.go:40-66 | what is read is the fold of the uploads to the slot |
| `DataStore.DataStore.InsertOrUpdateCustomRanking` | smmdatabase/smm_specific.go:186-201 | refused exactly for unavailable objects; otherwise one score enters the history |
| `DataStore.DataStore.RateCustomRanking` | nex_smm/datastore_handlers.go:73-88 | the scores for usable objects enter the history, the others are passed over |
| `DataStore.DataStore.RateObject` | nex-protocols-common-go-patch/datastore/rate_object.go:30-43 | availability, permission, then the rating |
| `DataStore.DataStore.RateObjects` | nex-protocols-common-go-patch/datastore/rate_objects.go:37-72 | exactly the targets before the first refused one are rated; the answers are each slot right after its turn |
| `DataStore.BatchChangesNothingIff` | nex-protocols-common-go-patch/datastore/rate_objects.go:43-72 | a refused batch has changed nothing if and only if no earlier target has an initialised slot |
| `DataStore.DataStore.RateObjectWithPassword` | smmdatabase/generic_datastore.go:229-245 | a rating of a slot without a row is lost and answered with zero |
| `DataStore.DataStore.InsertOrUpdateBufferQueueData` | smmdatabase/smm_specific.go:136-154 | refused exactly for unavailable objects; otherwise one addition enters the history |
| `DataStore.DataStore.AddToBufferQueues` | nex_smm/datastore_handlers.go:130-182 | exactly the buffers before the first refused one are added |
| `DataStore.DataStore.GetBufferQueue` | smmdatabase/smm_specific.go:156-181 | every buffer of the slot once, by date; with a forward clock in last-touch order |
| `DataStore.DataStore.GetCustomRankingsByDataIDs` | smmdatabase/smm_specific.go:203-240 | in the order asked for, without unusable objects and values that are no uint32 |
| `DataStore.DataStore.AdminImportCourse` | smmdatabase/admin.go:421-472 | AlreadyExists exactly when the explicit DataID is taken; otherwise a fresh DataID, a moved sequence, no stars and seven ratings |
| `DataStore.DataStore.AdminSetCourseRatings` | smmdatabase/admin.go:269-286 | the seven slots are set one after the other |
| `DataStore.DataStore.AdminDeleteCourse` | smmdatabase/admin.go:221-224 | the object is deleted, nothing else changes |
| `DataStore.DataStore.AdminSetCourseRecord` | smmdatabase/admin.go:294-307 | writes a record as it is |
| `DataStore.DataStore.AdminAddStars` | smmdatabase/admin.go:229-236 | adds to the stars, of an unavailable object too |
| `DataStore.DataStore.AdminSetStars` | smmdatabase/admin.go:241-248 | sets the stars |
| `DataStore.DataStore.AdminRegisterCourseAttachFile` | smmdatabase/admin.go:60-71 | a companion object that is uploaded from the start |
| `DataStore.DataStore.EnsureEventCourseMetadataObject` | smmdatabase/event_metadata.go:12-43 | the reserved object is inserted below the sequence, or its size is refreshed |

## Left out

- Notifications: whom the server tells, and what. In the non-verbose case the end of a participation is sent to the
  owner read before a migration, so it need not reach the current one.
- Failures of the database in the middle of a handler, SQL text, and the column widths of IDs and sums: overflowing
  a `bigint` total or an `int` count, PIDs beyond `int` in the course tables, PIDs beyond `numeric(10)` in the log.
- What a Go panic leaves behind when a search reads an attribute that a criterion lacks; the model returns an error.
- Columns that no modelled decision reads: state, policy argument, start time, session key, application buffer,
  matchmake parameter, dates, tags, names. UpdateApplicationBuffer changes only such a column.
- Friends-only sessions: the friends of the caller are a parameter of the search, as is the game server's clean-up.
- The hook by which a game server can forbid joins; its default (open, no password) is part of the handlers.
- CheckValidPersistentGathering depends on the clock; its outcome is a parameter of `OnCreateCommunity`.
- Communities per owner: ownership transfer can exceed the limit, so it is no invariant and is not stated as one.
- The distribution of `ORDER BY RANDOM()`: any order is allowed.
- Decompression of ASH0 data and CRC-32: parameters. Decompression that panics on malformed data is not modelled.
- The handlers of the course server take no lock, so a deletion may fall between the check of availability and the
  write. Requests are modelled one after the other; only DataIDs are modelled statement by statement, and there
  `nextval` with its insert, and the read and write of `setval`, are one step each.
- Access passwords of objects are never set by the server, so the comparison with them is left out.
- Browsing, ranking lists, NAT traversal, station URLs, presigned URLs, login and cryptography, the administration
  and pick-up pages, configuration: plumbing and one-branch facts.
- The tracking tables, one for each kind of entry, are merged into one log in the order of insertion. The server
  keeps that order only through the dates of the entries.
- Handlers.HandlerIsRun: for lists of extra participants shorter than 2^31 and for callers with a nonzero PID, for the reasons
  given above.
- RunInvariants.CapacityIsKept: for runs with lists of extra participants shorter than 2^31, see JoinWithKeepsLimitIff for the rest.
- CourseHeader.ClientRecoversSegments: for files that begin with the magic number and are shorter than 2^32 bytes;
  LengthsAddUpIff says what happens to the others.
- DataStoreWrites.QueueIsLastTouch: for a clock that goes strictly forward; equal dates leave the order to the database.
- DataStoreWrites.RecordIsFold: for slots that no administrator has written; an administrator's record starts a new fold.
- DataStore.VerifyObjectPermission: at level 1, for somebody else than the owner, the server asks for the owner's
  friends through a function that it never provides, and panics. The model answers from a parameter.
- DataStore.DataStore.ChangeMeta: answers from that parameter where the server panics, for others at permission level 1.
- DataStore.DataStore.RateObject: the same.
- DataStore.DataStore.RateObjects: the same.
