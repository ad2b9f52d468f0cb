/**
 The course server: requests of clients and actions of administrators, handed to the tables one at a time. What
 `DataStoreWrites` says about runs of writes holds of the requests.
 */
module CourseServer {
  import opened ParticipantLists
  import opened Tables
  import opened DataIds
  import opened DataStoreTables
  import opened DataStoreWrites
  import opened DataStore

  datatype Request =
    | PreparePostObject(
        p: Pid, size: nat, dataType: nat, permission: Permission, deletePermission: Permission, slots: seq<SlotInit>)
    | CompletePostObject(p: Pid, id: DataId, isSuccess: bool, stored: Option<nat>)
    | CompletePostObjects(files: seq<Stored>)
    | CompleteAttachFile(id: DataId, isSuccess: bool)
    | ChangeMeta(p: Pid, id: DataId, newType: Option<nat>, friends: Pid -> seq<Pid>)
    | DeleteObject(p: Pid, id: DataId)
    | UploadCourseRecord(p: Pid, id: DataId, slot: nat, score: int, now: Time)
    | RateCustomRanking(scores: seq<Target>)
    | RateObjects(p: Pid, targets: seq<Target>, params: nat, friends: Pid -> seq<Pid>, fetchRatings: bool)
    | AddToBufferQueues(p: Pid, keys: seq<Key>, added: seq<Buffer>, times: seq<Time>)
    | AdminImportCourse(p: Pid, size: nat, explicit: DataId)
    | AdminDeleteCourse(id: DataId)
    | AdminAddStars(id: DataId, amount: int)
    | AdminSetStars(id: DataId, value: int)
    | AdminSetCourseRecord(id: DataId, record: Record)
    | AdminSetCourseRatings(id: DataId, values: seq<int>)
    | AdminRegisterCourseAttachFile(p: Pid, size: nat)
    | EnsureEventCourseMetadataObject(size: nat)

  predicate FromClient(r: Request) {
    !(r.AdminImportCourse? || r.AdminDeleteCourse? || r.AdminAddStars? || r.AdminSetStars? || r.AdminSetCourseRecord?
      || r.AdminSetCourseRatings? || r.AdminRegisterCourseAttachFile? || r.EnsureEventCourseMetadataObject?)
  }

  /** Every buffer gets a reading of the clock, and an administrator sets all seven ratings. */
  predicate Complete(r: Request) {
    && (r.AddToBufferQueues? ==> |r.times| >= Min(|r.keys|, |r.added|))
    && (r.AdminSetCourseRatings? ==> |r.values| == RATING_SLOTS)
  }

  predicate ClientWrites(ws: seq<Write>) {
    forall w :: w in ws ==> !IsAdmin(w)
  }

  method ServeObject(store: DataStore, r: Request) returns (ghost ws: seq<Write>)
    requires store.Valid() && Complete(r)
    requires r.PreparePostObject? || r.ChangeMeta? || r.DeleteObject?
    modifies store
    ensures store.Valid() && store.log == old(store.log) + ws && ClientWrites(ws)
  {
    match r {
      case PreparePostObject(p, size, dataType, permission, deletePermission, slots) =>
        var _ := store.PreparePostObject(p, size, dataType, permission, deletePermission, slots);
      case ChangeMeta(p, id, newType, friends) =>
        var _ := store.ChangeMeta(p, id, newType, friends);
      case DeleteObject(p, id) =>
        var _ := store.DeleteObject(p, id);
    }
    ws := store.log[|old(store.log)|..];
  }

  method ServeCompletion(store: DataStore, r: Request) returns (ghost ws: seq<Write>)
    requires store.Valid() && Complete(r)
    requires r.CompletePostObject? || r.CompletePostObjects? || r.CompleteAttachFile?
    modifies store
    ensures store.Valid() && store.log == old(store.log) + ws && ClientWrites(ws)
  {
    match r {
      case CompletePostObject(p, id, isSuccess, stored) =>
        var _ := store.CompletePostObject(p, id, isSuccess, stored);
      case CompletePostObjects(files) =>
        var err;
        ghost var k;
        err, k := store.CompletePostObjects(files);
      case CompleteAttachFile(id, isSuccess) =>
        var _ := store.CompleteAttachFile(id, isSuccess);
    }
    ws := store.log[|old(store.log)|..];
  }

  method ServePlay(store: DataStore, r: Request) returns (ghost ws: seq<Write>)
    requires store.Valid() && Complete(r)
    requires r.UploadCourseRecord? || r.RateCustomRanking?
    modifies store
    ensures store.Valid() && store.log == old(store.log) + ws && ClientWrites(ws)
  {
    match r {
      case UploadCourseRecord(p, id, slot, score, now) =>
        var _ := store.InsertOrUpdateCourseRecord(id, slot, p, score, now);
      case RateCustomRanking(scores) =>
        store.RateCustomRanking(scores);
    }
    ws := store.log[|old(store.log)|..];
  }

  method ServeBatch(store: DataStore, r: Request) returns (ghost ws: seq<Write>)
    requires store.Valid() && Complete(r)
    requires r.RateObjects? || r.AddToBufferQueues?
    modifies store
    ensures store.Valid() && store.log == old(store.log) + ws && ClientWrites(ws)
  {
    ghost var k;
    if r.RateObjects? {
      var err, ratings;
      err, ratings, k := store.RateObjects(r.p, r.targets, r.params, r.friends, r.fetchRatings);
      ws := Ratings(r.targets[..k]);
    } else {
      var err;
      err, k := store.AddToBufferQueues(r.p, r.keys, r.added, r.times);
      ws := Additions(r.keys[..k], r.added[..k], r.times[..k]);
    }
  }

  method ServeAdmin(store: DataStore, r: Request) returns (ghost ws: seq<Write>)
    requires store.Valid() && Complete(r) && !FromClient(r)
    modifies store
    ensures store.Valid() && store.log == old(store.log) + ws
  {
    match r {
      case AdminImportCourse(p, size, explicit) =>
        var _, _ := store.AdminImportCourse(p, size, explicit);
      case AdminDeleteCourse(id) => store.AdminDeleteCourse(id);
      case AdminAddStars(id, amount) => store.AdminAddStars(id, amount);
      case AdminSetStars(id, value) => store.AdminSetStars(id, value);
      case AdminSetCourseRecord(id, record) => store.AdminSetCourseRecord(id, record);
      case AdminSetCourseRatings(id, values) => store.AdminSetCourseRatings(id, values);
      case AdminRegisterCourseAttachFile(p, size) =>
        var _ := store.AdminRegisterCourseAttachFile(p, size);
      case EnsureEventCourseMetadataObject(size) => store.EnsureEventCourseMetadataObject(size);
    }
    ws := store.log[|old(store.log)|..];
  }

  /** What any run of requests keeps; and what requests of clients alone keep of deleted objects. */
  ghost predicate Follows(before: Store, after: Store, clientsOnly: bool) {
    && (forall id :: id in before.objects ==> id in after.objects && Rises(before.objects[id], after.objects[id]))
    && (clientsOnly ==> forall id :: id in before.objects && before.objects[id].deleted ==> SameAbout(before, after, id))
  }

  lemma WritesFollow(log: seq<Write>, ws: seq<Write>, clientsOnly: bool)
    requires CanRun(EMPTY_STORE, log + ws) && (clientsOnly ==> ClientWrites(ws))
    ensures CanRun(EMPTY_STORE, log) && Follows(Run(EMPTY_STORE, log), Run(EMPTY_STORE, log + ws), clientsOnly)
  {
    RunSplit(EMPTY_STORE, log, ws);
    var before := Run(EMPTY_STORE, log);
    forall id | id in before.objects
      ensures id in Run(before, ws).objects && Rises(before.objects[id], Run(before, ws).objects[id])
      ensures clientsOnly && before.objects[id].deleted ==> SameAbout(before, Run(before, ws), id)
    {
      FlagsOnlyRise(before, ws, id);
      if clientsOnly && before.objects[id].deleted {
        DeletedIsFrozen(before, ws, id);
      }
    }
  }

  /**
   Any sequence of requests: flags only rise, so availability goes off, on, off. As long as only clients ask for
   something, the records, rankings, ratings and buffers of a deleted object stay as they are.
   */
  method ServeAll(store: DataStore, requests: seq<Request>)
    requires store.Valid() && forall r :: r in requests ==> Complete(r)
    modifies store
    ensures store.Valid()
    ensures Follows(old(store.Db()), store.Db(), forall r :: r in requests ==> FromClient(r))
  {
    ghost var clientsOnly := forall r :: r in requests ==> FromClient(r);
    ghost var all: seq<Write> := [];
    for i := 0 to |requests|
      invariant store.Valid() && store.log == old(store.log) + all
      invariant clientsOnly ==> ClientWrites(all)
    {
      var r := requests[i];
      ghost var ws;
      if !FromClient(r) {
        ws := ServeAdmin(store, r);
      } else if r.UploadCourseRecord? || r.RateCustomRanking? {
        ws := ServePlay(store, r);
      } else if r.RateObjects? || r.AddToBufferQueues? {
        ws := ServeBatch(store, r);
      } else if r.CompletePostObject? || r.CompletePostObjects? || r.CompleteAttachFile? {
        ws := ServeCompletion(store, r);
      } else {
        ws := ServeObject(store, r);
      }
      all := all + ws;
    }
    WritesFollow(old(store.log), all, clientsOnly);
  }
}
