/**
 The course server's side: the tables as fields, and the database routines, handlers and administration actions that
 change them. `log` is the history of writes; it explains the tables entirely.
 */
module DataStore {
  import opened ParticipantLists
  import opened Tables
  import opened DataIds
  import opened DataStoreTables
  import opened DataStoreWrites
  import opened BufferQueues

  const MAKER: nat := 1
  const COURSE: nat := 10
  const ATTACHMENT: nat := 2
  const EVENT_COURSES: nat := 50
  const EVENT_COURSES_ID: DataId := 900000
  const OWNER_ONLY: Permission := Permission(3, [])
  const ANYONE: Permission := Permission(0, [])
  const RATING_SLOTS: nat := 7

  /** A target to rate with its value. */
  datatype Target = Target(key: Key, value: int)

  /** A file at the object storage: None if it is not there. */
  datatype Stored = Stored(id: DataId, size: Option<nat>)

  function VerifyObjectPermission(owner: Pid, accessor: Pid, permission: Permission, friends: Pid -> seq<Pid>): Option<StoreError> {
    if permission.level > 3 then Some(StoreError.InvalidArgument)
    else if owner == accessor || permission.level == 0 then None
    else if permission.level == 1 then (if accessor in friends(owner) then None else Some(StoreError.PermissionDenied))
    else if permission.level == 2 then (if accessor in permission.recipients then None else Some(StoreError.PermissionDenied))
    else Some(StoreError.PermissionDenied)
  }

  /** Why a rating is refused: the object cannot be used, or its owner does not permit it. */
  function RatingRefused(objects: map<DataId, Object>, p: Pid, id: DataId, friends: Pid -> seq<Pid>): Option<StoreError> {
    if Unavailable(objects, id).Some? then Unavailable(objects, id)
    else VerifyObjectPermission(objects[id].owner, p, objects[id].permission, friends)
  }

  /** Why a buffer is refused: only its owner adds to slot 0 of a maker object. */
  function BufferRefused(objects: map<DataId, Object>, p: Pid, key: Key): Option<StoreError> {
    if Unavailable(objects, key.id).Some? then Unavailable(objects, key.id)
    else if key.slot == 0 && objects[key.id].dataType == MAKER && objects[key.id].owner != p then Some(StoreError.PermissionDenied)
    else None
  }

  /** Why the upload of a file is not complete. */
  function Incomplete(objects: map<DataId, Object>, file: Stored): Option<StoreError> {
    if file.size.None? || file.id !in objects then Some(NotFound)
    else if file.size.value != objects[file.id].size then Some(StoreError.Unknown)
    else None
  }

  /** Why a change is refused: it asks for the permission to delete. */
  function ChangeRefused(objects: map<DataId, Object>, p: Pid, id: DataId, friends: Pid -> seq<Pid>): Option<StoreError> {
    if Unavailable(objects, id).Some? then Unavailable(objects, id)
    else VerifyObjectPermission(objects[id].owner, p, objects[id].deletePermission, friends)
  }

  /** Of custom rankings, those of unusable objects are passed over without a word. */
  function AcceptedScores(objects: map<DataId, Object>, scores: seq<Target>): (ws: seq<Write>)
    ensures forall w :: w in ws ==> w.AddScore? && !w.admin && w.key.id in objects && Available(objects[w.key.id])
  {
    if scores == [] then []
    else
      var last := scores[|scores| - 1];
      AcceptedScores(objects, scores[..|scores| - 1])
      + if Unavailable(objects, last.key.id).Some? then [] else [AddScore(last.key, last.value, false)]
  }

  class DataStore {
    var objects: map<DataId, Object>
    var sequence: Sequence
    var records: map<Key, Record>
    var rankings: map<Key, int>
    var ratings: map<Key, Rating>
    var buffers: map<Key, map<Buffer, Time>>
    ghost var log: seq<Write>

    ghost function Db(): Store
      reads this
    {
      Store(objects, sequence, records, rankings, ratings, buffers)
    }

    /** The tables are what the history of writes makes of empty ones. */
    ghost predicate Valid()
      reads this
    {
      CanRun(EMPTY_STORE, log) && Db() == Run(EMPTY_STORE, log)
    }

    constructor ()
      ensures Valid() && Db() == EMPTY_STORE && log == []
    {
      objects, sequence, records, rankings, ratings, buffers := map[], NEW_SEQUENCE, map[], map[], map[], map[];
      log := [];
    }

    // ------------------------------------------------------------ objects

    method IsObjectAvailable(id: DataId) returns (err: Option<StoreError>)
      ensures err == Unavailable(objects, id)
      ensures err.None? <==> IsAvailable(Db(), id)
      ensures err == None <==> id in objects && objects[id].uploadCompleted && !objects[id].deleted && !objects[id].underReview
      ensures err == Some(NotFound) <==> id !in objects || !objects[id].uploadCompleted || objects[id].deleted
      ensures err.Some? ==> err.value == NotFound || err.value == UnderReviewing
    {
      if id !in objects || !objects[id].uploadCompleted || objects[id].deleted {
        return Some(NotFound);
      }
      if objects[id].underReview {
        return Some(UnderReviewing);
      }
      return None;
    }

    /** An insert without an ID: it fails only when the sequence is used up, never on a DataID that exists. */
    method InsertObject(o: Object) returns (r: Option<DataId>)
      requires Valid() && IsNew(o)
      modifies this`objects, this`sequence, this`log
      ensures Valid()
      ensures r == NextVal(old(sequence))
      ensures r.Some? ==> r.value !in old(objects) && objects == old(objects)[r.value := o]
      ensures r.None? ==> objects == old(objects)
      ensures sequence == Advanced(old(sequence))
      ensures log == old(log) + if r.Some? then [Create(o)] else []
    {
      WritesKeepIdsAhead(EMPTY_STORE, log);
      r := NextVal(sequence);
      if r.Some? {
        RunAppend(EMPTY_STORE, log, Create(o));
        log := log + [Create(o)];
        objects := objects[r.value := o];
        sequence := Advanced(sequence);
      }
    }

    method UpdateObjectUploadCompletedByDataID(id: DataId)
      requires Valid()
      modifies this`objects, this`log
      ensures Valid() && log == old(log) + if id in old(objects) then [CompleteUpload(id)] else []
      ensures objects == if id in old(objects) then old(objects)[id := old(objects)[id].(uploadCompleted := true)]
                         else old(objects)
    {
      if id in objects {
        RunAppend(EMPTY_STORE, log, CompleteUpload(id));
        log := log + [CompleteUpload(id)];
        objects := objects[id := objects[id].(uploadCompleted := true)];
      }
    }

    method DeleteObjectByDataID(id: DataId)
      requires Valid()
      modifies this`objects, this`log
      ensures objects == if id in old(objects) then old(objects)[id := old(objects)[id].(deleted := true)] else old(objects)
      ensures Valid() && log == old(log) + if id in old(objects) then [MarkDeleted(id)] else []
    {
      if id in objects {
        RunAppend(EMPTY_STORE, log, MarkDeleted(id));
        log := log + [MarkDeleted(id)];
        objects := objects[id := objects[id].(deleted := true)];
      }
    }

    /** ON CONFLICT DO NOTHING. */
    method InitializeObjectRatingWithSlot(key: Key, initial: int)
      requires Valid() && key.id in objects && !objects[key.id].deleted
      modifies this`ratings, this`log
      ensures Valid() && log == old(log) + [InitRating(key, initial)]
      ensures ratings == if key in old(ratings) then old(ratings) else old(ratings)[key := Rating(initial, 0)]
    {
      RunAppend(EMPTY_STORE, log, InitRating(key, initial));
      log := log + [InitRating(key, initial)];
      if key !in ratings {
        ratings := ratings[key := Rating(initial, 0)];
      }
    }

    /** A new object with its rating slots; PostMetaBinary and PrepareAttachFile insert in the same way. */
    method PreparePostObject(
      p: Pid, size: nat, dataType: nat, permission: Permission, deletePermission: Permission, slots: seq<SlotInit>)
      returns (r: Option<DataId>)
      requires Valid()
      modifies this
      ensures Valid() && r == NextVal(old(sequence)) && (r.Some? ==> r.value !in old(objects))
      ensures r.Some? ==>
                objects == old(objects)[r.value := Object(p, size, dataType, permission, deletePermission, false, false, false)]
      ensures
        var o := Object(p, size, dataType, permission, deletePermission, false, false, false);
        log == old(log) + if r.None? then [] else [Create(o)] + InitRatings(r.value, slots)
    {
      var o := Object(p, size, dataType, permission, deletePermission, false, false, false);
      r := InsertObject(o);
      if r.None? {
        return;
      }
      ghost var created := log;
      for i := 0 to |slots|
        invariant Valid() && objects == old(objects)[r.value := o]
        invariant log == created + InitRatings(r.value, slots[..i])
      {
        assert slots[..i + 1] == slots[..i] + [slots[i]];
        InitializeObjectRatingWithSlot(Key(r.value, slots[i].slot), slots[i].initial);
      }
      assert slots[..|slots|] == slots;
    }

    /** Only the owner of an object that is not available yet may complete it: by success, or by giving it up. */
    method CompletePostObject(p: Pid, id: DataId, isSuccess: bool, stored: Option<nat>) returns (err: Option<StoreError>)
      requires Valid()
      modifies this`objects, this`log
      ensures Valid()
      ensures err.None? <==>
                && id in old(objects) && !IsAvailable(old(Db()), id) && old(objects)[id].owner == p
                && (isSuccess ==> stored == Some(old(objects)[id].size))
      ensures
        if err.Some? then objects == old(objects)
        else if isSuccess then objects == old(objects)[id := old(objects)[id].(uploadCompleted := true)]
        else objects == old(objects)[id := old(objects)[id].(deleted := true)]
      ensures err.Some? ==>
                err.value == if IsAvailable(old(Db()), id) then StoreError.PermissionDenied
                             else if id !in old(objects) then NotFound
                             else if old(objects)[id].owner != p then StoreError.PermissionDenied
                             else if stored == None then NotFound
                             else StoreError.Unknown
      ensures log == old(log) + if err.Some? then [] else [if isSuccess then CompleteUpload(id) else MarkDeleted(id)]
    {
      var unavailable := IsObjectAvailable(id);
      if unavailable.None? {
        return Some(StoreError.PermissionDenied);
      }
      if id !in objects {
        return Some(NotFound);
      }
      if objects[id].owner != p {
        return Some(StoreError.PermissionDenied);
      }
      if isSuccess {
        if stored.None? {
          return Some(NotFound);
        }
        if stored.value != objects[id].size {
          return Some(StoreError.Unknown);
        }
        UpdateObjectUploadCompletedByDataID(id);
      } else {
        DeleteObjectByDataID(id);
      }
      return None;
    }

    /** One pass of the loop below. */
    method CompleteFile(file: Stored) returns (err: Option<StoreError>)
      requires Valid()
      modifies this`objects, this`log
      ensures Valid() && err == Incomplete(old(objects), file)
      ensures log == old(log) + if err.Some? then [] else [CompleteUpload(file.id)]
      ensures objects == if err.Some? then old(objects)
                         else old(objects)[file.id := old(objects)[file.id].(uploadCompleted := true)]
    {
      if file.size.None? {
        return Some(NotFound);
      }
      if file.id !in objects {
        return Some(NotFound);
      }
      if file.size.value != objects[file.id].size {
        return Some(StoreError.Unknown);
      }
      UpdateObjectUploadCompletedByDataID(file.id);
      return None;
    }

    /** Stops at the first file that is not complete; the ones before it stay completed. Owners are not asked for. */
    method CompletePostObjects(files: seq<Stored>) returns (err: Option<StoreError>, ghost k: nat)
      requires Valid()
      modifies this`objects, this`log
      ensures Valid() && k <= |files|
      ensures forall i :: 0 <= i < k ==> Incomplete(old(objects), files[i]).None?
      ensures if k < |files| then err.Some? && err == Incomplete(old(objects), files[k]) else err.None?
      ensures log == old(log) + Completions(files[..k])
      ensures objects == CompletedEach(old(objects), files[..k])
    {
      k := 0;
      for i := 0 to |files|
        invariant Valid() && k == i && log == old(log) + Completions(files[..i])
        invariant objects == CompletedEach(old(objects), files[..i])
        invariant forall j :: 0 <= j < i ==> Incomplete(old(objects), files[j]).None?
      {
        CompletedEachRule(old(objects), files[..i], files[i].id);
        err := CompleteFile(files[i]);
        if err.Some? {
          return;
        }
        CompletionsOneMore(files, i);
        k := k + 1;
      }
      err := None;
    }

    /** Neither the owner nor the state of the object is asked for. */
    method CompleteAttachFile(id: DataId, isSuccess: bool) returns (err: Option<StoreError>)
      requires Valid()
      modifies this`objects, this`log
      ensures Valid() && (err.None? <==> isSuccess)
      ensures objects == if isSuccess && id in old(objects) then old(objects)[id := old(objects)[id].(uploadCompleted := true)]
                         else old(objects)
      ensures log == old(log) + if isSuccess && id in old(objects) then [CompleteUpload(id)] else []
    {
      if !isSuccess {
        return Some(StoreError.InvalidArgument);
      }
      UpdateObjectUploadCompletedByDataID(id);
      return None;
    }

    /** Of what it may change, the data type is the column that decides something. None: the type is not to change. */
    method ChangeMeta(p: Pid, id: DataId, dataType: Option<nat>, friends: Pid -> seq<Pid>) returns (err: Option<StoreError>)
      requires Valid()
      modifies this`objects, this`log
      ensures Valid() && err == ChangeRefused(old(objects), p, id, friends)
      ensures log == old(log) + if err.None? && dataType.Some? then [SetDataType(id, dataType.value)] else []
      ensures objects == if err.None? && dataType.Some? then old(objects)[id := old(objects)[id].(dataType := dataType.value)]
                         else old(objects)
    {
      err := IsObjectAvailable(id);
      if err.Some? {
        return;
      }
      err := VerifyObjectPermission(objects[id].owner, p, objects[id].deletePermission, friends);
      if err.Some? || dataType.None? {
        return;
      }
      RunAppend(EMPTY_STORE, log, SetDataType(id, dataType.value));
      log := log + [SetDataType(id, dataType.value)];
      objects := objects[id := objects[id].(dataType := dataType.value)];
    }

    /** The server does not provide what this handler needs, so no client deletes anything that has been uploaded. */
    method DeleteObject(p: Pid, id: DataId) returns (err: Option<StoreError>)
      ensures err == Some(NotImplemented)
    {
      return Some(NotImplemented);
    }

    // ------------------------------------------------------------ records, stars and ratings

    method InsertOrUpdateCourseRecord(id: DataId, slot: nat, p: Pid, score: int, now: Time) returns (err: Option<StoreError>)
      requires Valid()
      modifies this`records, this`log
      ensures Valid() && err == Unavailable(old(objects), id)
      ensures log == old(log) + if err.Some? then [] else [UploadRecord(Key(id, slot), Upload(p, score, now))]
    {
      err := IsObjectAvailable(id);
      if err.Some? {
        return;
      }
      var key := Key(id, slot);
      RunAppend(EMPTY_STORE, log, UploadRecord(key, Upload(p, score, now)));
      log := log + [UploadRecord(key, Upload(p, score, now))];
      if key !in records {
        records := records[key := Record(p, p, score, now, now)];
      } else if records[key].bestScore > score {
        records := records[key := records[key].(bestScore := score, bestPid := p, updated := now)];
      }
      assert records == Run(EMPTY_STORE, log).records;
    }

    /** What a client reads is the record that the uploads to the slot add up to. */
    method GetCourseRecord(id: DataId, slot: nat) returns (r: Option<Record>)
      requires Valid()
      ensures r.Some? ==> IsAvailable(Db(), id)
      ensures r.None? <==> !IsAvailable(Db(), id) || Key(id, slot) !in records
      ensures r.Some? && (forall w :: w in log && w.SetRecord? ==> w.key != Key(id, slot)) ==>
                r == Best(None, UploadsTo(log, Key(id, slot)))
    {
      var unavailable := IsObjectAvailable(id);
      if unavailable.Some? || Key(id, slot) !in records {
        return None;
      }
      if forall w :: w in log && w.SetRecord? ==> w.key != Key(id, slot) {
        RecordIsFold(EMPTY_STORE, log, Key(id, slot));
      }
      return Some(records[Key(id, slot)]);
    }

    method InsertOrUpdateCustomRanking(key: Key, score: int) returns (err: Option<StoreError>)
      requires Valid()
      modifies this`rankings, this`log
      ensures Valid() && err == Unavailable(old(objects), key.id)
      ensures log == old(log) + if err.Some? then [] else [AddScore(key, score, false)]
    {
      err := IsObjectAvailable(key.id);
      if err.Some? {
        return;
      }
      RunAppend(EMPTY_STORE, log, AddScore(key, score, false));
      log := log + [AddScore(key, score, false)];
      rankings := rankings[key := if key in rankings then rankings[key] + score else score];
    }

    /** Errors are ignored. */
    method RateCustomRanking(scores: seq<Target>)
      requires Valid()
      modifies this`rankings, this`log
      ensures Valid() && log == old(log) + AcceptedScores(old(objects), scores)
    {
      for i := 0 to |scores|
        invariant Valid() && log == old(log) + AcceptedScores(old(objects), scores[..i])
      {
        assert scores[..i + 1][..i] == scores[..i];
        var _ := InsertOrUpdateCustomRanking(scores[i].key, scores[i].value);
      }
      assert scores[..|scores|] == scores;
    }

    /** A bare UPDATE: without a row for the slot nothing happens, and the answer is zero. */
    method RateObjectWithPassword(key: Key, value: int) returns (rating: Rating)
      requires Valid() && IsAvailable(Db(), key.id)
      modifies this`ratings, this`log
      ensures Valid() && log == old(log) + [Rate(key, value)]
      ensures ratings == Rated(old(ratings), key, value) && rating == RowOf(ratings, key)
    {
      RunAppend(EMPTY_STORE, log, Rate(key, value));
      log := log + [Rate(key, value)];
      if key in ratings {
        ratings := ratings[key := Rating(ratings[key].total + value, ratings[key].count + 1)];
        return ratings[key];
      }
      return Rating(0, 0);
    }

    method RateObject(p: Pid, target: Target, friends: Pid -> seq<Pid>) returns (err: Option<StoreError>, rating: Rating)
      requires Valid()
      modifies this`ratings, this`log
      ensures Valid() && err == RatingRefused(old(objects), p, target.key.id, friends)
      ensures log == old(log) + if err.Some? then [] else [Rate(target.key, target.value)]
      ensures err.None? ==> ratings == Rated(old(ratings), target.key, target.value) && rating == RowOf(ratings, target.key)
    {
      rating := Rating(0, 0);
      var id := target.key.id;
      err := IsObjectAvailable(id);
      if err.Some? {
        return;
      }
      err := VerifyObjectPermission(objects[id].owner, p, objects[id].permission, friends);
      if err.Some? {
        return;
      }
      rating := RateObjectWithPassword(target.key, target.value);
    }

    /**
     `params` is how many values came with the targets. Stops at the first target that is refused. What was rated
     before it stays rated and is not reported: the request's `transactional` does nothing.
     */
    method RateObjects(p: Pid, targets: seq<Target>, params: nat, friends: Pid -> seq<Pid>, fetchRatings: bool)
      returns (err: Option<StoreError>, pRatings: seq<Rating>, ghost k: nat)
      requires Valid()
      modifies this`ratings, this`log
      ensures Valid() && k <= |targets|
      ensures params != |targets| ==> err == Some(StoreError.InvalidArgument) && k == 0
      ensures params == |targets| ==>
                && (forall i :: 0 <= i < k ==> RatingRefused(old(objects), p, targets[i].key.id, friends).None?)
                && (if k < |targets| then err.Some? && err == RatingRefused(old(objects), p, targets[k].key.id, friends)
                    else err.None?)
      ensures log == old(log) + Ratings(targets[..k])
      ensures err.None? ==> pRatings == if fetchRatings then Answers(old(ratings), targets) else []
    {
      k, pRatings := 0, [];
      if |targets| != params {
        return Some(StoreError.InvalidArgument), [], 0;
      }
      for i := 0 to |targets|
        invariant Valid() && k == i && log == old(log) + Ratings(targets[..i])
        invariant forall j :: 0 <= j < i ==> RatingRefused(old(objects), p, targets[j].key.id, friends).None?
        invariant ratings == RatedEach(old(ratings), targets[..i])
        invariant pRatings == if fetchRatings then Answers(old(ratings), targets[..i]) else []
      {
        var rating;
        err, rating := RateObject(p, targets[i], friends);
        if err.Some? {
          return err, [], k;
        }
        if fetchRatings {
          pRatings := pRatings + [rating];
        }
        RatingOneMore(old(ratings), targets, i);
        k := k + 1;
      }
      assert targets[..|targets|] == targets;
      err := None;
    }

    // ------------------------------------------------------------ buffer queues

    method InsertOrUpdateBufferQueueData(key: Key, buffer: Buffer, now: Time) returns (err: Option<StoreError>)
      requires Valid()
      modifies this`buffers, this`log
      ensures Valid() && err == Unavailable(old(objects), key.id)
      ensures log == old(log) + if err.Some? then [] else [AddBuffer(key, buffer, now)]
    {
      err := IsObjectAvailable(key.id);
      if err.Some? {
        return;
      }
      RunAppend(EMPTY_STORE, log, AddBuffer(key, buffer, now));
      log := log + [AddBuffer(key, buffer, now)];
      var slot: map<Buffer, Time> := if key in buffers then buffers[key] else map[];
      buffers := buffers[key := slot[buffer := now]];
    }

    /** One pass of the loop below. */
    method AddToBufferQueue(p: Pid, param: Key, buffer: Buffer, now: Time) returns (err: Option<StoreError>)
      requires Valid()
      modifies this`buffers, this`log
      ensures Valid() && err == BufferRefused(old(objects), p, param)
      ensures log == old(log) + if err.Some? then [] else [AddBuffer(param, buffer, now)]
    {
      if param.slot == 0 {
        err := IsObjectAvailable(param.id);
        if err.Some? {
          return;
        }
        if objects[param.id].dataType == MAKER && objects[param.id].owner != p {
          return Some(StoreError.PermissionDenied);
        }
      }
      err := InsertOrUpdateBufferQueueData(param, buffer, now);
    }

    /** Stops at the first buffer that is refused; the ones before it stay. `times` are the readings of the clock. */
    method AddToBufferQueues(p: Pid, params: seq<Key>, added: seq<Buffer>, times: seq<Time>)
      returns (err: Option<StoreError>, ghost k: nat)
      requires Valid() && |times| >= Min(|params|, |added|)
      modifies this`buffers, this`log
      ensures Valid() && k <= Min(|params|, |added|)
      ensures forall i :: 0 <= i < k ==> BufferRefused(old(objects), p, params[i]).None?
      ensures if k < Min(|params|, |added|) then err.Some? && err == BufferRefused(old(objects), p, params[k]) else err.None?
      ensures log == old(log) + Additions(params[..k], added[..k], times[..k])
    {
      k := 0;
      var iterations := |params|;
      if |added| < iterations {
        iterations := |added|;
      }
      for i := 0 to iterations
        invariant Valid() && k == i && log == old(log) + Additions(params[..i], added[..i], times[..i])
        invariant forall j :: 0 <= j < i ==> BufferRefused(old(objects), p, params[j]).None?
      {
        err := AddToBufferQueue(p, params[i], added[i], times[i]);
        if err.Some? {
          return;
        }
        assert Additions(params[..i + 1], added[..i + 1], times[..i + 1])
            == Additions(params[..i], added[..i], times[..i]) + [AddBuffer(params[i], added[i], times[i])];
        k := k + 1;
      }
      err := None;
    }

    /** ORDER BY creation_date: the earliest remaining row comes next. With a forward clock this is last-touch order. */
    method GetBufferQueue(key: Key) returns (r: Option<seq<Buffer>>)
      requires Valid()
      ensures r.Some? <==> IsAvailable(Db(), key.id)
      ensures r.Some? ==> IsReading(SlotOf(Db(), key), r.value)
      ensures r.Some? ==> forall since :: Clocked(log, since) ==> r.value == LastTouch(AdditionsTo(log, key))
    {
      var unavailable := IsObjectAvailable(key.id);
      if unavailable.Some? {
        return None;
      }
      var slot: map<Buffer, Time> := if key in buffers then buffers[key] else map[];
      var q := SortByDate(slot);
      forall since | Clocked(log, since)
        ensures q == LastTouch(AdditionsTo(log, key))
      {
        QueueIsLastTouch(log, key, since, q);
      }
      return Some(q);
    }

    /** Custom rankings in the order asked for, without those of unusable objects or with values that are no uint32. */
    method GetCustomRankingsByDataIDs(applicationID: nat, dataIDs: seq<DataId>) returns (results: seq<(DataId, int)>)
      ensures results == Ranked(Db(), applicationID, dataIDs)
    {
      results := [];
      for i := 0 to |dataIDs|
        invariant results == Ranked(Db(), applicationID, dataIDs[..i])
      {
        assert dataIDs[..i + 1][..i] == dataIDs[..i];
        var key := Key(dataIDs[i], applicationID);
        if key in rankings && 0 <= rankings[key] < UINT32_SIZE {
          var unavailable := IsObjectAvailable(dataIDs[i]);
          if unavailable.None? {
            results := results + [(dataIDs[i], rankings[key])];
          }
        }
      }
      assert dataIDs[..|dataIDs|] == dataIDs;
    }

    // ------------------------------------------------------------ administration

    method AdminDeleteCourse(id: DataId)
      requires Valid()
      modifies this`objects, this`log
      ensures Valid() && log == old(log) + if id in old(objects) then [MarkDeleted(id)] else []
    {
      DeleteObjectByDataID(id);
    }

    method AdminAddStars(id: DataId, amount: int)
      requires Valid()
      modifies this`rankings, this`log
      ensures Valid() && log == old(log) + [AddScore(Key(id, 0), amount, true)]
      ensures rankings == old(rankings)[Key(id, 0) := ScoreIn(old(Db()), Key(id, 0)) + amount]
    {
      var key := Key(id, 0);
      RunAppend(EMPTY_STORE, log, AddScore(key, amount, true));
      log := log + [AddScore(key, amount, true)];
      rankings := rankings[key := if key in rankings then rankings[key] + amount else amount];
    }

    method AdminSetStars(id: DataId, value: int)
      requires Valid()
      modifies this`rankings, this`log
      ensures Valid() && log == old(log) + [SetScore(Key(id, 0), value)]
      ensures rankings == old(rankings)[Key(id, 0) := value]
    {
      RunAppend(EMPTY_STORE, log, SetScore(Key(id, 0), value));
      log := log + [SetScore(Key(id, 0), value)];
      rankings := rankings[Key(id, 0) := value];
    }

    method AdminSetCourseRecord(id: DataId, record: Record)
      requires Valid()
      modifies this`records, this`log
      ensures Valid() && log == old(log) + [SetRecord(Key(id, 0), record)]
      ensures records == old(records)[Key(id, 0) := record]
    {
      RunAppend(EMPTY_STORE, log, SetRecord(Key(id, 0), record));
      log := log + [SetRecord(Key(id, 0), record)];
      records := records[Key(id, 0) := record];
    }

    method SetCourseRating(key: Key, value: int)
      requires Valid()
      modifies this`ratings, this`log
      ensures Valid() && log == old(log) + [SetRating(key, value)]
      ensures ratings == old(ratings)[key := Reset(old(ratings), key, value)]
    {
      RunAppend(EMPTY_STORE, log, SetRating(key, value));
      log := log + [SetRating(key, value)];
      ratings := ratings[key := Rating(value, if key in ratings then ratings[key].count else 1)];
    }

    method AdminSetCourseRatings(id: DataId, values: seq<int>)
      requires Valid() && |values| == RATING_SLOTS
      modifies this`ratings, this`log
      ensures Valid() && log == old(log) + SlotRatings(id, values)
      ensures forall slot: nat :: slot < 7 ==> Get(ratings, Key(id, slot)) == Some(Reset(old(ratings), Key(id, slot), values[slot]))
      ensures forall key: Key :: key.id != id || key.slot >= 7 ==> Get(ratings, key) == Get(old(ratings), key)
    {
      for slot := 0 to |values|
        invariant Valid() && log == old(log) + SlotRatings(id, values[..slot])
        invariant forall k: nat :: k < slot ==> Get(ratings, Key(id, k)) == Some(Reset(old(ratings), Key(id, k), values[k]))
        invariant forall key: Key :: key.id != id || key.slot >= slot ==> Get(ratings, key) == Get(old(ratings), key)
      {
        SetCourseRating(Key(id, slot), values[slot]);
      }
      assert values[..|values|] == values;
    }

    /** `explicit` is 0 for "the next ID". The course starts with no stars and with its seven ratings at zero. */
    method AdminImportCourse(owner: Pid, size: nat, explicit: DataId) returns (r: Option<DataId>, err: Option<StoreError>)
      requires Valid()
      modifies this
      ensures Valid() && (r.Some? <==> err.None?)
      ensures explicit != 0 ==> err == if explicit in old(objects) then Some(AlreadyExists) else None
      ensures explicit == 0 ==> err == if NextVal(old(sequence)).Some? then None else Some(StoreError.Unknown)
      ensures r.Some? ==> r.value !in old(objects) && (explicit != 0 ==> r.value == explicit)
      ensures r.Some? ==>
                && objects == old(objects)[r.value := Object(owner, size, 10, Permission(0, []), Permission(3, []), true, false, false)]
                && Key(r.value, 0) in rankings && (Key(r.value, 0) !in old(rankings) ==> rankings[Key(r.value, 0)] == 0)
                && forall slot: nat :: slot < 7 ==> Get(ratings, Key(r.value, slot)).Some? && Get(ratings, Key(r.value, slot)).value.total == 0
      ensures
        var o := Object(owner, size, COURSE, ANYONE, OWNER_ONLY, true, false, false);
        log == old(log) + if r.None? then [] else
          [if explicit != 0 then CreateAt(explicit, o) else Create(o)] + [InitScore(Key(r.value, 0))]
          + SlotRatings(r.value, [0, 0, 0, 0, 0, 0, 0])
    {
      r, err := InsertCourse(Object(owner, size, COURSE, ANYONE, OWNER_ONLY, true, false, false), explicit);
      if err.Some? {
        return;
      }
      SeedRanking(r.value);
      AdminSetCourseRatings(r.value, [0, 0, 0, 0, 0, 0, 0]);
    }

    method InsertCourse(o: Object, explicit: DataId) returns (r: Option<DataId>, err: Option<StoreError>)
      requires Valid() && IsNew(o)
      modifies this`objects, this`sequence, this`log
      ensures Valid() && (r.Some? <==> err.None?)
      ensures explicit != 0 ==> err == if explicit in old(objects) then Some(AlreadyExists) else None
      ensures explicit == 0 ==> err == if NextVal(old(sequence)).Some? then None else Some(StoreError.Unknown)
      ensures r.Some? ==> r.value !in old(objects) && (explicit != 0 ==> r.value == explicit)
      ensures objects == if r.Some? then old(objects)[r.value := o] else old(objects)
      ensures log == old(log) + if r.None? then [] else [if explicit != 0 then CreateAt(explicit, o) else Create(o)]
    {
      if explicit != 0 {
        if explicit in objects {
          return None, Some(AlreadyExists);
        }
        InsertExplicitly(explicit, o);
        return Some(explicit), None;
      }
      r := InsertObject(o);
      err := if r.None? then Some(StoreError.Unknown) else None;
    }

    /** Insert and setval, taken as one step. */
    method InsertExplicitly(id: DataId, o: Object)
      requires Valid() && id !in objects && IsNew(o)
      modifies this`objects, this`sequence, this`log
      ensures Valid() && log == old(log) + [CreateAt(id, o)]
      ensures objects == old(objects)[id := o] && sequence == Bumped(old(sequence), id)
    {
      RunAppend(EMPTY_STORE, log, CreateAt(id, o));
      log := log + [CreateAt(id, o)];
      objects := objects[id := o];
      sequence := Bumped(sequence, id);
    }

    /** ON CONFLICT DO NOTHING. */
    method SeedRanking(id: DataId)
      requires Valid()
      modifies this`rankings, this`log
      ensures Valid() && log == old(log) + [InitScore(Key(id, 0))]
      ensures rankings == if Key(id, 0) in old(rankings) then old(rankings) else old(rankings)[Key(id, 0) := 0]
    {
      RunAppend(EMPTY_STORE, log, InitScore(Key(id, 0)));
      log := log + [InitScore(Key(id, 0))];
      if Key(id, 0) !in rankings {
        rankings := rankings[Key(id, 0) := 0];
      }
    }

    method AdminRegisterCourseAttachFile(owner: Pid, size: nat) returns (r: Option<DataId>)
      requires Valid()
      modifies this
      ensures Valid() && r == NextVal(old(sequence)) && (r.Some? ==> r.value !in old(objects))
      ensures r.Some? ==>
                objects == old(objects)[r.value := Object(owner, size, 2, Permission(3, []), Permission(3, []), true, false, false)]
      ensures log == old(log) + if r.None? then [] else [Create(Object(owner, size, ATTACHMENT, OWNER_ONLY, OWNER_ONLY, true, false, false))]
    {
      r := InsertObject(Object(owner, size, ATTACHMENT, OWNER_ONLY, OWNER_ONLY, true, false, false));
    }

    /** At start-up, the object with the reserved DataID. Its ID lies below the sequence, which is not moved. */
    method EnsureEventCourseMetadataObject(size: nat)
      requires Valid()
      modifies this`objects, this`log
      ensures Valid()
      ensures objects == if 900000 in old(objects) then old(objects)[900000 := old(objects)[900000].(size := size)]
                         else old(objects)[900000 := Object(2, size, 50, Permission(0, []), Permission(0, []), true, false, false)]
      ensures log == old(log) +
                if EVENT_COURSES_ID in old(objects) then [SetSize(EVENT_COURSES_ID, size)]
                else [CreateReserved(EVENT_COURSES_ID, Object(2, size, EVENT_COURSES, ANYONE, ANYONE, true, false, false))]
    {
      if EVENT_COURSES_ID !in objects {
        var o := Object(2, size, EVENT_COURSES, ANYONE, ANYONE, true, false, false);
        RunAppend(EMPTY_STORE, log, CreateReserved(EVENT_COURSES_ID, o));
        log := log + [CreateReserved(EVENT_COURSES_ID, o)];
        objects := objects[EVENT_COURSES_ID := o];
      } else {
        RunAppend(EMPTY_STORE, log, SetSize(EVENT_COURSES_ID, size));
        log := log + [SetSize(EVENT_COURSES_ID, size)];
        objects := objects[EVENT_COURSES_ID := objects[EVENT_COURSES_ID].(size := size)];
      }
    }
  }

  /**
   The ratings that a refused batch leaves behind: it has changed nothing exactly when no target before the refused
   one has an initialised slot, whether or not the request was to be transactional.
   */
  lemma {:induction false} BatchChangesNothingIff(s: Store, targets: seq<Target>)
    requires CanRun(s, Ratings(targets))
    ensures Run(s, Ratings(targets)) == s <==> forall target :: target in targets ==> target.key !in s.ratings
    decreases |targets|
  {
    if targets != [] {
      var first, rest := targets[0], targets[1..];
      assert Ratings(targets)[0] == Rate(first.key, first.value) && Ratings(targets)[1..] == Ratings(rest);
      assert targets == [first] + rest;
      if first.key in s.ratings {
        SlotIsCounted(s, targets, first.key);
      } else {
        assert Apply(s, Rate(first.key, first.value)) == s;
        BatchChangesNothingIff(s, rest);
      }
    }
  }

  lemma SlotIsCounted(s: Store, targets: seq<Target>, key: Key)
    requires CanRun(s, Ratings(targets)) && targets != [] && targets[0].key == key && key in s.ratings
    ensures key in Run(s, Ratings(targets)).ratings && Run(s, Ratings(targets)).ratings[key].count > s.ratings[key].count
  {
    RatingsAddUp(s, Ratings(targets), key);
    assert RatingsOf(Ratings(targets), key)
        == [targets[0].value] + RatingsOf(Ratings(targets)[1..], key);
  }

  function Min(a: nat, b: nat): nat { if a < b then a else b }

  function Additions(keys: seq<Key>, added: seq<Buffer>, times: seq<Time>): seq<Write>
    requires |keys| == |added| == |times|
  {
    seq(|keys|, i requires 0 <= i < |keys| => AddBuffer(keys[i], added[i], times[i]))
  }

  function SlotRatings(id: DataId, values: seq<int>): seq<Write> {
    seq(|values|, i requires 0 <= i < |values| => SetRating(Key(id, i), values[i]))
  }

  function Ranked(s: Store, applicationID: nat, ids: seq<DataId>): seq<(DataId, int)> {
    if ids == [] then []
    else
      var id := ids[|ids| - 1];
      var key := Key(id, applicationID);
      Ranked(s, applicationID, ids[..|ids| - 1])
      + if key in s.rankings && 0 <= s.rankings[key] < UINT32_SIZE && IsAvailable(s, id) then [(id, s.rankings[key])] else []
  }

  method SortByDate(slot: map<Buffer, Time>) returns (q: seq<Buffer>)
    ensures IsReading(slot, q)
  {
    q := [];
    var rows := slot.Keys;
    while rows != {}
      invariant rows <= slot.Keys
      invariant forall b :: b in q <==> b in slot.Keys - rows
      invariant NoRepeats(q) && forall i :: 0 <= i < |q| ==> q[i] in slot
      invariant forall i, j :: 0 <= i < j < |q| ==> slot[q[i]] <= slot[q[j]]
      invariant forall b, c :: b in q && c in rows ==> slot[b] <= slot[c]
      decreases |rows|
    {
      var next := Earliest(slot, rows);
      q := q + [next];
      rows := rows - {next};
    }
  }

  method Earliest(slot: map<Buffer, Time>, rows: set<Buffer>) returns (best: Buffer)
    requires rows != {} && rows <= slot.Keys
    ensures best in rows && forall b :: b in rows ==> slot[best] <= slot[b]
  {
    best :| best in rows;
    var todo := rows - {best};
    while todo != {}
      invariant todo <= rows && best in rows
      invariant forall b :: b in rows - todo ==> slot[best] <= slot[b]
      decreases |todo|
    {
      var b :| b in todo;
      if slot[b] < slot[best] {
        best := b;
      }
      todo := todo - {b};
    }
  }

  datatype SlotInit = SlotInit(slot: nat, initial: int)

  /** A rating set by an administrator: a new total, counted as one if the slot is new. */
  function Reset(ratings: map<Key, Rating>, key: Key, total: int): Rating {
    Rating(total, if key in ratings then ratings[key].count else 1)
  }

  function InitRatings(id: DataId, slots: seq<SlotInit>): seq<Write> {
    seq(|slots|, i requires 0 <= i < |slots| => InitRating(Key(id, slots[i].slot), slots[i].initial))
  }

  function RowOf(ratings: map<Key, Rating>, key: Key): Rating {
    if key in ratings then ratings[key] else Rating(0, 0)
  }

  function RatedEach(ratings: map<Key, Rating>, targets: seq<Target>): map<Key, Rating> {
    if targets == [] then ratings
    else
      var last := targets[|targets| - 1];
      Rated(RatedEach(ratings, targets[..|targets| - 1]), last.key, last.value)
  }

  /** Each target's rating as it is right after its own turn. */
  function Answers(ratings: map<Key, Rating>, targets: seq<Target>): seq<Rating> {
    if targets == [] then []
    else
      var n := |targets| - 1;
      Answers(ratings, targets[..n]) + [RowOf(RatedEach(ratings, targets), targets[n].key)]
  }

  lemma RatingOneMore(ratings: map<Key, Rating>, targets: seq<Target>, i: nat)
    requires i < |targets|
    ensures RatedEach(ratings, targets[..i + 1]) == Rated(RatedEach(ratings, targets[..i]), targets[i].key, targets[i].value)
    ensures Answers(ratings, targets[..i + 1])
         == Answers(ratings, targets[..i]) + [RowOf(RatedEach(ratings, targets[..i + 1]), targets[i].key)]
    ensures Ratings(targets[..i + 1]) == Ratings(targets[..i]) + [Rate(targets[i].key, targets[i].value)]
  {
    assert targets[..i + 1][..i] == targets[..i];
  }

  function CompletedEach(objects: map<DataId, Object>, files: seq<Stored>): map<DataId, Object> {
    if files == [] then objects
    else
      var before, id := CompletedEach(objects, files[..|files| - 1]), files[|files| - 1].id;
      if id in before then before[id := before[id].(uploadCompleted := true)] else before
  }

  /** The objects named are uploaded; that is all. */
  lemma {:induction false} CompletedEachRule(objects: map<DataId, Object>, files: seq<Stored>, id: DataId)
    ensures
      var after := CompletedEach(objects, files);
      && (id in after <==> id in objects)
      && (id in objects ==>
            after[id] == if exists file :: file in files && file.id == id then objects[id].(uploadCompleted := true)
                         else objects[id])
    decreases |files|
  {
    if files != [] {
      CompletedEachRule(objects, files[..|files| - 1], id);
      assert files == files[..|files| - 1] + [files[|files| - 1]];
    }
  }

  lemma CompletionsOneMore(files: seq<Stored>, i: nat)
    requires i < |files|
    ensures Completions(files[..i + 1]) == Completions(files[..i]) + [CompleteUpload(files[i].id)]
    ensures files[..i + 1][..i] == files[..i] && files[..i + 1][i] == files[i]
  {
    assert files[..i + 1] == files[..i] + [files[i]];
  }

  function Completions(files: seq<Stored>): seq<Write> {
    seq(|files|, i requires 0 <= i < |files| => CompleteUpload(files[i].id))
  }

  function Ratings(targets: seq<Target>): seq<Write> {
    seq(|targets|, i requires 0 <= i < |targets| => Rate(targets[i].key, targets[i].value))
  }
}
