/**
 The single writes to the course tables. Every request is a run of writes (see `DataStore` and `CourseServer`), and each
 table is a fold over them.
 */
module DataStoreWrites {
  import opened ParticipantLists
  import opened Tables
  import opened DataIds
  import opened DataStoreTables
  import opened BufferQueues

  /** Writes with `admin` come from the administration pages and ask for nothing. */
  datatype Write =
    | Create(o: Object)
    | CreateAt(id: DataId, o: Object)
    | CreateReserved(id: DataId, o: Object)
    | SetSize(id: DataId, size: nat)
    | SetDataType(id: DataId, dataType: nat)
    | CompleteUpload(id: DataId)
    | MarkDeleted(id: DataId)
    | UploadRecord(key: Key, upload: Upload)
    | SetRecord(key: Key, record: Record)
    | AddScore(key: Key, amount: int, admin: bool)
    | SetScore(key: Key, value: int)
    | InitScore(key: Key)
    | InitRating(key: Key, initial: int)
    | Rate(key: Key, value: int)
    | SetRating(key: Key, total: int)
    | AddBuffer(key: Key, buffer: Buffer, now: Time)

  datatype Upload = Upload(p: Pid, score: int, now: Time)

  predicate IsAdmin(w: Write) {
    w.CreateAt? || w.SetRecord? || (w.AddScore? && w.admin) || w.SetScore? || w.InitScore? || w.SetRating?
  }

  predicate IsNew(o: Object) { !o.deleted && !o.underReview }

  predicate Enabled(s: Store, w: Write) {
    match w
    case Create(o) => NextVal(s.sequence).Some? && NextVal(s.sequence).value !in s.objects && IsNew(o)
    case CreateAt(id, o) => id !in s.objects && IsNew(o)
    case CreateReserved(id, o) => id !in s.objects && IsNew(o) && id < START
    case SetSize(id, _) => id in s.objects
    case SetDataType(id, _) => IsAvailable(s, id)
    case CompleteUpload(id) => id in s.objects
    case MarkDeleted(id) => id in s.objects
    case UploadRecord(key, _) => IsAvailable(s, key.id)
    case AddScore(key, _, admin) => admin || IsAvailable(s, key.id)
    case InitRating(key, _) => key.id in s.objects && !s.objects[key.id].deleted
    case Rate(key, _) => IsAvailable(s, key.id)
    case AddBuffer(key, _, _) => IsAvailable(s, key.id)
    case _ => true
  }

  /** The upsert of a course record: the first upload founds it, and later ones must beat it. */
  function RecordAfter(r: Option<Record>, u: Upload): Record {
    match r
    case None => Record(u.p, u.p, u.score, u.now, u.now)
    case Some(r) => if r.bestScore > u.score then r.(bestScore := u.score, bestPid := u.p, updated := u.now) else r
  }

  function ScoreIn(s: Store, key: Key): int {
    if key in s.rankings then s.rankings[key] else 0
  }

  /** A rating of a slot that has no row is lost. */
  function Rated(ratings: map<Key, Rating>, key: Key, value: int): map<Key, Rating> {
    if key in ratings then ratings[key := Rating(ratings[key].total + value, ratings[key].count + 1)] else ratings
  }

  function SlotOf(s: Store, key: Key): map<Buffer, Time> {
    if key in s.buffers then s.buffers[key] else map[]
  }

  function Apply(s: Store, w: Write): Store
    requires Enabled(s, w)
  {
    match w
    case Create(o) => s.(objects := s.objects[NextVal(s.sequence).value := o], sequence := Advanced(s.sequence))
    case CreateAt(id, o) => s.(objects := s.objects[id := o], sequence := Bumped(s.sequence, id))
    case CreateReserved(id, o) => s.(objects := s.objects[id := o])
    case SetSize(id, size) => s.(objects := s.objects[id := s.objects[id].(size := size)])
    case SetDataType(id, dataType) => s.(objects := s.objects[id := s.objects[id].(dataType := dataType)])
    case CompleteUpload(id) => s.(objects := s.objects[id := s.objects[id].(uploadCompleted := true)])
    case MarkDeleted(id) => s.(objects := s.objects[id := s.objects[id].(deleted := true)])
    case UploadRecord(key, u) => s.(records := s.records[key := RecordAfter(Get(s.records, key), u)])
    case SetRecord(key, record) => s.(records := s.records[key := record])
    case AddScore(key, amount, _) => s.(rankings := s.rankings[key := ScoreIn(s, key) + amount])
    case SetScore(key, value) => s.(rankings := s.rankings[key := value])
    case InitScore(key) => if key in s.rankings then s else s.(rankings := s.rankings[key := 0])
    case InitRating(key, initial) => if key in s.ratings then s else s.(ratings := s.ratings[key := Rating(initial, 0)])
    case Rate(key, value) => s.(ratings := Rated(s.ratings, key, value))
    case SetRating(key, total) =>
      s.(ratings := s.ratings[key := Rating(total, if key in s.ratings then s.ratings[key].count else 1)])
    case AddBuffer(key, buffer, now) => s.(buffers := s.buffers[key := SlotOf(s, key)[buffer := now]])
  }

  predicate CanRun(s: Store, ws: seq<Write>)
    decreases |ws|
  {
    ws == [] || (Enabled(s, ws[0]) && CanRun(Apply(s, ws[0]), ws[1..]))
  }

  function Run(s: Store, ws: seq<Write>): Store
    requires CanRun(s, ws)
    decreases |ws|
  {
    if ws == [] then s else Run(Apply(s, ws[0]), ws[1..])
  }

  lemma {:induction false} RunConcat(s: Store, a: seq<Write>, b: seq<Write>)
    requires CanRun(s, a) && CanRun(Run(s, a), b)
    ensures CanRun(s, a + b) && Run(s, a + b) == Run(Run(s, a), b)
    decreases |a|
  {
    if a == [] {
      assert a + b == b;
    } else {
      assert (a + b)[1..] == a[1..] + b;
      RunConcat(Apply(s, a[0]), a[1..], b);
    }
  }

  lemma {:induction false} RunSplit(s: Store, a: seq<Write>, b: seq<Write>)
    requires CanRun(s, a + b)
    ensures CanRun(s, a) && CanRun(Run(s, a), b) && Run(s, a + b) == Run(Run(s, a), b)
    decreases |a|
  {
    if a == [] {
      assert a + b == b;
    } else {
      assert (a + b)[1..] == a[1..] + b;
      RunSplit(Apply(s, a[0]), a[1..], b);
    }
  }

  lemma RunAppend(s: Store, ws: seq<Write>, w: Write)
    requires CanRun(s, ws) && Enabled(Run(s, ws), w)
    ensures CanRun(s, ws + [w]) && Run(s, ws + [w]) == Apply(Run(s, ws), w)
  {
    assert [w][1..] == [];
    RunConcat(s, ws, [w]);
  }

  // ---------------------------------------------------------------- course records

  function UploadsTo(ws: seq<Write>, key: Key): seq<Upload>
    decreases |ws|
  {
    if ws == [] then []
    else (if ws[0].UploadRecord? && ws[0].key == key then [ws[0].upload] else []) + UploadsTo(ws[1..], key)
  }

  function Best(r: Option<Record>, us: seq<Upload>): Option<Record> {
    if us == [] then r
    else Some(RecordAfter(Best(r, us[..|us| - 1]), us[|us| - 1]))
  }

  lemma {:induction false} BestFrom(r: Option<Record>, us: seq<Upload>)
    requires us != []
    ensures Best(r, us) == Best(Some(RecordAfter(r, us[0])), us[1..])
    decreases |us|
  {
    var n := |us| - 1;
    if n == 0 {
      assert us[..0] == [];
    } else {
      BestFrom(r, us[..n]);
      assert us[..n][1..] == us[1..][..n - 1];
    }
  }

  /** The row of a course is the fold of the uploads to it, unless an administrator writes it. */
  lemma {:induction false} RecordIsFold(s: Store, ws: seq<Write>, key: Key)
    requires CanRun(s, ws) && forall w :: w in ws && w.SetRecord? ==> w.key != key
    ensures Get(Run(s, ws).records, key) == Best(Get(s.records, key), UploadsTo(ws, key))
    decreases |ws|
  {
    if ws != [] {
      assert ws[0] in ws;
      var t := Apply(s, ws[0]);
      RecordIsFold(t, ws[1..], key);
      if ws[0].UploadRecord? && ws[0].key == key {
        var us := UploadsTo(ws, key);
        assert us[1..] == UploadsTo(ws[1..], key);
        BestFrom(Get(s.records, key), us);
      } else {
        assert Get(t.records, key) == Get(s.records, key);
        assert UploadsTo(ws, key) == UploadsTo(ws[1..], key);
      }
    }
  }

  /** `i` is the earliest upload of the best score. */
  predicate IsEarliestBest(us: seq<Upload>, i: nat) {
    && i < |us|
    && (forall j :: 0 <= j < |us| ==> us[j].score >= us[i].score)
    && (forall j :: 0 <= j < i ==> us[j].score > us[i].score)
  }

  /** Score, holder and update time are those of the earliest best upload; the founder is the first uploader. */
  lemma {:induction false} BestIsEarliestBest(us: seq<Upload>) returns (i: nat)
    requires us != []
    ensures IsEarliestBest(us, i)
    ensures Best(None, us) == Some(Record(us[0].p, us[i].p, us[i].score, us[0].now, us[i].now))
    decreases |us|
  {
    var n := |us| - 1;
    if n == 0 {
      i := 0;
      assert us[..0] == [];
    } else {
      i := BestIsEarliestBest(us[..n]);
      assert us[..n][0] == us[0] && us[..n][i] == us[i];
      if us[i].score > us[n].score {
        i := n;
      }
    }
  }

  /** The best score does not depend on the order of the uploads. */
  lemma BestScoreIgnoresOrder(us: seq<Upload>, vs: seq<Upload>)
    requires multiset(us) == multiset(vs) && us != []
    ensures vs != [] && Best(None, us).Some? && Best(None, vs).Some?
    ensures Best(None, us).value.bestScore == Best(None, vs).value.bestScore
  {
    assert us[0] in multiset(us) && us[0] in multiset(vs);
    var i := BestIsEarliestBest(us);
    var j := BestIsEarliestBest(vs);
    assert us[i] in multiset(vs) && vs[j] in multiset(us);
    var k :| 0 <= k < |vs| && vs[k] == us[i];
    var l :| 0 <= l < |us| && us[l] == vs[j];
  }

  /** A standing record changes hands exactly when some upload beats it, and its founder never changes. */
  lemma {:induction false} RecordFallsIff(r: Record, us: seq<Upload>)
    ensures Best(Some(r), us).Some? && var b := Best(Some(r), us).value;
      && b.firstPid == r.firstPid && b.created == r.created && b.bestScore <= r.bestScore
      && (b != r ==> b.bestScore < r.bestScore)
      && (b.bestScore < r.bestScore <==> exists u :: u in us && u.score < r.bestScore)
      && (forall u :: u in us ==> b.bestScore <= u.score)
    decreases |us|
  {
    if us != [] {
      var n := |us| - 1;
      RecordFallsIff(r, us[..n]);
      assert us == us[..n] + [us[n]];
    }
  }

  // ---------------------------------------------------------------- stars and ratings

  function ScoreSum(ws: seq<Write>, key: Key): int
    decreases |ws|
  {
    if ws == [] then 0
    else (if ws[0].AddScore? && ws[0].key == key then ws[0].amount else 0) + ScoreSum(ws[1..], key)
  }

  /** Scores accumulate: nothing is lost and nothing counted twice. */
  lemma {:induction false} ScoresAddUp(s: Store, ws: seq<Write>, key: Key)
    requires CanRun(s, ws) && forall w :: w in ws && w.SetScore? ==> w.key != key
    ensures ScoreIn(Run(s, ws), key) == ScoreIn(s, key) + ScoreSum(ws, key)
    decreases |ws|
  {
    if ws != [] {
      assert ws[0] in ws;
      ScoresAddUp(Apply(s, ws[0]), ws[1..], key);
    }
  }

  function RatingsOf(ws: seq<Write>, key: Key): seq<int>
    decreases |ws|
  {
    if ws == [] then [] else (if ws[0].Rate? && ws[0].key == key then [ws[0].value] else []) + RatingsOf(ws[1..], key)
  }

  function SumOf(values: seq<int>): int {
    if values == [] then 0 else values[0] + SumOf(values[1..])
  }

  predicate Initialises(w: Write, key: Key) {
    (w.InitRating? || w.SetRating?) && w.key == key
  }

  lemma OneRating(s: Store, w: Write, key: Key)
    requires Enabled(s, w) && !(w.SetRating? && w.key == key) && (key in s.ratings || !Initialises(w, key))
    ensures
      var after, values := Apply(s, w).ratings, RatingsOf([w], key);
      if key in s.ratings then
        key in after && after[key] == Rating(s.ratings[key].total + SumOf(values), s.ratings[key].count + |values|)
      else key !in after
  {
    assert [w][1..] == [];
  }

  lemma {:induction false} SumOfConcat(a: seq<int>, b: seq<int>)
    ensures SumOf(a + b) == SumOf(a) + SumOf(b)
  {
    if a == [] {
      assert a + b == b;
    } else {
      assert (a + b)[1..] == a[1..] + b;
      SumOfConcat(a[1..], b);
    }
  }

  /** An initialised slot counts and sums its ratings; one that is never initialised loses them all. */
  lemma {:induction false} RatingsAddUp(s: Store, ws: seq<Write>, key: Key)
    requires CanRun(s, ws)
    requires forall w :: w in ws && w.SetRating? ==> w.key != key
    requires key in s.ratings || forall w :: w in ws ==> !Initialises(w, key)
    ensures
      var after, values := Run(s, ws).ratings, RatingsOf(ws, key);
      if key in s.ratings then
        key in after && after[key] == Rating(s.ratings[key].total + SumOf(values), s.ratings[key].count + |values|)
      else key !in after
    decreases |ws|
  {
    if ws != [] {
      assert ws[0] in ws;
      OneRating(s, ws[0], key);
      RatingsAddUp(Apply(s, ws[0]), ws[1..], key);
      assert [ws[0]][1..] == [];
      assert RatingsOf(ws, key) == RatingsOf([ws[0]], key) + RatingsOf(ws[1..], key);
      SumOfConcat(RatingsOf([ws[0]], key), RatingsOf(ws[1..], key));
    }
  }

  // ---------------------------------------------------------------- buffer queues

  function AdditionsTo(ws: seq<Write>, key: Key): seq<Buffer>
    decreases |ws|
  {
    if ws == [] then [] else AddedBy(ws[0], key) + AdditionsTo(ws[1..], key)
  }

  function AddedBy(w: Write, key: Key): seq<Buffer> {
    if w.AddBuffer? && w.key == key then [w.buffer] else []
  }

  /** A clock that goes forward with every buffer that is added. */
  predicate Clocked(ws: seq<Write>, since: Time)
    decreases |ws|
  {
    ws == []
    || if ws[0].AddBuffer? then ws[0].now > since && Clocked(ws[1..], ws[0].now) else Clocked(ws[1..], since)
  }

  lemma ClockedHead(ws: seq<Write>, since: Time)
    requires Clocked(ws, since) && ws != []
    ensures Clocked([ws[0]], since) && Clocked(ws[1..], if ws[0].AddBuffer? then ws[0].now else since)
  {
  }

  lemma TouchInOrder(s: Store, w: Write, key: Key, past: seq<Buffer>, since: Time)
    requires Enabled(s, w) && Clocked([w], since) && InOrder(SlotOf(s, key), LastTouch(past), since)
    ensures InOrder(SlotOf(Apply(s, w), key), LastTouch(past + AddedBy(w, key)), if w.AddBuffer? then w.now else since)
  {
    if w.AddBuffer? && w.key == key {
      TouchKeepsOrder(SlotOf(s, key), LastTouch(past), since, w.buffer, w.now);
      assert (past + [w.buffer])[..|past|] == past;
    } else {
      assert past + [] == past && SlotOf(Apply(s, w), key) == SlotOf(s, key);
    }
  }

  lemma Associate(a: seq<Buffer>, b: seq<Buffer>, c: seq<Buffer>)
    ensures a + b + c == a + (b + c)
  {
  }

  lemma {:induction false} QueueFollowsTouches(s: Store, ws: seq<Write>, key: Key, past: seq<Buffer>, since: Time)
    returns (now: Time)
    requires CanRun(s, ws) && Clocked(ws, since) && InOrder(SlotOf(s, key), LastTouch(past), since)
    ensures InOrder(SlotOf(Run(s, ws), key), LastTouch(past + AdditionsTo(ws, key)), now)
    decreases |ws|
  {
    if ws == [] {
      now := since;
      assert past + [] == past;
    } else {
      var added := AddedBy(ws[0], key);
      ClockedHead(ws, since);
      TouchInOrder(s, ws[0], key, past, since);
      now := QueueFollowsTouches(Apply(s, ws[0]), ws[1..], key, past + added, if ws[0].AddBuffer? then ws[0].now else since);
      Associate(past, added, AdditionsTo(ws[1..], key));
    }
  }

  /**
   With a strictly increasing clock, reading a slot gives the buffers in last-touch order: the fold "remove if
   present, append" over the additions to it.
   */
  lemma QueueIsLastTouch(ws: seq<Write>, key: Key, since: Time, q: seq<Buffer>)
    requires CanRun(EMPTY_STORE, ws) && Clocked(ws, since) && IsReading(SlotOf(Run(EMPTY_STORE, ws), key), q)
    ensures q == LastTouch(AdditionsTo(ws, key))
  {
    var now := QueueFollowsTouches(EMPTY_STORE, ws, key, [], since);
    assert [] + AdditionsTo(ws, key) == AdditionsTo(ws, key);
    ReadingIsUnique(SlotOf(Run(EMPTY_STORE, ws), key), LastTouch(AdditionsTo(ws, key)), q);
  }

  // ---------------------------------------------------------------- the life of an object

  /** Flags only ever go up, and nothing puts an object under review. */
  predicate Rises(before: Object, after: Object) {
    && (before.uploadCompleted ==> after.uploadCompleted) && (before.deleted ==> after.deleted)
    && after.underReview == before.underReview && after.owner == before.owner
  }

  lemma WriteRaisesFlags(s: Store, w: Write, id: DataId)
    requires Enabled(s, w) && id in s.objects
    ensures id in Apply(s, w).objects && Rises(s.objects[id], Apply(s, w).objects[id])
  {
  }

  lemma {:induction false} FlagsOnlyRise(s: Store, ws: seq<Write>, id: DataId)
    requires CanRun(s, ws) && id in s.objects
    ensures id in Run(s, ws).objects && Rises(s.objects[id], Run(s, ws).objects[id])
    decreases |ws|
  {
    if ws != [] {
      WriteRaisesFlags(s, ws[0], id);
      FlagsOnlyRise(Apply(s, ws[0]), ws[1..], id);
    }
  }

  /** Availability goes off, on, off: what has been available and is no longer never becomes available again. */
  lemma AvailabilityIsOneWay(s: Store, until: seq<Write>, after: seq<Write>, id: DataId)
    requires CanRun(s, until) && CanRun(Run(s, until), after)
    requires IsAvailable(s, id) && !IsAvailable(Run(s, until), id)
    ensures !IsAvailable(Run(Run(s, until), after), id)
  {
    FlagsOnlyRise(s, until, id);
    FlagsOnlyRise(Run(s, until), after, id);
  }

  /** What clients can change about an object besides its row. */
  ghost predicate SameAbout(s: Store, t: Store, id: DataId) {
    forall key: Key :: key.id == id ==>
      && Get(t.records, key) == Get(s.records, key) && Get(t.rankings, key) == Get(s.rankings, key)
      && Get(t.ratings, key) == Get(s.ratings, key) && Get(t.buffers, key) == Get(s.buffers, key)
  }

  lemma WriteLeavesDeletedAlone(s: Store, w: Write, id: DataId)
    requires Enabled(s, w) && !IsAdmin(w) && id in s.objects && s.objects[id].deleted
    ensures SameAbout(s, Apply(s, w), id)
  {
  }

  /** After its deletion no client request changes an object's records, stars, ratings or buffers. */
  lemma {:induction false} DeletedIsFrozen(s: Store, ws: seq<Write>, id: DataId)
    requires CanRun(s, ws) && (forall w :: w in ws ==> !IsAdmin(w)) && id in s.objects && s.objects[id].deleted
    ensures SameAbout(s, Run(s, ws), id)
    decreases |ws|
  {
    if ws != [] {
      assert ws[0] in ws;
      var t := Apply(s, ws[0]);
      WriteLeavesDeletedAlone(s, ws[0], id);
      WriteRaisesFlags(s, ws[0], id);
      DeletedIsFrozen(t, ws[1..], id);
    }
  }

  // ---------------------------------------------------------------- DataIDs

  ghost predicate IdsAhead(s: Store) {
    START <= s.sequence.last <= MAX_VALUE && forall id :: id in s.objects ==> OutOfReach(s.sequence, id)
  }

  lemma WriteKeepsIdsAhead(s: Store, w: Write)
    requires IdsAhead(s) && Enabled(s, w)
    ensures IdsAhead(Apply(s, w))
  {
  }

  lemma {:induction false} WritesKeepIdsAhead(s: Store, ws: seq<Write>)
    requires IdsAhead(s) && CanRun(s, ws)
    ensures IdsAhead(Run(s, ws))
    decreases |ws|
  {
    if ws != [] {
      WriteKeepsIdsAhead(s, ws[0]);
      WritesKeepIdsAhead(Apply(s, ws[0]), ws[1..]);
    }
  }
}
