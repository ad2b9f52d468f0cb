/** The course tables: objects, course records, custom rankings, ratings and buffer queues. */
module DataStoreTables {
  import opened ParticipantLists
  import opened Tables
  import opened DataIds

  type Time = int
  type Buffer = seq<bv8>

  /** Who may rate or change an object: 0 is anyone, 1 the owner's friends, 2 the recipients, 3 the owner. */
  datatype Permission = Permission(level: nat, recipients: seq<Pid>)

  datatype Object = Object(
    owner: Pid, size: nat, dataType: nat, permission: Permission, deletePermission: Permission,
    uploadCompleted: bool, deleted: bool, underReview: bool)

  datatype Record = Record(firstPid: Pid, bestPid: Pid, bestScore: int, created: Time, updated: Time)
  datatype Rating = Rating(total: int, count: nat)

  /** A slot of an object, or a custom ranking of it. */
  datatype Key = Key(id: DataId, slot: nat)

  datatype Store = Store(
    objects: map<DataId, Object>,
    sequence: Sequence,
    records: map<Key, Record>,
    rankings: map<Key, int>,
    ratings: map<Key, Rating>,
    buffers: map<Key, map<Buffer, Time>>)

  const EMPTY_STORE: Store := Store(map[], NEW_SEQUENCE, map[], map[], map[], map[])

  datatype StoreError = NotFound | UnderReviewing | PermissionDenied | InvalidArgument | NotImplemented | AlreadyExists | Unknown

  predicate Available(o: Object) { o.uploadCompleted && !o.deleted && !o.underReview }

  predicate IsAvailable(s: Store, id: DataId) { id in s.objects && Available(s.objects[id]) }

  /** None: the object can be used. */
  function Unavailable(objects: map<DataId, Object>, id: DataId): Option<StoreError> {
    if id !in objects || !objects[id].uploadCompleted || objects[id].deleted then Some(NotFound)
    else if objects[id].underReview then Some(UnderReviewing)
    else None
  }

  function Get<K, V>(m: map<K, V>, k: K): Option<V> {
    if k in m then Some(m[k]) else None
  }
}
