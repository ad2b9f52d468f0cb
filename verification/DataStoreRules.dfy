/**
 Who may do what to the course tables, and what a reader is given, said with columns alone. The rules bind the functions
 of `DataStore`, `DataStoreTables` and `DataIds` from outside.
 */
module DataStoreRules {
  import opened ParticipantLists
  import opened Tables
  import opened DataIds
  import opened DataStoreTables
  import opened DataStoreWrites
  import opened DataStore

  /** Uploaded, not deleted, not held back. */
  predicate Usable(objects: map<DataId, Object>, id: DataId) {
    id in objects && objects[id].uploadCompleted && !objects[id].deleted && !objects[id].underReview
  }

  lemma UnavailableRule(s: Store, id: DataId)
    ensures IsAvailable(s, id) <==> Usable(s.objects, id)
    ensures Unavailable(s.objects, id)
         == if Usable(s.objects, id) then None
            else if id in s.objects && s.objects[id].uploadCompleted && !s.objects[id].deleted then Some(UnderReviewing)
            else Some(NotFound)
  {
  }

  /** Owners always; beyond that anyone, friends, the recipients or nobody, by level. There are four levels. */
  lemma PermissionRule(owner: Pid, accessor: Pid, permission: Permission, friends: Pid -> seq<Pid>)
    ensures
      var refused := VerifyObjectPermission(owner, accessor, permission, friends);
      && (refused == Some(StoreError.InvalidArgument) <==> permission.level > 3)
      && (refused == None
          <==> permission.level <= 3
               && (accessor == owner || permission.level == 0 || (permission.level == 1 && accessor in friends(owner))
                   || (permission.level == 2 && accessor in permission.recipients)))
      && (refused.Some? ==> refused.value == StoreError.InvalidArgument || refused.value == StoreError.PermissionDenied)
  {
  }

  /** Ratings ask for the permission to access, changes for the permission to delete, buffers only in makers' slot 0. */
  lemma RefusalRule(objects: map<DataId, Object>, p: Pid, key: Key, friends: Pid -> seq<Pid>)
    ensures
      var rating, change, buffer := RatingRefused(objects, p, key.id, friends), ChangeRefused(objects, p, key.id, friends),
                                    BufferRefused(objects, p, key);
      if !Usable(objects, key.id) then rating == change == buffer == Unavailable(objects, key.id)
      else
        var o := objects[key.id];
        && rating == VerifyObjectPermission(o.owner, p, o.permission, friends)
        && change == VerifyObjectPermission(o.owner, p, o.deletePermission, friends)
        && buffer == if key.slot == 0 && o.dataType == 1 && o.owner != p then Some(StoreError.PermissionDenied) else None
  {
  }

  /** An upload is complete when the stored file has the size that was announced. */
  lemma CompleteRule(objects: map<DataId, Object>, file: Stored)
    ensures Incomplete(objects, file) == None <==> file.id in objects && file.size == Some(objects[file.id].size)
    ensures Incomplete(objects, file) == Some(NotFound) <==> file.size == None || file.id !in objects
    ensures Incomplete(objects, file) != None && Incomplete(objects, file) != Some(NotFound) ==>
              Incomplete(objects, file) == Some(StoreError.Unknown)
  {
  }

  // ---------------------------------------------------------------- lists

  /** Scores are handled one by one: those of usable objects are added, the others left out. */
  lemma ScoreRule(objects: map<DataId, Object>, one: Target)
    ensures AcceptedScores(objects, [one])
         == if Usable(objects, one.key.id) then [AddScore(one.key, one.value, false)] else []
  {
    assert [one][..0] == [];
  }

  lemma {:induction false} ScoresRule(objects: map<DataId, Object>, a: seq<Target>, b: seq<Target>)
    ensures AcceptedScores(objects, a + b) == AcceptedScores(objects, a) + AcceptedScores(objects, b)
    decreases |b|
  {
    if b == [] {
      assert a + b == a;
    } else {
      var n := |b| - 1;
      assert (a + b)[..|a| + n] == a + b[..n] && (a + b)[|a| + n] == b[n];
      ScoresRule(objects, a, b[..n]);
    }
  }

  /** Rankings come in the order asked for, as often as asked for, without those that cannot be shown. */
  lemma RankingRule(s: Store, applicationID: nat, one: DataId)
    ensures
      var key := Key(one, applicationID);
      Ranked(s, applicationID, [one])
      == if Usable(s.objects, one) && key in s.rankings && 0 <= s.rankings[key] < 0x1_0000_0000 then [(one, s.rankings[key])]
         else []
  {
    assert [one][..0] == [];
  }

  lemma {:induction false} RankedRule(s: Store, applicationID: nat, a: seq<DataId>, b: seq<DataId>)
    ensures Ranked(s, applicationID, a + b) == Ranked(s, applicationID, a) + Ranked(s, applicationID, b)
    decreases |b|
  {
    if b == [] {
      assert a + b == a;
    } else {
      var n := |b| - 1;
      assert (a + b)[..|a| + n] == a + b[..n] && (a + b)[|a| + n] == b[n];
      RankedRule(s, applicationID, a, b[..n]);
    }
  }

  function ValuesFor(targets: seq<Target>, key: Key): seq<int> {
    if targets == [] then []
    else
      var n := |targets| - 1;
      ValuesFor(targets[..n], key) + if targets[n].key == key then [targets[n].value] else []
  }

  /** A batch of ratings adds every value to its own slot. */
  lemma {:induction false} BatchRule(ratings: map<Key, Rating>, targets: seq<Target>, key: Key)
    ensures
      var after, values := RatedEach(ratings, targets), ValuesFor(targets, key);
      if key in ratings then
        key in after && after[key] == Rating(ratings[key].total + SumOf(values), ratings[key].count + |values|)
      else key !in after
    decreases |targets|
  {
    if targets != [] {
      var n := |targets| - 1;
      BatchRule(ratings, targets[..n], key);
      SumOfConcat(ValuesFor(targets[..n], key), if targets[n].key == key then [targets[n].value] else []);
      assert [targets[n].value][1..] == [];
    }
  }

  /** And answers with each slot as it is right after its turn. */
  lemma {:induction false} AnswersRule(ratings: map<Key, Rating>, targets: seq<Target>, i: nat)
    requires i < |targets|
    ensures |Answers(ratings, targets)| == |targets|
    ensures
      var after := RatedEach(ratings, targets[..i + 1]);
      Answers(ratings, targets)[i] == if targets[i].key in after then after[targets[i].key] else Rating(0, 0)
    decreases |targets|
  {
    var n := |targets| - 1;
    if i < n {
      AnswersRule(ratings, targets[..n], i);
      assert targets[..n][..i + 1] == targets[..i + 1] && targets[..n][i] == targets[i];
    } else {
      assert targets[..i + 1] == targets;
      if n > 0 {
        AnswersRule(ratings, targets[..n], 0);
      }
    }
  }

  // ---------------------------------------------------------------- DataIDs

  /** The sequence starts at 940000, goes up by one, ends at 2^48, and is moved past an import it can pass. */
  lemma SequenceRule(q: Sequence, id: DataId)
    requires 1 <= q.last <= 281474976710656
    ensures NextVal(NEW_SEQUENCE) == Some(940000)
    ensures NextVal(q) == None <==> q == Sequence(281474976710656, true)
    ensures NextVal(q).Some? ==> Position(Advanced(q)) == NextVal(q).value + 1
    ensures NextVal(q).None? ==> Advanced(q) == q
    ensures id > 281474976710656 ==> Bumped(q, id) == q
    ensures id <= 281474976710656 ==>
              Position(Bumped(q, id)) == if id > q.last then id + 1 else q.last + 1
  {
  }
}
