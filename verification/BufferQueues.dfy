/** Buffer queues, as values: reading by creation date, and the order of the last touches. */
module BufferQueues {
  import opened ParticipantLists
  import opened DataStoreTables

  /** Remove if present, append. */
  function LastTouch(added: seq<Buffer>): seq<Buffer> {
    if added == [] then [] else Without(LastTouch(added[..|added| - 1]), added[|added| - 1]) + [added[|added| - 1]]
  }

  /** `i` is the last addition of its buffer. */
  predicate IsLastAddition(added: seq<Buffer>, i: nat) {
    i < |added| && forall j :: i < j < |added| ==> added[j] != added[i]
  }

  function Before(q: seq<Buffer>, b: Buffer, c: Buffer): bool {
    exists k, l :: 0 <= k < l < |q| && q[k] == b && q[l] == c
  }

  lemma {:induction false} WithoutKeepsOrder(q: seq<Buffer>, x: Buffer, k: nat, l: nat)
    requires k < l < |q| && q[k] != x && q[l] != x
    ensures Before(Without(q, x), q[k], q[l])
  {
    if k == 0 {
      WithoutMembers(q[1..], x, q[l]);
      assert q[1..][l - 1] == q[l];
      assert q[l] in Without(q[1..], x);
      var m :| 0 <= m < |Without(q[1..], x)| && Without(q[1..], x)[m] == q[l];
      assert Without(q, x)[0] == q[0] && Without(q, x)[m + 1] == q[l];
    } else {
      WithoutKeepsOrder(q[1..], x, k - 1, l - 1);
      var rest := Without(q[1..], x);
      var m, n :| 0 <= m < n < |rest| && rest[m] == q[k] && rest[n] == q[l];
      if q[0] != x {
        assert Without(q, x)[m + 1] == q[k] && Without(q, x)[n + 1] == q[l];
      }
    }
  }

  lemma {:induction false} WithoutKeepsNoRepeats(q: seq<Buffer>, x: Buffer)
    requires NoRepeats(q)
    ensures NoRepeats(Without(q, x))
  {
    if q != [] {
      WithoutKeepsNoRepeats(q[1..], x);
      WithoutMembers(q[1..], x, q[0]);
    }
  }

  /** The fold lists what was added, each buffer once. */
  lemma {:induction false} LastTouchMembers(added: seq<Buffer>)
    ensures forall b :: b in LastTouch(added) <==> b in added
    ensures NoRepeats(LastTouch(added))
  {
    if added != [] {
      var init, last := added[..|added| - 1], added[|added| - 1];
      LastTouchMembers(init);
      WithoutKeepsNoRepeats(LastTouch(init), last);
      assert added == init + [last];
      forall b
        ensures b in LastTouch(added) <==> b in added
      {
        WithoutMembers(LastTouch(init), last, b);
      }
    }
  }

  /** And it orders them by their most recent additions. */
  lemma {:induction false} LastTouchOrder(added: seq<Buffer>, i: nat, j: nat)
    requires i < j && IsLastAddition(added, i) && IsLastAddition(added, j)
    ensures Before(LastTouch(added), added[i], added[j])
    decreases |added|
  {
    var n := |added| - 1;
    var init, last := added[..n], added[n];
    var queue := LastTouch(init);
    var q := Without(queue, last);
    assert added[i] == init[i] && added[i] != last;
    if j == n {
      LastTouchMembers(init);
      WithoutMembers(queue, last, added[i]);
      var k :| 0 <= k < |q| && q[k] == added[i];
      assert LastTouch(added)[k] == added[i] && LastTouch(added)[|q|] == last;
    } else {
      assert added[j] == init[j] && added[j] != last;
      LastTouchOrder(init, i, j);
      var k, l :| 0 <= k < l < |queue| && queue[k] == added[i] && queue[l] == added[j];
      WithoutKeepsOrder(queue, last, k, l);
      var m, m' :| 0 <= m < m' < |q| && q[m] == added[i] && q[m'] == added[j];
      assert LastTouch(added)[m] == q[m] && LastTouch(added)[m'] == q[m'];
    }
  }

  /** What reading a slot by creation date may return. */
  ghost predicate IsReading(slot: map<Buffer, Time>, q: seq<Buffer>) {
    && (forall b :: b in q <==> b in slot)
    && NoRepeats(q)
    && (forall i, j :: 0 <= i < j < |q| ==> slot[q[i]] <= slot[q[j]])
  }

  predicate Ascending(slot: map<Buffer, Time>, q: seq<Buffer>) {
    (forall b :: b in q ==> b in slot) && forall i, j :: 0 <= i < j < |q| ==> slot[q[i]] < slot[q[j]]
  }

  lemma LastIsLatest(slot: map<Buffer, Time>, q: seq<Buffer>, b: Buffer)
    requires Ascending(slot, q) && b in q
    ensures slot[b] <= slot[q[|q| - 1]] && (slot[b] == slot[q[|q| - 1]] ==> b == q[|q| - 1])
  {
  }

  lemma WithoutLast(slot: map<Buffer, Time>, q: seq<Buffer>)
    requires Ascending(slot, q) && q != []
    ensures forall b :: b in q[..|q| - 1] <==> b in q && b != q[|q| - 1]
  {
    var init, last := q[..|q| - 1], q[|q| - 1];
    assert q == init + [last];
    assert forall i :: 0 <= i < |init| ==> slot[q[i]] < slot[last];
  }

  lemma FirstIsIn(r: seq<Buffer>)
    requires r != []
    ensures r[0] in r
  {
  }

  /** The elements of an ascending queue determine it. */
  lemma {:induction false} AscendingIsUnique(slot: map<Buffer, Time>, q: seq<Buffer>, r: seq<Buffer>)
    requires Ascending(slot, q) && Ascending(slot, r) && forall b :: b in q <==> b in r
    ensures r == q
    decreases |q|
  {
    if q == [] {
      if r != [] {
        FirstIsIn(r);
        assert false;
      }
    } else {
      var last := q[|q| - 1];
      assert last in q && last in r && r[|r| - 1] in r;
      LastIsLatest(slot, q, r[|r| - 1]);
      LastIsLatest(slot, r, last);
      assert r[|r| - 1] == last;
      WithoutLast(slot, q);
      WithoutLast(slot, r);
      var q', r' := q[..|q| - 1], r[..|r| - 1];
      assert forall b :: b in q' <==> b in q && b != last;
      assert forall b :: b in r' <==> b in r && b != last;
      AscendingIsUnique(slot, q', r');
    }
  }

  /** Reading a slot whose dates are distinct leaves no choice. */
  lemma ReadingIsUnique(slot: map<Buffer, Time>, q: seq<Buffer>, r: seq<Buffer>)
    requires Ascending(slot, q) && (forall b :: b in slot ==> b in q) && IsReading(slot, r)
    ensures r == q
  {
    forall i, j | 0 <= i < j < |r|
      ensures slot[r[i]] < slot[r[j]]
    {
      assert r[i] in q && r[j] in q;
      var k :| 0 <= k < |q| && q[k] == r[i];
      var l :| 0 <= l < |q| && q[l] == r[j];
      assert k != l && slot[q[k]] <= slot[q[l]];
    }
    AscendingIsUnique(slot, q, r);
  }

  lemma {:induction false} WithoutAscends(slot: map<Buffer, Time>, q: seq<Buffer>, x: Buffer)
    requires Ascending(slot, q)
    ensures Ascending(slot, Without(q, x))
  {
    if q != [] {
      WithoutAscends(slot, q[1..], x);
      var rest := Without(q[1..], x);
      forall b | b in rest
        ensures slot[q[0]] < slot[b]
      {
        WithoutMembers(q[1..], x, b);
        var i :| 0 <= i < |q[1..]| && q[1..][i] == b;
        assert q[i + 1] == b;
      }
      WithoutMembers(q, x, q[0]);
    }
  }

  /** A queue in the order of its dates, all of them up to `since`. */
  ghost predicate InOrder(slot: map<Buffer, Time>, q: seq<Buffer>, since: Time) {
    Ascending(slot, q) && (forall b :: b in slot ==> b in q && slot[b] <= since)
  }

  /** Touching a buffer now moves it to the end. */
  lemma TouchKeepsOrder(slot: map<Buffer, Time>, q: seq<Buffer>, since: Time, buffer: Buffer, now: Time)
    requires InOrder(slot, q, since) && now > since
    ensures InOrder(slot[buffer := now], Without(q, buffer) + [buffer], now)
  {
    var rest := Without(q, buffer);
    WithoutAscends(slot, q, buffer);
    forall b
      ensures b in rest <==> b in slot && b != buffer
    {
      WithoutMembers(q, buffer, b);
    }
    assert forall i :: 0 <= i < |rest| ==> rest[i] in rest;
  }
}
