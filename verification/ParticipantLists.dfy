/** Participant lists: sequences of principal IDs in which guests are repetitions of their player's own ID. */
module ParticipantLists {

  /** A principal ID. The value 0 means "nobody" to the host column and to ownership migration. */
  type Pid = nat

  /** The list with every copy of one value taken out, as Postgres' `array_remove` does. */
  function Without<T(==)>(ps: seq<T>, p: T): (r: seq<T>)
    ensures p !in r
    ensures |r| <= |ps|
  {
    if ps == [] then []
    else if ps[0] == p then Without(ps[1..], p)
    else [ps[0]] + Without(ps[1..], p)
  }

  function Copies(p: Pid, k: nat): (r: seq<Pid>)
    ensures |r| == k && forall i :: 0 <= i < k ==> r[i] == p
  {
    seq(k, _ => p)
  }

  lemma {:induction false} WithoutMembers<T>(ps: seq<T>, p: T, q: T)
    ensures q in Without(ps, p) <==> q in ps && q != p
  {
    if ps != [] {
      WithoutMembers(ps[1..], p, q);
      assert ps == [ps[0]] + ps[1..];
    }
  }

  lemma {:induction false} WithoutConcat<T>(a: seq<T>, b: seq<T>, p: T)
    ensures Without(a + b, p) == Without(a, p) + Without(b, p)
  {
    if a == [] {
      assert a + b == b;
    } else {
      assert (a + b)[1..] == a[1..] + b;
      WithoutConcat(a[1..], b, p);
    }
  }

  lemma {:induction false} WithoutAbsent<T>(ps: seq<T>, p: T)
    requires p !in ps
    ensures Without(ps, p) == ps
  {
    if ps != [] {
      WithoutAbsent(ps[1..], p);
    }
  }

  lemma {:induction false} WithoutCopies(p: Pid, k: nat)
    ensures Without(Copies(p, k), p) == []
  {
    if k > 0 {
      assert Copies(p, k)[1..] == Copies(p, k - 1);
      WithoutCopies(p, k - 1);
    }
  }

  lemma {:induction false} WithoutSwaps(ps: seq<Pid>, p: Pid, q: Pid)
    ensures Without(Without(ps, p), q) == Without(Without(ps, q), p)
  {
    if ps != [] {
      WithoutSwaps(ps[1..], p, q);
      WithoutConcat([ps[0]], Without(ps[1..], p), q);
      WithoutConcat([ps[0]], Without(ps[1..], q), p);
    }
  }

  /** Taking a PID out changes that PID's multiplicity to zero and no other multiplicity. */
  lemma {:induction false} WithoutMultiset(ps: seq<Pid>, p: Pid)
    ensures multiset(Without(ps, p)) == multiset(ps)[p := 0]
  {
    if ps != [] {
      assert ps == [ps[0]] + ps[1..];
      WithoutMultiset(ps[1..], p);
    }
  }

  /** The first occurrence of every value, in order. */
  function FirstOccurrences<T(==)>(xs: seq<T>): seq<T> {
    if xs == [] then []
    else
      var init, last := xs[..|xs| - 1], xs[|xs| - 1];
      FirstOccurrences(init) + if last in init then [] else [last]
  }

  predicate NoRepeats<T(==)>(xs: seq<T>) {
    forall i, j :: 0 <= i < j < |xs| ==> xs[i] != xs[j]
  }

  lemma AppendNoRepeats<T>(xs: seq<T>, last: T)
    requires NoRepeats(xs) && last !in xs
    ensures NoRepeats(xs + [last])
  {
    assert forall i :: 0 <= i < |xs| ==> xs[i] in xs;
  }

  /** What deduplication is for: the same values, each once, the earliest one first. */
  lemma {:induction false} FirstOccurrencesMeaning<T>(xs: seq<T>)
    ensures forall x :: x in FirstOccurrences(xs) <==> x in xs
    ensures NoRepeats(FirstOccurrences(xs))
    ensures xs != [] ==> FirstOccurrences(xs) != [] && FirstOccurrences(xs)[0] == xs[0]
  {
    if xs != [] {
      var init, last := xs[..|xs| - 1], xs[|xs| - 1];
      assert xs == init + [last];
      FirstOccurrencesMeaning(init);
      if last !in init {
        AppendNoRepeats(FirstOccurrences(init), last);
      }
    }
  }

  method RemoveDuplicates<T(==)>(sliceList: seq<T>) returns (list: seq<T>)
    ensures list == FirstOccurrences(sliceList)
    ensures forall x :: x in list <==> x in sliceList
    ensures NoRepeats(list)
  {
    var allKeys: map<T, bool> := map[];
    list := [];
    for i := 0 to |sliceList|
      invariant allKeys.Keys == set x | x in sliceList[..i]
      invariant list == FirstOccurrences(sliceList[..i])
    {
      var item := sliceList[i];
      assert sliceList[..i + 1] == sliceList[..i] + [item];
      if item !in allKeys {
        allKeys := allKeys[item := true];
        list := list + [item];
      }
    }
    assert sliceList[..|sliceList|] == sliceList;
    FirstOccurrencesMeaning(sliceList);
  }
}
