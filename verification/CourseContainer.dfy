/**
 The course container: four compressed segments laid end to end, found again by their magic number, and described by
 a 44-byte header from which a client slices the file. The decompressor and the checksum are parameters.
 */
module CourseContainer {
  import opened Tables

  type Byte = b: nat | b < 0x100
  type Bytes = seq<Byte>
  type Word = w: nat | w < UINT32_SIZE

  /** "ASH0" */
  const MAGIC: Bytes := [0x41, 0x53, 0x48, 0x30]

  predicate IsAt(blob: Bytes, i: nat) {
    i + 4 <= |blob| && blob[i..i + 4] == MAGIC
  }

  // ---------------------------------------------------------------- occurrences

  /** The occurrences of the magic number below `n`, in order. */
  function StartsBelow(blob: Bytes, n: nat): seq<nat> {
    if n == 0 then [] else StartsBelow(blob, n - 1) + if IsAt(blob, n - 1) then [n - 1] else []
  }

  function Starts(blob: Bytes): seq<nat> { StartsBelow(blob, |blob|) }

  predicate Increasing(starts: seq<nat>) {
    forall k, l :: 0 <= k < l < |starts| ==> starts[k] < starts[l]
  }

  lemma AppendIncreases(starts: seq<nat>, last: nat)
    requires Increasing(starts) && forall s :: s in starts ==> s < last
    ensures Increasing(starts + [last])
  {
    assert forall k :: 0 <= k < |starts| ==> starts[k] in starts;
  }

  /** What `Starts` is: every occurrence, each once, in order. */
  lemma {:induction false} StartsMeaning(blob: Bytes, n: nat)
    ensures forall i: nat :: i in StartsBelow(blob, n) <==> i < n && IsAt(blob, i)
    ensures Increasing(StartsBelow(blob, n))
  {
    if n > 0 {
      StartsMeaning(blob, n - 1);
      AppendIncreases(StartsBelow(blob, n - 1), n - 1);
    }
  }

  /** The magic number is "ASH0". */
  lemma MagicRule(blob: Bytes, i: nat)
    requires i + 4 <= |blob|
    ensures IsAt(blob, i)
       <==> blob[i] == 'A' as nat && blob[i + 1] == 'S' as nat && blob[i + 2] == 'H' as nat && blob[i + 3] == '0' as nat
  {
    var found := blob[i..i + 4];
    assert found[0] == blob[i] && found[1] == blob[i + 1] && found[2] == blob[i + 2] && found[3] == blob[i + 3];
  }

  /** Occurrences do not overlap, so that resuming the search behind one misses none. */
  lemma NoOverlap(blob: Bytes, i: nat, j: nat)
    requires IsAt(blob, i) && IsAt(blob, j) && i < j
    ensures i + 4 <= j
  {
    MagicRule(blob, i);
    MagicRule(blob, j);
  }

  /** No occurrence straddles a join with something that begins with the magic number. */
  lemma NoStraddle(a: Bytes, b: Bytes, i: nat)
    requires b == [] || IsAt(b, 0)
    ensures IsAt(a + b, i) <==> if i < |a| then IsAt(a, i) else IsAt(b, i - |a|)
  {
    if i < |a| && i + 4 > |a| && IsAt(a + b, i) && b != [] {
      assert (a + b)[|a|..|a| + 4] == b[0..4];
      assert IsAt(a + b, |a|);
      NoOverlap(a + b, i, |a|);
    } else if i + 4 <= |a| {
      assert (a + b)[i..i + 4] == a[i..i + 4];
    } else if |a| <= i && i + 4 <= |a| + |b| {
      assert (a + b)[i..i + 4] == b[i - |a|..i - |a| + 4];
    } else if b == [] {
      assert a + b == a;
    }
  }

  function Shifted(starts: seq<nat>, offset: nat): seq<nat> {
    seq(|starts|, k requires 0 <= k < |starts| => starts[k] + offset)
  }

  lemma {:induction false} StartsOfJoin(a: Bytes, b: Bytes, n: nat)
    requires b == [] || IsAt(b, 0)
    ensures n <= |a| ==> StartsBelow(a + b, n) == StartsBelow(a, n)
    ensures n >= |a| ==> StartsBelow(a + b, n) == Starts(a) + Shifted(StartsBelow(b, n - |a|), |a|)
  {
    if n > 0 {
      StartsOfJoin(a, b, n - 1);
      NoStraddle(a, b, n - 1);
    }
  }

  // ---------------------------------------------------------------- splitting

  /** bytes.Index, from `idx` on. */
  method Index(blob: Bytes, idx: nat) returns (found: Option<nat>)
    requires idx <= |blob|
    ensures found.Some? ==> IsAt(blob, idx + found.value) && forall i :: idx <= i < idx + found.value ==> !IsAt(blob, i)
    ensures found.None? ==> forall i :: idx <= i ==> !IsAt(blob, i)
  {
    var i := idx;
    while i + 4 <= |blob|
      invariant idx <= i && forall j :: idx <= j < i ==> !IsAt(blob, j)
    {
      if blob[i..i + 4] == MAGIC {
        return Some(i - idx);
      }
      i := i + 1;
    }
    return None;
  }

  /** From one start to the next, and from the last to the end. */
  function SegmentAt(blob: Bytes, starts: seq<nat>, k: nat): Bytes
    requires k < |starts| && (forall s :: s in starts ==> s <= |blob|)
    requires Increasing(starts)
  {
    assert starts[k] in starts;
    assert k + 1 < |starts| ==> starts[k + 1] in starts;
    blob[starts[k]..if k + 1 < |starts| then starts[k + 1] else |blob|]
  }

  lemma StartsAreInside(blob: Bytes)
    ensures forall s :: s in Starts(blob) ==> s <= |blob|
    ensures Increasing(Starts(blob))
  {
    StartsMeaning(blob, |blob|);
  }

  function Segments(blob: Bytes): seq<Bytes> {
    StartsAreInside(blob);
    seq(|Starts(blob)|, k requires 0 <= k < |Starts(blob)| => SegmentAt(blob, Starts(blob), k))
  }

  lemma {:induction false} NothingBetween(blob: Bytes, from: nat, until: nat)
    requires from <= until && forall i :: from <= i < until ==> !IsAt(blob, i)
    ensures StartsBelow(blob, until) == StartsBelow(blob, from)
    decreases until
  {
    if from < until {
      NothingBetween(blob, from, until - 1);
    }
  }

  /** One round of the scan: from `idx` to behind the occurrence it finds. */
  lemma RoundMissesNone(blob: Bytes, idx: nat, start: nat)
    requires idx <= start && IsAt(blob, start) && forall i :: idx <= i < start ==> !IsAt(blob, i)
    ensures StartsBelow(blob, start + 4) == StartsBelow(blob, idx) + [start]
  {
    NothingBetween(blob, idx, start);
    forall i | start + 1 <= i < start + 4
      ensures !IsAt(blob, i)
    {
      if IsAt(blob, i) {
        NoOverlap(blob, start, i);
      }
    }
    NothingBetween(blob, start + 1, start + 4);
  }

  method FindStarts(blob: Bytes) returns (starts: seq<nat>)
    ensures starts == Starts(blob)
  {
    starts := [];
    var idx := 0;
    var found := Index(blob, idx);
    while found.Some?
      invariant idx <= |blob| && starts == StartsBelow(blob, idx)
      invariant found.Some? ==> IsAt(blob, idx + found.value) && forall i :: idx <= i < idx + found.value ==> !IsAt(blob, i)
      invariant found.None? ==> forall i :: idx <= i ==> !IsAt(blob, i)
      decreases |blob| - idx, found.Some?
    {
      RoundMissesNone(blob, idx, idx + found.value);
      starts := starts + [idx + found.value];
      idx := idx + found.value + 4;
      found := Index(blob, idx);
    }
    NothingBetween(blob, idx, |blob|);
  }

  method SplitCourseSegments(rawCourseData: Bytes) returns (r: Option<seq<Bytes>>)
    ensures r == if |Starts(rawCourseData)| == 4 then Some(Segments(rawCourseData)) else None
  {
    var starts := FindStarts(rawCourseData);
    StartsAreInside(rawCourseData);
    if |starts| != 4 {
      return None;
    }
    var segs: seq<Bytes> := [];
    for i := 0 to |starts|
      invariant segs == Segments(rawCourseData)[..i]
    {
      var end := |rawCourseData|;
      if i + 1 < |starts| {
        end := starts[i + 1];
        assert starts[i + 1] in starts;
      }
      assert starts[i] in starts;
      assert Segments(rawCourseData)[i] == rawCourseData[starts[i]..end];
      segs := segs + [rawCourseData[starts[i]..end]];
    }
    assert Segments(rawCourseData)[..|starts|] == Segments(rawCourseData);
    return Some(segs);
  }

  // ---------------------------------------------------------------- splitting undoes joining

  /** Begins with the magic number and contains it nowhere else. */
  predicate IsSegment(segment: Bytes) {
    IsAt(segment, 0) && Starts(segment) == [0]
  }

  predicate Free(junk: Bytes) { Starts(junk) == [] }

  function Joined(segments: seq<Bytes>): Bytes {
    if segments == [] then [] else Joined(segments[..|segments| - 1]) + segments[|segments| - 1]
  }

  /** A segment put at the end of anything is split off again, and nothing else changes. */
  lemma SegmentsOfAppended(a: Bytes, b: Bytes)
    requires IsSegment(b)
    ensures Starts(a + b) == Starts(a) + [|a|] && Segments(a + b) == Segments(a) + [b]
  {
    StartsOfJoin(a, b, |a| + |b|);
    StartsAreInside(a);
    StartsAreInside(a + b);
    assert Starts(a + b) == Starts(a) + [|a|];
    forall k | 0 <= k < |Starts(a)|
      ensures SegmentAt(a + b, Starts(a + b), k) == SegmentAt(a, Starts(a), k)
    {
      assert Starts(a)[k] in Starts(a);
      assert k + 1 < |Starts(a)| ==> Starts(a)[k + 1] in Starts(a);
    }
    assert SegmentAt(a + b, Starts(a + b), |Starts(a)|) == b;
  }

  lemma OneSegmentMore(junk: Bytes, segments: seq<Bytes>, last: Bytes)
    requires Segments(junk + Joined(segments)) == segments && IsSegment(last)
    ensures Segments(junk + Joined(segments + [last])) == segments + [last]
  {
    SegmentsOfAppended(junk + Joined(segments), last);
    assert (segments + [last])[..|segments|] == segments;
    assert junk + Joined(segments + [last]) == (junk + Joined(segments)) + last;
  }

  /** Any number of segments behind anything without the magic number: splitting returns exactly them. */
  lemma {:induction false} SplitUndoesJoin(junk: Bytes, segments: seq<Bytes>)
    requires Free(junk) && forall s :: s in segments ==> IsSegment(s)
    ensures Segments(junk + Joined(segments)) == segments
    decreases |segments|
  {
    if segments == [] {
      assert junk + [] == junk;
    } else {
      var init, last := segments[..|segments| - 1], segments[|segments| - 1];
      assert segments == init + [last];
      SplitUndoesJoin(junk, init);
      OneSegmentMore(junk, init, last);
    }
  }

  /** Cut before the last occurrence, a blob falls into a segment and a blob with one occurrence less. */
  lemma LastSegment(blob: Bytes) returns (a: Bytes, b: Bytes)
    requires Starts(blob) != []
    ensures blob == a + b && IsSegment(b) && |Starts(a)| == |Starts(blob)| - 1
  {
    var n := |Starts(blob)| - 1;
    var last := Starts(blob)[n];
    StartsMeaning(blob, |blob|);
    assert last in Starts(blob);
    a, b := blob[..last], blob[last..];
    assert b[0..4] == blob[last..last + 4] && blob == a + b;
    StartsOfJoin(a, b, |blob|);
    StartsMeaning(b, |b|);
    assert 0 in Starts(b);
    assert Starts(blob) == Starts(a) + Shifted(Starts(b), last);
    var m := |Starts(b)| - 1;
    assert Starts(b)[m] == 0;
    assert Starts(b)[0] <= Starts(b)[m];
  }

  /** Nothing is lost: whatever lies before the first occurrence and the segments make up the blob. */
  lemma {:induction false} JoinUndoesSplit(blob: Bytes) returns (junk: Bytes)
    ensures Free(junk) && (forall s :: s in Segments(blob) ==> IsSegment(s))
    ensures blob == junk + Joined(Segments(blob))
    decreases |Starts(blob)|
  {
    if Starts(blob) == [] {
      junk := blob;
      assert Segments(blob) == [] && blob == junk + [];
    } else {
      var a, b := LastSegment(blob);
      junk := JoinUndoesSplit(a);
      SegmentsOfAppended(a, b);
      assert blob == junk + Joined(Segments(a)) + b;
    }
  }

  lemma {:induction false} JoinedBegins(segments: seq<Bytes>)
    requires segments != [] && forall s :: s in segments ==> IsSegment(s)
    ensures IsAt(Joined(segments), 0)
    decreases |segments|
  {
    var init, last := segments[..|segments| - 1], segments[|segments| - 1];
    assert last in segments;
    if init == [] {
      assert Joined(segments) == last;
    } else {
      JoinedBegins(init);
      NoStraddle(Joined(init), last, 0);
    }
  }

  /** There is nothing before the first segment exactly when the blob begins with the magic number. */
  lemma NoJunkIff(junk: Bytes, segments: seq<Bytes>)
    requires Free(junk) && segments != [] && forall s :: s in segments ==> IsSegment(s)
    ensures junk == [] <==> IsAt(junk + Joined(segments), 0)
  {
    JoinedBegins(segments);
    NoStraddle(junk, Joined(segments), 0);
    StartsMeaning(junk, |junk|);
    assert IsAt(junk, 0) ==> 0 in Starts(junk);
    assert [] + Joined(segments) == Joined(segments);
  }

  /** What splits into four: exactly four segments joined, behind anything without the magic number. */
  lemma SplitsIff(blob: Bytes, segments: seq<Bytes>)
    requires segments != []
    ensures Segments(blob) == segments
       <==> (forall s :: s in segments ==> IsSegment(s)) && exists junk :: Free(junk) && blob == junk + Joined(segments)
  {
    if Segments(blob) == segments {
      var junk := JoinUndoesSplit(blob);
    }
    if (forall s :: s in segments ==> IsSegment(s)) && exists junk :: Free(junk) && blob == junk + Joined(segments) {
      var junk :| Free(junk) && blob == junk + Joined(segments);
      SplitUndoesJoin(junk, segments);
    }
  }
}
