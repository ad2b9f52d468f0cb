/**
 The header of a course: eleven big-endian words that give the lengths and checksums of the four segments, in an
 order that is not the file's. It lets a client recover the segments from the file. Also the preview picture inside
 the first segment.
 */
module CourseHeader {
  import opened Tables
  import opened CourseContainer

  const HEADER_SIZE: nat := 44
  const GAME_MODE_AT: nat := 0x6A

  /** The game mode markers in the order of the style index: "M1", "M3", "MW", "WU". */
  const MARKERS: seq<Bytes> := [[0x4D, 0x31], [0x4D, 0x33], [0x4D, 0x57], [0x57, 0x55]]

  // ---------------------------------------------------------------- words

  function BigEndian(b0: nat, b1: nat, b2: nat, b3: nat): nat {
    b0 * 0x100_0000 + b1 * 0x1_0000 + b2 * 0x100 + b3
  }

  function WordAt(bytes: Bytes, at: nat): Word
    requires at + 4 <= |bytes|
  {
    BigEndian(bytes[at], bytes[at + 1], bytes[at + 2], bytes[at + 3])
  }

  /** The first byte weighs most. */
  lemma WordRule(bytes: Bytes, at: nat)
    requires at + 4 <= |bytes|
    ensures WordAt(bytes, at)
         == ((bytes[at] as int * 256 + bytes[at + 1]) * 256 + bytes[at + 2]) * 256 + bytes[at + 3]
  {
  }

  lemma BigEndianOfBytes(v: Word)
    ensures v / 0x100_0000 < 0x100
    ensures BigEndian(v / 0x100_0000, v / 0x1_0000 % 0x100, v / 0x100 % 0x100, v % 0x100) == v
  {
    var upper, upmost := v / 0x100, v / 0x1_0000;
    assert v == upper * 0x100 + v % 0x100 && upper == upmost * 0x100 + upper % 0x100;
    assert v / 0x100_0000 == upmost / 0x100 && upmost == upmost / 0x100 * 0x100 + upmost % 0x100;
  }

  /** The eleven words of a header. */
  function Words(header: Bytes): (words: seq<Word>)
    requires |header| == HEADER_SIZE
    ensures |words| == 11
  {
    seq(11, k requires 0 <= k < 11 => WordAt(header, 4 * k))
  }

  /** Header bytes and header words determine each other. */
  lemma WordsDetermineBytes(a: Bytes, b: Bytes)
    requires |a| == |b| == HEADER_SIZE && Words(a) == Words(b)
    ensures a == b
  {
    forall i | 0 <= i < HEADER_SIZE
      ensures a[i] == b[i]
    {
      var k := i / 4;
      assert Words(a)[k] == Words(b)[k];
      BytesOfWord(a, b, 4 * k);
    }
  }

  lemma BytesOfWord(a: Bytes, b: Bytes, at: nat)
    requires at + 4 <= |a| && at + 4 <= |b| && WordAt(a, at) == WordAt(b, at)
    ensures a[at] == b[at] && a[at + 1] == b[at + 1] && a[at + 2] == b[at + 2] && a[at + 3] == b[at + 3]
  {
  }

  method PutUint32(out: array<Byte>, at: nat, v: Word)
    requires at + 4 <= out.Length
    modifies out
    ensures WordAt(out[..], at) == v
    ensures forall k: nat :: k + 4 <= at || (at + 4 <= k && k + 4 <= out.Length) ==>
              WordAt(out[..], k) == old(WordAt(out[..], k))
  {
    BigEndianOfBytes(v);
    var b0: Byte, b1: Byte, b2: Byte, b3: Byte := v / 0x100_0000, v / 0x1_0000 % 0x100, v / 0x100 % 0x100, v % 0x100;
    out[at], out[at + 1], out[at + 2], out[at + 3] := b0, b1, b2, b3;
  }

  // ---------------------------------------------------------------- building

  /** The style index is the position of the game mode marker in the decompressed course data. */
  method CourseGameStyleIndex(cdt: Bytes) returns (r: Option<Word>)
    ensures r.Some? <==> |cdt| >= GAME_MODE_AT + 2 && cdt[GAME_MODE_AT..GAME_MODE_AT + 2] in MARKERS
    ensures r.Some? ==> r.value < 4 && cdt[GAME_MODE_AT..GAME_MODE_AT + 2] == MARKERS[r.value]
    ensures |cdt| >= 0x6C ==>
              && (r == Some(0) <==> cdt[0x6A] == 0x4D && cdt[0x6B] == 0x31)
              && (r == Some(1) <==> cdt[0x6A] == 0x4D && cdt[0x6B] == 0x33)
              && (r == Some(2) <==> cdt[0x6A] == 0x4D && cdt[0x6B] == 0x57)
              && (r == Some(3) <==> cdt[0x6A] == 0x57 && cdt[0x6B] == 0x55)
  {
    if |cdt| < GAME_MODE_AT + 2 {
      return None;
    }
    var mode := cdt[GAME_MODE_AT..GAME_MODE_AT + 2];
    assert MARKERS[0] == [0x4D, 0x31] && MARKERS[1] == [0x4D, 0x33] && MARKERS[2] == [0x4D, 0x57] && MARKERS[3] == [0x57, 0x55];
    if mode == [0x4D, 0x31] {
      return Some(0);
    } else if mode == [0x4D, 0x33] {
      return Some(1);
    } else if mode == [0x4D, 0x57] {
      return Some(2);
    } else if mode == [0x57, 0x55] {
      return Some(3);
    }
    return None;
  }

  /** A length as it is stored in a word. */
  function Uint32(n: nat): Word {
    if n < UINT32_SIZE then n else n % UINT32_SIZE
  }

  /** What a client reads from the eleven words, with lengths and checksums put into the order of the file. */
  datatype Header = Header(style: Word, zero: Word, lengths: seq<Word>, marker: Word, checksums: seq<Word>)

  /** In the header, data and sub-data come before the first thumbnail. */
  function Decode(header: Bytes): Header
    requires |header| == HEADER_SIZE
  {
    var w := Words(header);
    Header(w[0], w[1], [w[4], w[2], w[3], w[5]], w[6], [w[9], w[7], w[8], w[10]])
  }

  /** Nothing in the 44 bytes escapes the client: they are determined by what it reads. */
  lemma DecodeIsInjective(a: Bytes, b: Bytes)
    requires |a| == |b| == HEADER_SIZE && Decode(a) == Decode(b)
    ensures a == b
  {
    SameFourWords(Words(a)[4], Words(a)[2], Words(a)[3], Words(a)[5], Words(b)[4], Words(b)[2], Words(b)[3], Words(b)[5]);
    SameFourWords(Words(a)[9], Words(a)[7], Words(a)[8], Words(a)[10], Words(b)[9], Words(b)[7], Words(b)[8], Words(b)[10]);
    SameElevenWords(Words(a), Words(b));
    WordsDetermineBytes(a, b);
  }

  lemma SameFourWords(a: Word, b: Word, c: Word, d: Word, a': Word, b': Word, c': Word, d': Word)
    requires [a, b, c, d] == [a', b', c', d']
    ensures a == a' && b == b' && c == c' && d == d'
  {
    var s, s' := [a, b, c, d], [a', b', c', d'];
    assert s[0] == s'[0] && s[1] == s'[1] && s[2] == s'[2] && s[3] == s'[3];
  }

  lemma SameElevenWords(v: seq<Word>, w: seq<Word>)
    requires |v| == |w| == 11
    requires v[0] == w[0] && v[1] == w[1] && v[2] == w[2] && v[3] == w[3] && v[4] == w[4] && v[5] == w[5]
    requires v[6] == w[6] && v[7] == w[7] && v[8] == w[8] && v[9] == w[9] && v[10] == w[10]
    ensures v == w
  {
  }

  /** What the header of a file that splits into `segs` says. */
  ghost predicate Describes(h: Header, style: Word, segs: seq<Bytes>, crc: Bytes -> Word) {
    && h.style == style && h.zero == 0 && h.marker == 3
    && |segs| == |h.lengths| == |h.checksums| == 4
    && forall k :: 0 <= k < 4 ==> h.lengths[k] == Uint32(|segs[k]|) && h.checksums[k] == crc(segs[k])
  }

  /** A blob from which a header can be built, and the style it then has. */
  predicate Importable(blob: Bytes, decompress: Bytes -> Bytes, style: nat) {
    && style < 4
    && |Segments(blob)| == 4
    && var cdt := decompress(Segments(blob)[1]);
    && |cdt| >= GAME_MODE_AT + 2
    && cdt[GAME_MODE_AT..GAME_MODE_AT + 2] == MARKERS[style]
  }

  method BuildCourseMetaBinary(rawCourseData: Bytes, decompress: Bytes -> Bytes, crc: Bytes -> Word)
    returns (r: Option<Bytes>)
    ensures r.Some? <==> exists style: nat :: Importable(rawCourseData, decompress, style)
    ensures r.Some? ==> |r.value| == 44 && |Segments(rawCourseData)| == 4
    ensures r.Some? ==>
              var segs, w := Segments(rawCourseData), r.value;
              && WordAt(w, 0x04) == 0 && WordAt(w, 0x18) == 3
              && WordAt(w, 0x08) == Uint32(|segs[1]|) && WordAt(w, 0x1c) == crc(segs[1])
              && WordAt(w, 0x0c) == Uint32(|segs[2]|) && WordAt(w, 0x20) == crc(segs[2])
              && WordAt(w, 0x10) == Uint32(|segs[0]|) && WordAt(w, 0x24) == crc(segs[0])
              && WordAt(w, 0x14) == Uint32(|segs[3]|) && WordAt(w, 0x28) == crc(segs[3])
    ensures r.Some? ==>
              Importable(rawCourseData, decompress, Decode(r.value).style)
              && Describes(Decode(r.value), Decode(r.value).style, Segments(rawCourseData), crc)
  {
    var segs := SplitCourseSegments(rawCourseData);
    if segs.None? {
      return None;
    }
    var thumbnail0, courseData, courseDataSub, thumbnail1 := segs.value[0], segs.value[1], segs.value[2], segs.value[3];
    var styleIndex := CourseGameStyleIndex(decompress(courseData));
    if styleIndex.None? {
      return None;
    }
    var out := new Byte[HEADER_SIZE](_ => 0);
    PutLengths(out, styleIndex.value, courseData, courseDataSub, thumbnail0, thumbnail1);
    PutChecksums(out, crc(courseData), crc(courseDataSub), crc(thumbnail0), crc(thumbnail1));
    assert Importable(rawCourseData, decompress, styleIndex.value);
    DescribedBy(out[..], styleIndex.value, segs.value, crc);
    return Some(out[..]);
  }

  /** The words in header order against the segments in file order. */
  lemma DescribedBy(header: Bytes, style: Word, segs: seq<Bytes>, crc: Bytes -> Word)
    requires |header| == HEADER_SIZE && |segs| == 4
    requires WordAt(header, 0x00) == style && WordAt(header, 0x04) == 0 && WordAt(header, 0x18) == 3
    requires WordAt(header, 0x08) == Uint32(|segs[1]|) && WordAt(header, 0x0c) == Uint32(|segs[2]|)
    requires WordAt(header, 0x10) == Uint32(|segs[0]|) && WordAt(header, 0x14) == Uint32(|segs[3]|)
    requires WordAt(header, 0x1c) == crc(segs[1]) && WordAt(header, 0x20) == crc(segs[2])
    requires WordAt(header, 0x24) == crc(segs[0]) && WordAt(header, 0x28) == crc(segs[3])
    ensures Describes(Decode(header), style, segs, crc)
  {
  }

  method PutLengths(
    out: array<Byte>, style: Word, courseData: Bytes, courseDataSub: Bytes, thumbnail0: Bytes, thumbnail1: Bytes)
    requires out.Length == HEADER_SIZE
    modifies out
    ensures WordAt(out[..], 0x00) == style && WordAt(out[..], 0x04) == 0
    ensures WordAt(out[..], 0x08) == Uint32(|courseData|)
    ensures WordAt(out[..], 0x0c) == Uint32(|courseDataSub|)
    ensures WordAt(out[..], 0x10) == Uint32(|thumbnail0|)
    ensures WordAt(out[..], 0x14) == Uint32(|thumbnail1|)
  {
    PutUint32(out, 0x00, style);
    PutUint32(out, 0x04, 0);
    PutUint32(out, 0x08, Uint32(|courseData|));
    PutUint32(out, 0x0c, Uint32(|courseDataSub|));
    PutUint32(out, 0x10, Uint32(|thumbnail0|));
    PutUint32(out, 0x14, Uint32(|thumbnail1|));
  }

  method PutChecksums(out: array<Byte>, courseData: Word, courseDataSub: Word, thumbnail0: Word, thumbnail1: Word)
    requires out.Length == HEADER_SIZE
    modifies out
    ensures WordAt(out[..], 0x18) == 3
    ensures WordAt(out[..], 0x1c) == courseData && WordAt(out[..], 0x20) == courseDataSub
    ensures WordAt(out[..], 0x24) == thumbnail0 && WordAt(out[..], 0x28) == thumbnail1
    ensures forall k: nat :: k < 0x18 - 3 ==> WordAt(out[..], k) == old(WordAt(out[..], k))
  {
    PutUint32(out, 0x18, 3);
    PutUint32(out, 0x1c, courseData);
    PutUint32(out, 0x20, courseDataSub);
    PutUint32(out, 0x24, thumbnail0);
    PutUint32(out, 0x28, thumbnail1);
  }

  // ---------------------------------------------------------------- a client reads the file

  function Sum(lengths: seq<Word>): nat
    requires |lengths| == 4
  {
    lengths[0] as nat + lengths[1] + lengths[2] + lengths[3]
  }

  /** A client slices the file by the lengths of its header, one slice after the other. */
  function Slices(h: Header, file: Bytes): seq<Bytes>
    requires |h.lengths| == 4 && Sum(h.lengths) <= |file|
  {
    var a: nat, b: nat, c: nat, d: nat := h.lengths[0], h.lengths[1], h.lengths[2], h.lengths[3];
    [file[..a], file[a..a + b], file[a + b..a + b + c], file[a + b + c..a + b + c + d]]
  }

  lemma JoinedFour(segs: seq<Bytes>)
    requires |segs| == 4
    ensures Joined(segs) == segs[0] + segs[1] + segs[2] + segs[3]
  {
    assert segs[..3][..2] == segs[..2] && segs[..2][..1] == segs[..1] && segs[..1][..0] == [];
    assert Joined(segs[..1]) == segs[0];
    assert Joined(segs[..2]) == segs[0] + segs[1];
    assert Joined(segs[..3]) == segs[0] + segs[1] + segs[2];
  }

  predicate Fits(segs: seq<Bytes>) {
    forall s :: s in segs ==> |s| < UINT32_SIZE
  }

  /** Truncated lengths add up to as much as the segments exactly when none is truncated. */
  lemma TruncatedSum(segs: seq<Bytes>, lengths: seq<Word>)
    requires |segs| == 4 && |lengths| == 4 && forall k :: 0 <= k < 4 ==> lengths[k] == Uint32(|segs[k]|)
    ensures Sum(lengths) <= |Joined(segs)|
    ensures Sum(lengths) == |Joined(segs)| <==> Fits(segs)
  {
    JoinedFour(segs);
    assert segs == [segs[0], segs[1], segs[2], segs[3]];
    assert Fits(segs)
      <==> |segs[0]| < UINT32_SIZE && |segs[1]| < UINT32_SIZE && |segs[2]| < UINT32_SIZE && |segs[3]| < UINT32_SIZE;
  }

  /** The lengths add up to the file size exactly when the file begins with the magic number and no length is truncated. */
  lemma LengthsAddUpIff(file: Bytes, h: Header, crc: Bytes -> Word)
    requires Describes(h, h.style, Segments(file), crc)
    ensures Sum(h.lengths) <= |file|
    ensures Sum(h.lengths) == |file| <==> IsAt(file, 0) && Fits(Segments(file))
  {
    var segs := Segments(file);
    var junk := JoinUndoesSplit(file);
    NoJunkIff(junk, segs);
    TruncatedSum(segs, h.lengths);
  }

  /**
   The header lets a client recover the segments: for a file that begins with the magic number and is shorter than
   2^32 bytes, the lengths add up, the slices are the segments, and every checksum is that of its slice.
   */
  lemma ClientRecoversSegments(file: Bytes, h: Header, crc: Bytes -> Word)
    requires Describes(h, h.style, Segments(file), crc)
    requires IsAt(file, 0) && |file| < UINT32_SIZE
    ensures Sum(h.lengths) == |file| && Slices(h, file) == Segments(file)
    ensures forall k :: 0 <= k < 4 ==> h.checksums[k] == crc(Slices(h, file)[k])
  {
    var segs := Segments(file);
    LengthsAddUpIff(file, h, crc);
    var junk := JoinUndoesSplit(file);
    NoJunkIff(junk, segs);
    assert file == Joined(segs);
    SmallPartsFit(segs);
    ExactLengths(segs, h.lengths);
    SlicesOfJoined(h, segs);
  }

  lemma SmallPartsFit(segs: seq<Bytes>)
    requires |segs| == 4 && |Joined(segs)| < UINT32_SIZE
    ensures Fits(segs)
  {
    JoinedFour(segs);
    assert segs == [segs[0], segs[1], segs[2], segs[3]];
  }

  lemma ExactLengths(segs: seq<Bytes>, lengths: seq<Word>)
    requires Fits(segs) && |segs| == |lengths| && forall k :: 0 <= k < |segs| ==> lengths[k] == Uint32(|segs[k]|)
    ensures forall k :: 0 <= k < |segs| ==> lengths[k] == |segs[k]|
  {
    assert forall k :: 0 <= k < |segs| ==> segs[k] in segs;
  }

  lemma SlicesOfJoined(h: Header, segs: seq<Bytes>)
    requires |segs| == |h.lengths| == 4 && forall k :: 0 <= k < 4 ==> h.lengths[k] == |segs[k]|
    ensures Sum(h.lengths) == |Joined(segs)| && Slices(h, Joined(segs)) == segs
  {
    JoinedFour(segs);
    FourSlices(segs[0], segs[1], segs[2], segs[3]);
  }

  lemma FourSlices(a: Bytes, b: Bytes, c: Bytes, d: Bytes)
    ensures
      var file, n, m := a + b + c + d, |a| + |b|, |a| + |b| + |c|;
      file[..|a|] == a && file[|a|..n] == b && file[n..m] == c && file[m..m + |d|] == d
  {
  }

  /** From the maker's side: four segments laid end to end come back out of the file and the header built for it. */
  lemma CourseRoundTrip(segs: seq<Bytes>, h: Header, crc: Bytes -> Word)
    requires |segs| == 4 && (forall s :: s in segs ==> IsSegment(s)) && |Joined(segs)| < UINT32_SIZE
    requires Describes(h, h.style, Segments(Joined(segs)), crc)
    ensures Sum(h.lengths) == |Joined(segs)| && Slices(h, Joined(segs)) == segs
    ensures forall k :: 0 <= k < 4 ==> h.checksums[k] == crc(segs[k])
  {
    SplitUndoesJoin([], segs);
    assert [] + Joined(segs) == Joined(segs);
    JoinedBegins(segs);
    ClientRecoversSegments(Joined(segs), h, crc);
  }

  // ---------------------------------------------------------------- the preview picture

  const THUMBNAIL_SIZE: nat := 51200

  predicate LooksLikeJpeg(jpeg: Bytes) {
    |jpeg| >= 4 && jpeg[0] == 0xFF && jpeg[1] == 0xD8
  }

  method ExtractCourseThumbnailJPEG(rawCourseData: Bytes, decompress: Bytes -> Bytes) returns (r: Option<Bytes>)
    ensures |Segments(rawCourseData)| != 4 ==> r.None?
    ensures |Segments(rawCourseData)| == 4 ==> r == Picture(decompress(Segments(rawCourseData)[0]))
  {
    var segs := SplitCourseSegments(rawCourseData);
    if segs.None? {
      return None;
    }
    var thumb := decompress(segs.value[0]);
    if |thumb| < 8 {
      return None;
    }
    var jpegLen := thumb[6] as int * 0x100 + thumb[7];
    var jpegStart := 8;
    var jpegEnd := jpegStart + jpegLen;
    if jpegEnd > |thumb| {
      return None;
    }
    var jpegData := thumb[jpegStart..jpegEnd];
    if |jpegData| < 4 || jpegData[0] != 0xFF || jpegData[1] != 0xD8 {
      return None;
    }
    return Some(jpegData);
  }

  /** The picture in a decompressed thumbnail: checksum, padding, length, picture, anything. */
  function Picture(thumb: Bytes): Option<Bytes> {
    if |thumb| < 8 then None
    else
      var end := 8 + BigEndian(0, 0, thumb[6], thumb[7]);
      if end <= |thumb| && LooksLikeJpeg(thumb[8..end]) then Some(thumb[8..end]) else None
  }

  /** A thumbnail file as the game lays it out, padded with zeros to its fixed size. */
  function ThumbnailOf(checksum: Bytes, jpeg: Bytes): Bytes
    requires |checksum| == 4 && |jpeg| <= THUMBNAIL_SIZE - 8
  {
    checksum + [0, 0, |jpeg| / 0x100, |jpeg| % 0x100] + jpeg + seq(THUMBNAIL_SIZE - 8 - |jpeg|, _ => 0)
  }

  /** Extraction returns the picture that was laid out, exactly when it looks like one. */
  lemma PictureRoundTrip(checksum: Bytes, jpeg: Bytes)
    requires |checksum| == 4 && |jpeg| <= THUMBNAIL_SIZE - 8
    ensures Picture(ThumbnailOf(checksum, jpeg)) == if LooksLikeJpeg(jpeg) then Some(jpeg) else None
  {
    var thumb := ThumbnailOf(checksum, jpeg);
    assert thumb[6] == |jpeg| / 0x100 && thumb[7] == |jpeg| % 0x100;
    assert thumb[8..8 + |jpeg|] == jpeg;
  }
}
