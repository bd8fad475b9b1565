/** The playback cursor over an AVI index: seeking scans from the start, playing moves
    incrementally. The methods change the cursor in place; the functions say to what. */
module AviCursor {
  import opened Bytes
  import opened AviIndex

  /** What parsing found in the file: the index, the number of tracks, and where the frame
      data the index points into begins. */
  datatype Movie = Movie(index: seq<IndexEntry>, trackCount: nat, file: seq<uint8>, frameOffset: nat)

  /** `dx_movie_frame_index_t`: the next frame and fragment, and the tracks last looked up. */
  datatype Cursor = Cursor(frameNo: nat, fragmentNo: nat, trackCount: nat, frameLength: nat, tracks: seq<IndexEntry>)

  datatype Whence = SeekSet | SeekCur | SeekEnd

  const NO_TRACK := IndexEntry([0, 0, 0, 0], 0, 0, 0)

  function Total(m: Movie): nat {
    TotalFrames(m.index)
  }

  /** A 32-bit signed value. */
  function Wrap32(x: int): (w: int)
    ensures -TWO_31 <= w < TWO_31 && (x - w) % TWO_32 == 0
  {
    (x + TWO_31) % TWO_32 - TWO_31
  }

  predicate CursorOk(m: Movie, c: Cursor) {
    && c.fragmentNo <= |m.index| && c.frameNo <= Total(m)
    && |c.tracks| == m.trackCount && c.trackCount <= m.trackCount && c.trackCount < 256
  }

  // ---------- seeking

  function Target(m: Movie, c: Cursor, offset: int, whence: Whence): int {
    match whence
    case SeekSet => offset
    case SeekCur => Wrap32(c.frameNo + offset)
    case SeekEnd => Wrap32(Total(m) + offset)
  }

  /** `dx_avi_seek_frame`: a target at or past the end goes to the totals, a negative one
      leaves the cursor alone, any other selects its base entry. */
  function SeekTo(m: Movie, c: Cursor, target: int): (r: (Cursor, int))
    ensures CursorOk(m, c) ==> CursorOk(m, r.0)
  {
    if target >= Total(m) then
      (c.(frameNo := Total(m), fragmentNo := |m.index|), Total(m))
    else if target < 0 then
      (c, c.frameNo)
    else
      (c.(frameNo := target, fragmentNo := Select(m.index, target)), Select(m.index, target))
  }

  function Seek(m: Movie, c: Cursor, offset: int, whence: Whence): (Cursor, int) {
    SeekTo(m, c, Target(m, c, offset, whence))
  }

  // ---------- one frame

  /** How many entries `dx_avi_get_frame_index` reads into the track table. */
  function ReadCount(m: Movie, from: nat): (k: nat)
    ensures k <= m.trackCount
    ensures from <= |m.index| ==> from + k <= |m.index|
    ensures k == 0 <==> m.trackCount == 0 || |m.index| <= from
  {
    if |m.index| <= from || m.trackCount == 0 then 0
    else Min(m.trackCount, NextBase(m.index, from + 1) - from)
  }

  function SumLengths(es: seq<IndexEntry>): nat {
    if es == [] then 0 else SumLengths(es[..|es| - 1]) + es[|es| - 1].length
  }

  function Padded(es: seq<IndexEntry>, n: nat): (r: seq<IndexEntry>)
    requires |es| <= n
    ensures |r| == n && r[..|es|] == es
    ensures forall i :: |es| <= i < n ==> r[i] == NO_TRACK
  {
    es + seq(n - |es|, _ => NO_TRACK)
  }

  /** `dx_avi_get_frame_index`: the track count is kept in one octet, and nothing but the
      cleared table changes when no entry is read. */
  function Lookup(m: Movie, c: Cursor): (r: Cursor)
    requires CursorOk(m, c)
    ensures CursorOk(m, r)
  {
    var k := ReadCount(m, c.fragmentNo);
    var read := m.index[c.fragmentNo..c.fragmentNo + k];
    var c' := c.(tracks := Padded(read, m.trackCount));
    if k == 0 then c' else c'.(trackCount := k % 256, frameLength := SumLengths(read))
  }

  predicate InFile(m: Movie, e: IndexEntry) {
    m.frameOffset + e.offset + e.length <= |m.file|
  }

  /** The file bytes an entry points to. */
  function Data(m: Movie, e: IndexEntry): (d: seq<uint8>)
    requires InFile(m, e)
    ensures |d| == e.length
  {
    m.file[m.frameOffset + e.offset..m.frameOffset + e.offset + e.length]
  }

  predicate AllInFile(m: Movie, es: seq<IndexEntry>) {
    forall i :: 0 <= i < |es| ==> InFile(m, es[i])
  }

  /** The bytes of consecutive fragments. */
  function Fragments(m: Movie, es: seq<IndexEntry>): (d: seq<uint8>)
    requires AllInFile(m, es)
    ensures |d| == SumLengths(es)
  {
    if es == [] then [] else Fragments(m, es[..|es| - 1]) + Data(m, es[|es| - 1])
  }

  /** What one `read` finds of an entry's bytes: fewer than its length if the file ends first. */
  function Available(m: Movie, e: IndexEntry): (d: seq<uint8>)
    ensures |d| <= e.length
    ensures InFile(m, e) ==> d == Data(m, e)
  {
    var from, to := m.frameOffset + e.offset, m.frameOffset + e.offset + e.length;
    m.file[Min(from, |m.file|)..Min(to, |m.file|)]
  }

  predicate HoldsAt(b: seq<uint8>, at: nat, d: seq<uint8>) {
    at + |d| <= |b| && b[at..at + |d|] == d
  }

  /** From `at` on, each entry has its length's room, back to back, and what the file has of it at the
      front of that room. */
  predicate HoldsFragments(b: seq<uint8>, at: nat, m: Movie, es: seq<IndexEntry>) {
    && at + SumLengths(es) <= |b|
    && forall i :: 0 <= i < |es| ==> HoldsAt(b, at + SumLengths(es[..i]), Available(m, es[i]))
  }

  /** `dx_avi_get_frame_data` moves to the next frame. */
  function Advance(m: Movie, c: Cursor): Cursor {
    c.(frameNo := if c.frameNo < Total(m) then c.frameNo + 1 else c.frameNo,
       fragmentNo := if c.fragmentNo < |m.index| then c.fragmentNo + c.trackCount else |m.index|)
  }

  /** Look a frame up, then move past it. */
  function TakeFrame(m: Movie, c: Cursor): (r: Cursor)
    requires CursorOk(m, c)
    ensures CursorOk(m, r)
  {
    Advance(m, Lookup(m, c))
  }

  // ---------- the object

  class MovieContext {
    const movie: Movie
    var totalFrame: nat
    var totalFragment: nat
    var frameNo: nat
    var fragmentNo: nat
    var trackCount: nat
    var frameLength: nat
    const track: array<IndexEntry>

    ghost predicate Valid()
      reads this, track
    {
      && track.Length == movie.trackCount
      && totalFrame == Total(movie) && totalFragment == |movie.index|
      && CursorOk(movie, At())
    }

    ghost function At(): Cursor
      reads this, track
    {
      Cursor(frameNo, fragmentNo, trackCount, frameLength, track[..])
    }

    /** A cleared cursor, and the counts that `dx_avi_chunk_idx1_handler` takes from the index. */
    constructor (m: Movie)
      ensures Valid() && fresh(track) && movie == m
      ensures At() == Cursor(0, 0, 0, 0, seq(m.trackCount, _ => NO_TRACK))
    {
      movie := m;
      track := new IndexEntry[m.trackCount](_ => NO_TRACK);
      frameNo, fragmentNo, trackCount, frameLength := 0, 0, 0, 0;
      totalFragment := |m.index|;
      var frames := CountFrames(m.index, TrackName(0));
      totalFrame := frames;
    }

    /** The counting loop of `dx_avi_chunk_idx1_handler`; `base` is the name of track 0. */
    static method CountFrames(index: seq<IndexEntry>, base: seq<uint8>) returns (frameCount: nat)
      requires base == TrackName(0)
      ensures frameCount == TotalFrames(index)
    {
      frameCount := 0;
      var i := 0;
      while i < |index|
        invariant 0 <= i <= |index|
        invariant frameCount + FramesFrom(index, i) == TotalFrames(index)
      {
        if 2 <= |index[i].ckid| && index[i].ckid[..2] == base[..2] {
          assert index[i].ckid[..2][0] == index[i].ckid[0] && index[i].ckid[..2][1] == index[i].ckid[1];
          frameCount := frameCount + 1;
        }
        i := i + 1;
      }
    }

    /** `dx_avi_seek_frame`. The scan has no bound on `i`; the count of frames is its bound. */
    method SeekFrame(offset: int, whence: Whence) returns (ret: int)
      requires Valid()
      modifies this`frameNo, this`fragmentNo
      ensures Valid() && (At(), ret) == Seek(movie, old(At()), offset, whence)
    {
      var target;
      match whence {
        case SeekSet => target := offset;
        case SeekCur => target := Wrap32(frameNo + offset);
        case SeekEnd => target := Wrap32(totalFrame + offset);
      }
      if target >= totalFrame {
        fragmentNo, frameNo := totalFragment, totalFrame;
        return frameNo;
      }
      var i, foundFrame := 0, 0;
      while foundFrame < totalFrame
        invariant i <= |movie.index| && foundFrame + FramesFrom(movie.index, i) == totalFrame
        invariant target >= 0 ==> foundFrame <= target
        invariant target >= 0 ==> Select(movie.index, target) == SelectFrom(movie.index, i, target - foundFrame)
        decreases |movie.index| - i
      {
        if IsBase(movie.index[i]) {
          if target == foundFrame {
            frameNo, fragmentNo := target, i;
            return i;
          }
          foundFrame := foundFrame + 1;
        }
        i := i + 1;
      }
      return frameNo;
    }

    /** `dx_avi_get_frame_index`. The sum of the lengths is a signed 32-bit accumulator. */
    method GetFrameIndex()
      requires Valid()
      requires SumLengths(movie.index[fragmentNo..fragmentNo + ReadCount(movie, fragmentNo)]) < TWO_31
      modifies this`trackCount, this`frameLength, track
      ensures Valid() && At() == Lookup(movie, old(At()))
    {
      hide SumLengths, NextBase, Padded, FramesFrom;
      var i, length := ReadTracks();
      if i > 0 {
        trackCount, frameLength := i % 256, length;
      }
    }

    /** The reading loop of `dx_avi_get_frame_index`, over a cleared table. */
    method ReadTracks() returns (i: nat, length: nat)
      requires Valid()
      modifies track
      ensures i == ReadCount(movie, fragmentNo)
      ensures track[..] == Padded(movie.index[fragmentNo..fragmentNo + i], movie.trackCount)
      ensures length == SumLengths(movie.index[fragmentNo..fragmentNo + i])
    {
      hide SumLengths, NextBase, Padded, ReadCount, FramesFrom;
      forall j | 0 <= j < track.Length {
        track[j] := NO_TRACK;
      }
      SumNone(movie.index, fragmentNo);
      ghost var from, index := fragmentNo, movie.index;
      i, length := 0, 0;
      while i < movie.trackCount && fragmentNo + i < totalFragment
        invariant 0 <= i <= movie.trackCount && from + i <= |index|
        invariant forall j :: from + 1 <= j < from + i ==> !IsBase(index[j])
        invariant length == SumLengths(index[from..from + i])
        invariant forall j :: 0 <= j < i ==> track[j] == index[from + j]
        invariant forall j :: i <= j < track.Length ==> track[j] == NO_TRACK
      {
        var entry := movie.index[fragmentNo + i];
        if i != 0 && IsBase(entry) {
          break;
        }
        track[i] := entry;
        SumStep(index, from, i);
        length := length + entry.length;
        i := i + 1;
      }
      ReadCountIs(movie, from, i);
      PaddedIs(index[from..from + i], track[..]);
    }

    static lemma PaddedIs(es: seq<IndexEntry>, table: seq<IndexEntry>)
      requires |es| <= |table| && forall j :: 0 <= j < |es| ==> table[j] == es[j]
      requires forall j :: |es| <= j < |table| ==> table[j] == NO_TRACK
      ensures table == Padded(es, |table|)
    {
      var p := Padded(es, |table|);
      forall j | 0 <= j < |table|
        ensures table[j] == p[j]
      {
        assert j < |es| ==> p[j] == p[..|es|][j];
      }
    }

    static lemma SumNone(index: seq<IndexEntry>, from: nat)
      requires from <= |index|
      ensures SumLengths(index[from..from]) == 0
    {
    }

    static lemma SumStep(index: seq<IndexEntry>, from: nat, i: nat)
      requires from + i < |index|
      ensures SumLengths(index[from..from + i + 1]) == SumLengths(index[from..from + i]) + index[from + i].length
    {
      assert index[from..from + i + 1][..i] == index[from..from + i];
    }

    static lemma ReadCountIs(m: Movie, from: nat, k: nat)
      requires from + k <= |m.index| && k <= m.trackCount
      requires forall j :: from + 1 <= j < from + k ==> !IsBase(m.index[j])
      requires k == m.trackCount || from + k == |m.index| || (k != 0 && IsBase(m.index[from + k]))
      ensures ReadCount(m, from) == k
    {
      if k > 0 {
        var p := NextBase(m.index, from + 1);
        assert from + k <= p;
        if from + k == |m.index| || IsBase(m.index[from + k]) {
          assert p == from + k;
        }
      }
    }

    /** `dx_avi_get_frame_data`: read the tracks' fragments one after the other into the
        buffer from `at` on, and move to the next frame. */
    method GetFrameData(buffer: array<uint8>, at: nat) returns (offset: nat)
      requires Valid() && at + SumLengths(track[..trackCount]) <= buffer.Length
      modifies this`frameNo, this`fragmentNo, buffer
      ensures offset == SumLengths(track[..trackCount])
      ensures HoldsFragments(buffer[..], at, movie, track[..trackCount])
      ensures buffer[..at] == old(buffer[..at])
      ensures At() == Advance(movie, old(At()))
    {
      hide SumLengths, HoldsFragments;
      offset := CopyFragments(buffer, at);
      if frameNo < totalFrame {
        frameNo := frameNo + 1;
      }
      if fragmentNo < totalFragment {
        fragmentNo := fragmentNo + trackCount;
      } else {
        fragmentNo := totalFragment;
      }
    }

    method CopyFragments(buffer: array<uint8>, at: nat) returns (offset: nat)
      requires Valid() && at + SumLengths(track[..trackCount]) <= buffer.Length
      modifies buffer
      ensures offset == SumLengths(track[..trackCount])
      ensures HoldsFragments(buffer[..], at, movie, track[..trackCount])
      ensures buffer[..at] == old(buffer[..at]) && track[..] == old(track[..])
    {
      hide SumLengths, Available, HoldsFragments, HoldsAt;
      ghost var es := track[..trackCount];
      NoFragments(buffer[..], at, movie, es);
      offset := 0;
      var i := 0;
      while i < trackCount
        invariant 0 <= i <= trackCount && offset == SumLengths(es[..i]) && at + offset <= buffer.Length
        invariant HoldsFragments(buffer[..], at, movie, es[..i])
        invariant buffer[..at] == old(buffer[..at]) && track[..] == old(track[..])
      {
        SumOne(es, i);
        assert es[i] == track[i];
        ghost var before := buffer[..];
        ReadInto(buffer, at + offset, Available(movie, track[i]));
        HoldsPush(before, buffer[..], at, movie, es, i);
        assert buffer[..at] == before[..at];
        offset := offset + track[i].length;
        i := i + 1;
      }
      assert es[..i] == es;
    }

    /** One `read` of what the file has of a fragment. */
    static method ReadInto(buffer: array<uint8>, at: nat, d: seq<uint8>)
      requires at + |d| <= buffer.Length
      modifies buffer
      ensures HoldsAt(buffer[..], at, d) && buffer[..][..at] == old(buffer[..])[..at]
    {
      forall j | 0 <= j < |d| {
        buffer[at + j] := d[j];
      }
    }

    static lemma NoFragments(b: seq<uint8>, at: nat, m: Movie, es: seq<IndexEntry>)
      requires at <= |b|
      ensures SumLengths(es[..0]) == 0 <= SumLengths(es) && HoldsFragments(b, at, m, es[..0])
      ensures Fragments(m, es[..0]) == []
    {
    }

    /** One more fragment, behind those that are there. */
    static lemma HoldsPush(s: seq<uint8>, t: seq<uint8>, at: nat, m: Movie, es: seq<IndexEntry>, i: nat)
      requires i < |es| && HoldsFragments(s, at, m, es[..i]) && |t| == |s| && at + SumLengths(es[..i + 1]) <= |t|
      requires t[..at + SumLengths(es[..i])] == s[..at + SumLengths(es[..i])]
      requires HoldsAt(t, at + SumLengths(es[..i]), Available(m, es[i]))
      ensures HoldsFragments(t, at, m, es[..i + 1])
    {
      hide SumLengths, Available, HoldsAt;
      var whole := es[..i + 1];
      forall j | 0 <= j < |whole|
        ensures HoldsAt(t, at + SumLengths(whole[..j]), Available(m, whole[j]))
      {
        assert whole[..j] == es[..j];
        if j < i {
          assert es[..i][..j] == es[..j] && es[..i][j] == es[j];
          SumOne(es, j);
          assert es[..i][..j + 1] == es[..j + 1];
          SumMonotone(es[..i], j + 1);
          HoldsStill(s, t, at + SumLengths(es[..i]), at + SumLengths(es[..j]), Available(m, es[j]));
        }
      }
    }

    static lemma HoldsStill(s: seq<uint8>, t: seq<uint8>, to: nat, at: nat, d: seq<uint8>)
      requires to <= |s| == |t| && t[..to] == s[..to] && HoldsAt(s, at, d) && at + |d| <= to
      ensures HoldsAt(t, at, d)
    {
      assert t[at..at + |d|] == t[..to][at..at + |d|] == s[..to][at..at + |d|];
    }

    static lemma HeldAt(b: seq<uint8>, at: nat, m: Movie, es: seq<IndexEntry>, i: nat)
      requires HoldsFragments(b, at, m, es) && i < |es|
      ensures at + SumLengths(es) <= |b| && HoldsAt(b, at + SumLengths(es[..i]), Available(m, es[i]))
    {
      hide SumLengths, Available, HoldsAt;
    }

    /** One entry's room and what is at its front. */
    static lemma HoldsOne(b: seq<uint8>, at: nat, m: Movie, es: seq<IndexEntry>, i: nat)
      requires HoldsFragments(b, at, m, es) && i < |es|
      ensures SumLengths(es[..i + 1]) == SumLengths(es[..i]) + es[i].length <= SumLengths(es)
      ensures var from := at + SumLengths(es[..i]);
        && from + es[i].length <= |b|
        && Available(m, es[i]) <= b[from..from + es[i].length]
        && (InFile(m, es[i]) ==> b[from..from + es[i].length] == Data(m, es[i]))
    {
      hide SumLengths, Available, Data, HoldsAt, InFile, HoldsFragments, Fragments, Padded;
      SumOne(es, i);
      HeldAt(b, at, m, es, i);
      var from, d := at + SumLengths(es[..i]), Available(m, es[i]);
      FrontOf(b, from, d, es[i].length);
      assert InFile(m, es[i]) ==> d == Data(m, es[i]) && |d| == es[i].length;
    }

    static lemma SumOne(es: seq<IndexEntry>, i: nat)
      requires i < |es|
      ensures SumLengths(es[..i + 1]) == SumLengths(es[..i]) + es[i].length <= SumLengths(es)
    {
      hide SumLengths;
      assert es[0..i + 1] == es[..i + 1] && es[0..i] == es[..i];
      SumStep(es, 0, i);
      SumMonotone(es, i + 1);
    }

    static lemma FrontOf(b: seq<uint8>, from: nat, d: seq<uint8>, len: nat)
      requires HoldsAt(b, from, d) && |d| <= len && from + len <= |b|
      ensures d <= b[from..from + len] && (|d| == len ==> b[from..from + len] == d)
    {
      assert b[from..from + len][..|d|] == b[from..from + |d|];
    }

    /** If the file has all of them, the fragments are there without a gap. */
    static lemma {:induction false} HoldsAll(b: seq<uint8>, at: nat, m: Movie, es: seq<IndexEntry>, k: nat)
      requires HoldsFragments(b, at, m, es) && AllInFile(m, es) && k <= |es|
      ensures SumLengths(es[..k]) <= SumLengths(es) && at + SumLengths(es[..k]) <= |b|
      ensures b[at..at + SumLengths(es[..k])] == Fragments(m, es[..k])
      decreases k
    {
      hide SumLengths, Fragments, HoldsFragments, Data, Available, InFile;
      if k > 0 {
        HoldsOne(b, at, m, es, k - 1);
        FragmentsStep(m, es, k - 1);
        HoldsAll(b, at, m, es, k - 1);
        Adjoin(b, at, SumLengths(es[..k - 1]), es[k - 1].length);
      } else {
        RoomFor(b, at, m, es);
        NoFragments(b, at, m, es);
      }
    }

    static lemma RoomFor(b: seq<uint8>, at: nat, m: Movie, es: seq<IndexEntry>)
      requires HoldsFragments(b, at, m, es)
      ensures at <= |b|
    {
      hide HoldsAt;
    }

    static lemma Adjoin(b: seq<uint8>, at: nat, n: nat, k: nat)
      requires at + n + k <= |b|
      ensures b[at..at + n] + b[at + n..at + n + k] == b[at..at + n + k]
    {
    }

    static lemma FragmentsStep(m: Movie, es: seq<IndexEntry>, i: nat)
      requires AllInFile(m, es) && i < |es|
      ensures SumLengths(es[..i + 1]) == SumLengths(es[..i]) + es[i].length <= SumLengths(es)
      ensures Fragments(m, es[..i + 1]) == Fragments(m, es[..i]) + Data(m, es[i])
    {
      SumMonotone(es, i + 1);
      assert es[..i + 1][..i] == es[..i];
    }

    static lemma {:induction false} SumMonotone(es: seq<IndexEntry>, k: nat)
      requires k <= |es|
      ensures SumLengths(es[..k]) <= SumLengths(es)
      decreases |es| - k
    {
      if k < |es| {
        assert es[..k + 1][..k] == es[..k];
        SumMonotone(es, k + 1);
      } else {
        assert es[..k] == es;
      }
    }
  }
}
