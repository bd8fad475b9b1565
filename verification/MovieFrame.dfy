/** The movie frame packet: one index record per track, then the tracks' fragments back to
    back, at the offsets the records give. */
module MovieFrame {
  import opened Bytes
  import opened Framing
  import opened Packets
  import opened AviIndex
  import opened AviCursor
  import opened AviPlayback

  const TYPE_MOVIE: uint8 := 9
  const CODE_FRAME: uint8 := 6
  const DATA_FRAME: uint8 := 55

  const FRAME_NO_AT := 136
  const FRAME_LENGTH_AT := 140
  const FLAGS_AT := 144
  const COUNT_AT := 145
  const TRACKS_AT := 146
  const TRACK_SIZE := 16

  /** The place after `n` track records: where record `n` starts, or else the frame data. */
  function AfterTracks(n: nat): nat {
    TRACKS_AT + TRACK_SIZE * n
  }

  predicate HasRecord(p: seq<uint8>, at: nat, e: IndexEntry, offset: nat) {
    && at + TRACK_SIZE <= |p|
    && p[at..at + 4] == e.ckid
    && Ntohl(p[at + 4..at + 8]) == offset
    && Ntohl(p[at + 8..at + 12]) == e.length
    && p[at + 12] as int == e.flags % 256
  }

  /** Every track has its record, with the lengths before it summed as its offset. */
  predicate HasRecords(p: seq<uint8>, es: seq<IndexEntry>) {
    forall i :: 0 <= i < |es| ==> HasRecord(p, AfterTracks(i), es[i], SumLengths(es[..i]))
  }

  predicate HasFields(p: seq<uint8>, no: nat, frameLength: nat, count: nat, path: seq<uint8>) {
    && AfterTracks(count) <= |p|
    && HasHeader(p, |p|, TYPE_MOVIE, CODE_FRAME, DATA_FRAME)
    && p[8..FRAME_NO_AT] == PathField(path)
    && Ntohl(p[FRAME_NO_AT..FRAME_NO_AT + 4]) == no
    && Ntohl(p[FRAME_LENGTH_AT..FRAME_LENGTH_AT + 4]) == frameLength
    && p[FLAGS_AT] == 0 && p[COUNT_AT] as int == count
  }

  /** The bytes of segment `i`, found through the packet's own records. */
  function Segment(p: seq<uint8>, count: nat, i: nat): seq<uint8>
    requires i < count && AfterTracks(count) <= |p|
    requires var at := AfterTracks(i);
      AfterTracks(count) + Ntohl(p[at + 4..at + 8]) + Ntohl(p[at + 8..at + 12]) <= |p|
  {
    var at := AfterTracks(i);
    var from := AfterTracks(count) + Ntohl(p[at + 4..at + 8]);
    p[from..from + Ntohl(p[at + 8..at + 12])]
  }

  predicate IdsOk(es: seq<IndexEntry>) {
    forall i :: 0 <= i < |es| ==> |es[i].ckid| == ID_SIZE
  }

  // ---------- building

  method PutRecord(p: array<uint8>, at: nat, e: IndexEntry, offset: nat)
    requires at + TRACK_SIZE <= p.Length && |e.ckid| == ID_SIZE && e.length < TWO_32 && offset < TWO_32
    modifies p
    ensures HasRecord(p[..], at, e, offset)
    ensures Elsewhere(old(p[..]), p[..], at, at + TRACK_SIZE)
  {
    p[at + 12] := (e.flags % 256) as uint8;
    ghost var s := p[..];
    Put32(p, at + 8, e.length);
    ghost var t := p[..];
    Put32(p, at + 4, offset);
    ghost var u := p[..];
    SliceKept(t, u, at + 4, at + 8, at + 8, at + 12);
    PutBytes(p, at, e.ckid);
    SliceKept(u, p[..], at, at + 4, at + 4, at + 8);
    SliceKept(u, p[..], at, at + 4, at + 8, at + 12);
  }

  lemma RecordKept(s: seq<uint8>, t: seq<uint8>, lo: nat, hi: nat, at: nat, e: IndexEntry, offset: nat)
    requires HasRecord(s, at, e, offset) && Elsewhere(s, t, lo, hi)
    requires at + TRACK_SIZE <= lo || hi <= at
    ensures HasRecord(t, at, e, offset)
  {
    SliceKept(s, t, lo, hi, at, at + 4);
    SliceKept(s, t, lo, hi, at + 4, at + 8);
    SliceKept(s, t, lo, hi, at + 8, at + 12);
  }

  lemma RecordsKept(s: seq<uint8>, t: seq<uint8>, lo: nat, hi: nat, es: seq<IndexEntry>)
    requires HasRecords(s, es) && Elsewhere(s, t, lo, hi) && AfterTracks(|es|) <= lo
    ensures HasRecords(t, es)
  {
    forall i | 0 <= i < |es|
      ensures HasRecord(t, AfterTracks(i), es[i], SumLengths(es[..i]))
    {
      RecordKept(s, t, lo, hi, AfterTracks(i), es[i], SumLengths(es[..i]));
    }
  }

  lemma FieldsKept(s: seq<uint8>, t: seq<uint8>, lo: nat, hi: nat,
                   no: nat, frameLength: nat, count: nat, path: seq<uint8>)
    requires HasFields(s, no, frameLength, count, path) && Elsewhere(s, t, lo, hi) && TRACKS_AT <= lo
    ensures HasFields(t, no, frameLength, count, path)
  {
    HeaderKept(s, t, lo, hi, |s|, TYPE_MOVIE, CODE_FRAME, DATA_FRAME);
    SliceKept(s, t, lo, hi, 8, FRAME_NO_AT);
    SliceKept(s, t, lo, hi, FRAME_NO_AT, FRAME_NO_AT + 4);
    SliceKept(s, t, lo, hi, FRAME_LENGTH_AT, FRAME_LENGTH_AT + 4);
  }

  /** The header and the fixed fields. */
  method NewFrame(no: nat, frameLength: nat, count: nat, path: seq<uint8>) returns (p: array<uint8>)
    requires no < TWO_32 && count < 256 && AfterTracks(count) + frameLength < TWO_31
    ensures fresh(p) && p.Length == AfterTracks(count) + frameLength
    ensures HasFields(p[..], no, frameLength, count, path)
  {
    var len := AfterTracks(count) + frameLength;
    p := new uint8[len];
    SetHeader(p, len, TYPE_MOVIE, CODE_FRAME, DATA_FRAME);
    ghost var s := p[..];
    Put32(p, FRAME_NO_AT, no);
    p[COUNT_AT] := count as uint8;
    p[FLAGS_AT] := 0;
    ghost var t := p[..];
    assert t[FRAME_NO_AT..FRAME_NO_AT + 4] == p[FRAME_NO_AT..FRAME_NO_AT + 4];
    HeaderKept(s, t, FRAME_NO_AT, TRACKS_AT, len, TYPE_MOVIE, CODE_FRAME, DATA_FRAME);
    Put32(p, FRAME_LENGTH_AT, frameLength);
    ghost var u := p[..];
    HeaderKept(t, u, FRAME_LENGTH_AT, FLAGS_AT, len, TYPE_MOVIE, CODE_FRAME, DATA_FRAME);
    SliceKept(t, u, FRAME_LENGTH_AT, FLAGS_AT, FRAME_NO_AT, FRAME_LENGTH_AT);
    PutBytes(p, 8, PathField(path));
    HeaderKept(u, p[..], 8, FRAME_NO_AT, len, TYPE_MOVIE, CODE_FRAME, DATA_FRAME);
    SliceKept(u, p[..], 8, FRAME_NO_AT, FRAME_NO_AT, FRAME_NO_AT + 4);
    SliceKept(u, p[..], 8, FRAME_NO_AT, FRAME_LENGTH_AT, FRAME_LENGTH_AT + 4);
  }

  /** The loop that writes the track records with a running offset. */
  method PutRecords(p: array<uint8>, es: seq<IndexEntry>, ghost no: nat, ghost frameLength: nat, ghost path: seq<uint8>)
    requires HasFields(p[..], no, frameLength, |es|, path)
    requires IdsOk(es) && SumLengths(es) < TWO_31
    modifies p
    ensures HasFields(p[..], no, frameLength, |es|, path) && HasRecords(p[..], es)
  {
    hide HasRecord;
    var offset := 0;
    var i := 0;
    while i < |es|
      invariant 0 <= i <= |es| && offset == SumLengths(es[..i])
      invariant HasFields(p[..], no, frameLength, |es|, path)
      invariant HasRecords(p[..], es[..i])
    {
      MovieContext.SumMonotone(es, i);
      MovieContext.SumMonotone(es, i + 1);
      assert es[..i + 1][..i] == es[..i];
      ghost var s := p[..];
      PutRecord(p, AfterTracks(i), es[i], offset);
      FieldsKept(s, p[..], AfterTracks(i), AfterTracks(i + 1), no, frameLength, |es|, path);
      RecordsKept(s, p[..], AfterTracks(i), AfterTracks(i + 1), es[..i]);
      RecordsPush(p[..], es, i);
      offset := offset + es[i].length;
      i := i + 1;
    }
    assert es[..i] == es;
  }

  lemma RecordsPush(p: seq<uint8>, es: seq<IndexEntry>, i: nat)
    requires i < |es| && HasRecords(p, es[..i]) && HasRecord(p, AfterTracks(i), es[i], SumLengths(es[..i]))
    ensures HasRecords(p, es[..i + 1])
  {
    hide HasRecord;
    forall j | 0 <= j < i + 1
      ensures HasRecord(p, AfterTracks(j), es[..i + 1][j], SumLengths(es[..i + 1][..j]))
    {
      assert es[..i + 1][..j] == es[..j];
      assert j < i ==> es[..i][..j] == es[..j] && HasRecord(p, AfterTracks(j), es[..i][j], SumLengths(es[..i][..j]));
    }
  }

  lemma {:induction false} NoTracksNoBytes(es: seq<IndexEntry>)
    requires forall i :: 0 <= i < |es| ==> es[i] == NO_TRACK
    ensures SumLengths(es) == 0
  {
    if es != [] {
      NoTracksNoBytes(es[..|es| - 1]);
    }
  }

  /** The entries that a look-up reads but its one-octet count leaves out hold no bytes; where no entry is
      read, the frame length left from before is 0. */
  predicate CountsItsBytes(m: Movie, c: Cursor)
    requires CursorOk(m, c)
  {
    var k := ReadCount(m, c.fragmentNo);
    if k == 0 then c.frameLength == 0
    else SumLengths(m.index[c.fragmentNo + k % 256..c.fragmentNo + k]) == 0
  }

  lemma {:induction false} SumAppend(a: seq<IndexEntry>, b: seq<IndexEntry>)
    ensures SumLengths(a + b) == SumLengths(a) + SumLengths(b)
    decreases |b|
  {
    if b == [] {
      assert a + b == a;
    } else {
      SumAppend(a, b[..|b| - 1]);
      assert (a + b)[..|a + b| - 1] == a + b[..|b| - 1];
    }
  }

  lemma SplitSum(index: seq<IndexEntry>, from: nat, n: nat, k: nat)
    requires n <= k && from + k <= |index|
    ensures SumLengths(index[from..from + k])
         == SumLengths(index[from..from + n]) + SumLengths(index[from + n..from + k])
  {
    hide SumLengths;
    assert index[from..from + k] == index[from..from + n] + index[from + n..from + k];
    SumAppend(index[from..from + n], index[from + n..from + k]);
  }

  /** The entries counted are the first of those read. */
  lemma CountedEntries(m: Movie, c: Cursor)
    requires CursorOk(m, c) && 0 < ReadCount(m, c.fragmentNo)
    ensures var k, r := ReadCount(m, c.fragmentNo), Lookup(m, c);
      && r.trackCount == k % 256 && r.frameLength == SumLengths(m.index[c.fragmentNo..c.fragmentNo + k])
      && r.tracks[..k % 256] == m.index[c.fragmentNo..c.fragmentNo + k % 256]
  {
    hide SumLengths, FramesFrom, NextBase;
    var k := ReadCount(m, c.fragmentNo);
    var read, tracks := m.index[c.fragmentNo..c.fragmentNo + k], Lookup(m, c).tracks;
    assert tracks[..k] == read;
    assert tracks[..k % 256] == tracks[..k][..k % 256];
    assert read[..k % 256] == m.index[c.fragmentNo..c.fragmentNo + k % 256];
  }

  /** What the copy will move, from any cursor: never more than the frame length the packet was sized by, and
      exactly that if and only if the count leaves no bytes out. */
  lemma CopyFits(m: Movie, c: Cursor)
    requires CursorOk(m, c)
    ensures var r := Lookup(m, c); SumLengths(r.tracks[..r.trackCount]) <= r.frameLength
    ensures var r := Lookup(m, c); SumLengths(r.tracks[..r.trackCount]) == r.frameLength <==> CountsItsBytes(m, c)
  {
    hide Lookup, FramesFrom, NextBase, Padded, SumLengths;
    var k := ReadCount(m, c.fragmentNo);
    if k == 0 {
      NothingRead(m, c);
    } else {
      CountedEntries(m, c);
      SplitSum(m.index, c.fragmentNo, k % 256, k);
    }
  }

  lemma NothingRead(m: Movie, c: Cursor)
    requires CursorOk(m, c) && ReadCount(m, c.fragmentNo) == 0
    ensures var r := Lookup(m, c); SumLengths(r.tracks[..r.trackCount]) == 0 && r.frameLength == c.frameLength
  {
    NoTracksNoBytes(Lookup(m, c).tracks[..c.trackCount]);
  }

  lemma {:induction false} PositiveSum(es: seq<IndexEntry>)
    requires forall i :: 0 <= i < |es| ==> es[i].length > 0
    ensures SumLengths(es) >= |es|
  {
    if es != [] {
      PositiveSum(es[..|es| - 1]);
    }
  }

  /** If every entry read has bytes, they are all counted if and only if there are at most 255. */
  lemma CountsUpTo255(m: Movie, c: Cursor)
    requires CursorOk(m, c) && 0 < ReadCount(m, c.fragmentNo)
    requires forall i :: c.fragmentNo <= i < c.fragmentNo + ReadCount(m, c.fragmentNo) ==> m.index[i].length > 0
    ensures CountsItsBytes(m, c) <==> ReadCount(m, c.fragmentNo) <= MAX_TRACKS
  {
    var k := ReadCount(m, c.fragmentNo);
    PositiveSum(m.index[c.fragmentNo + k % 256..c.fragmentNo + k]);
  }

  /** A frame of one base entry and 255 others, of one octet each. */
  function WideFrame(): (index: seq<IndexEntry>)
    ensures |index| == 256 && IsBase(index[0])
    ensures forall i :: 1 <= i < 256 ==> !IsBase(index[i])
    ensures forall i :: 0 <= i < 256 ==> index[i].length == 1
  {
    seq(256, i => IndexEntry(if i == 0 then [48, 48, 100, 99] else [48, 49, 119, 98], 0, 0, 1))
  }

  /** An input that fails: a frame of 256 entries in a table that holds them. The packet is sized for at least
      256 octets of data, and none is copied into it. */
  lemma WideFrameIsNotCopied()
    ensures var m := Movie(WideFrame(), 256, [7], 0);
      var c := Cursor(0, 0, 0, 0, seq(256, _ => NO_TRACK));
      && CursorOk(m, c)
      && var r := Lookup(m, c);
        r.trackCount == 0 && SumLengths(r.tracks[..r.trackCount]) == 0 && r.frameLength >= 256
  {
    var m := Movie(WideFrame(), 256, [7], 0);
    assert NextBase(m.index, 1) == 256;
    assert ReadCount(m, 0) == 256;
    PositiveSum(m.index[0..256]);
  }

  /** What `dx_packet_send_movie_frame` queues for the frame looked up as `r`. */
  predicate IsFramePacket(m: Movie, r: Cursor, path: seq<uint8>, p: seq<uint8>)
    requires CursorOk(m, r)
  {
    var es := r.tracks[..r.trackCount];
    && |p| == AfterTracks(|es|) + r.frameLength && Framed(p)
    && HasFields(p, r.frameNo, r.frameLength, |es|, path)
    && HasRecords(p, es)
    && SumLengths(es) <= r.frameLength
    && HoldsFragments(p, AfterTracks(|es|), m, es)
  }

  /** `dx_packet_send_movie_frame`, up to the call of `dx_write` (with discardable set). */
  method BuildFrame(ctx: MovieContext, path: seq<uint8>) returns (p: array<uint8>)
    requires ctx.Valid() && Total(ctx.movie) < TWO_31
    requires var r := Lookup(ctx.movie, ctx.At());
      && IdsOk(r.tracks[..r.trackCount])
      && AfterTracks(r.trackCount) + r.frameLength < TWO_31
    modifies ctx, ctx.track
    ensures ctx.Valid() && fresh(p)
    ensures ctx.At() == TakeFrame(ctx.movie, old(ctx.At()))
    ensures IsFramePacket(ctx.movie, Lookup(ctx.movie, old(ctx.At())), path, p[..])
  {
    CopyFits(ctx.movie, ctx.At());
    GroupFits(ctx.movie, ctx.At());
    hide Lookup, IsFramePacket, Advance, SumLengths, FramesFrom, CursorOk;
    LookUpFrame(ctx);
    p := PackFrame(ctx, path);
  }

  /** `dx_avi_get_frame_index`, with what packing needs of the frame it finds. */
  method LookUpFrame(ctx: MovieContext)
    requires ctx.Valid()
    requires SumLengths(ctx.movie.index[ctx.fragmentNo..ctx.fragmentNo + ReadCount(ctx.movie, ctx.fragmentNo)]) < TWO_31
    modifies ctx, ctx.track
    ensures ctx.Valid() && ctx.At() == Lookup(ctx.movie, old(ctx.At()))
    ensures CursorOk(ctx.movie, Advance(ctx.movie, ctx.At()))
  {
    hide SumLengths, FramesFrom, Padded, ReadCount;
    assert CursorOk(ctx.movie, TakeFrame(ctx.movie, ctx.At()));
    ctx.GetFrameIndex();
  }

  lemma GroupFits(m: Movie, c: Cursor)
    requires CursorOk(m, c) && Lookup(m, c).frameLength < TWO_31
    ensures SumLengths(m.index[c.fragmentNo..c.fragmentNo + ReadCount(m, c.fragmentNo)]) < TWO_31
  {
  }

  /** The packet of the frame whose tracks are looked up already; the cursor moves past it. */
  method PackFrame(ctx: MovieContext, path: seq<uint8>) returns (p: array<uint8>)
    requires ctx.Valid() && Total(ctx.movie) < TWO_31
    requires var es := ctx.track[..ctx.trackCount];
      IdsOk(es) && SumLengths(es) <= ctx.frameLength
    requires AfterTracks(ctx.trackCount) + ctx.frameLength < TWO_31
    requires CursorOk(ctx.movie, Advance(ctx.movie, ctx.At()))
    modifies ctx`frameNo, ctx`fragmentNo
    ensures ctx.Valid() && fresh(p) && ctx.At() == Advance(ctx.movie, old(ctx.At()))
    ensures IsFramePacket(ctx.movie, old(ctx.At()), path, p[..])
  {
    hide SumLengths, HoldsFragments, FramesFrom, HasFields, HasRecords;
    var es := ctx.track[..ctx.trackCount];
    ghost var no := ctx.frameNo;
    p := NewFrame(ctx.frameNo, ctx.frameLength, ctx.trackCount, path);
    PutRecords(p, es, no, ctx.frameLength, path);
    ghost var s := p[..];
    var _ := ctx.GetFrameData(p, AfterTracks(ctx.trackCount));
    CopyKeepsFront(s, p[..], no, ctx.frameLength, es, path);
    FieldsAreFramed(p[..], no, ctx.frameLength, |es|, path);
  }

  lemma FieldsAreFramed(p: seq<uint8>, no: nat, frameLength: nat, count: nat, path: seq<uint8>)
    requires HasFields(p, no, frameLength, count, path) && |p| < TWO_31
    ensures Framed(p)
  {
  }

  lemma CopyKeepsFront(s: seq<uint8>, t: seq<uint8>, no: nat, frameLength: nat, es: seq<IndexEntry>, path: seq<uint8>)
    requires HasFields(s, no, frameLength, |es|, path) && HasRecords(s, es) && |t| == |s|
    requires t[..AfterTracks(|es|)] == s[..AfterTracks(|es|)]
    ensures HasFields(t, no, frameLength, |es|, path) && HasRecords(t, es)
  {
    forall i | 0 <= i < AfterTracks(|es|)
      ensures t[i] == s[i]
    {
      assert t[i] == t[..AfterTracks(|es|)][i];
    }
    FieldsKept(s, t, AfterTracks(|es|), |s|, no, frameLength, |es|, path);
    RecordsKept(s, t, AfterTracks(|es|), |s|, es);
  }

  // ---------- what a receiver reads back

  /** Layout: the records' offsets are the running sums of their lengths, so segments are disjoint and
      in order, and each starts with what the file has of its fragment: all of it, if it lies in the file. */
  lemma SegmentsAreFragments(m: Movie, r: Cursor, path: seq<uint8>, p: seq<uint8>, i: nat)
    requires CursorOk(m, r) && i < r.trackCount && IsFramePacket(m, r, path, p)
    ensures var at := AfterTracks(i);
      && at + TRACK_SIZE <= AfterTracks(r.trackCount) <= |p|
      && Ntohl(p[at + 4..at + 8]) == SumLengths(r.tracks[..r.trackCount][..i])
      && Ntohl(p[at + 4..at + 8]) + Ntohl(p[at + 8..at + 12]) == SumLengths(r.tracks[..r.trackCount][..i + 1])
      && AfterTracks(r.trackCount) + Ntohl(p[at + 4..at + 8]) + Ntohl(p[at + 8..at + 12]) <= |p|
      && Available(m, r.tracks[i]) <= Segment(p, r.trackCount, i)
      && (InFile(m, r.tracks[i]) ==> Segment(p, r.trackCount, i) == Data(m, r.tracks[i]))
  {
    hide SumLengths, Available, Data, HasFields, HoldsFragments, FramesFrom;
    var es := r.tracks[..r.trackCount];
    assert HasRecord(p, AfterTracks(i), es[i], SumLengths(es[..i]));
    MovieContext.HoldsOne(p, AfterTracks(|es|), m, es, i);
  }

  /** From any cursor: the data part is exactly as long as its segments together if and only if the count
      leaves no bytes out, and if the file has these fragments, the data part then is the fragments. */
  lemma SegmentsFillPacket(m: Movie, c: Cursor, path: seq<uint8>, p: seq<uint8>)
    requires CursorOk(m, c) && IsFramePacket(m, Lookup(m, c), path, p)
    ensures var r := Lookup(m, c);
      var es := r.tracks[..r.trackCount];
      && (|p| == AfterTracks(|es|) + SumLengths(es) <==> CountsItsBytes(m, c))
      && (CountsItsBytes(m, c) && AllInFile(m, es) ==> p[AfterTracks(|es|)..] == Fragments(m, es))
  {
    CopyFits(m, c);
    var r := Lookup(m, c);
    if CountsItsBytes(m, c) && AllInFile(m, r.tracks[..r.trackCount]) {
      DataIsFragments(m, r, path, p);
    }
  }

  lemma DataIsFragments(m: Movie, r: Cursor, path: seq<uint8>, p: seq<uint8>)
    requires CursorOk(m, r) && AllInFile(m, r.tracks[..r.trackCount]) && IsFramePacket(m, r, path, p)
    requires r.frameLength == SumLengths(r.tracks[..r.trackCount])
    ensures p[AfterTracks(r.trackCount)..] == Fragments(m, r.tracks[..r.trackCount])
  {
    hide SumLengths, Fragments, HoldsFragments, HasFields, HasRecords, Framed;
    var es := r.tracks[..r.trackCount];
    MovieContext.HoldsAll(p, AfterTracks(|es|), m, es, |es|);
    assert es[..|es|] == es;
    assert p[AfterTracks(r.trackCount)..] == p[AfterTracks(r.trackCount)..|p|];
  }
}
