/** Seeking and playing compared: when the incremental cursor agrees with the scan, and
    that playing to the end sends every fragment exactly once. */
module AviPlayback {
  import opened Bytes
  import opened AviIndex
  import opened AviCursor

  const MAX_TRACKS := 255

  /** The interleaving playback relies on: no frame has more entries than the track table, or
      than the octet that counts them, can hold. */
  predicate Interleaved(m: Movie) {
    forall n :: 0 <= n < Total(m) ==> GroupSize(m.index, n) <= Min(m.trackCount, MAX_TRACKS)
  }

  /** The place of frame `n`, the end of the movie included, as a scan finds it. */
  predicate Locates(m: Movie, c: Cursor, n: nat) {
    c.frameNo == Min(n, Total(m)) && c.fragmentNo == Select(m.index, n)
  }

  /** Take `k` frames one after the other. */
  function Take(m: Movie, c: Cursor, k: nat): (r: Cursor)
    requires CursorOk(m, c)
    ensures CursorOk(m, r)
    decreases k
  {
    if k == 0 then c else TakeFrame(m, Take(m, c, k - 1))
  }

  // ---------- seeking

  /** A seek to a frame number finds it; at or past the end it goes to both totals. */
  lemma SeekLocates(m: Movie, c: Cursor, n: nat)
    ensures Locates(m, SeekTo(m, c, n).0, n)
    ensures n >= Total(m) ==> SeekTo(m, c, n).0.fragmentNo == |m.index|
  {
  }

  /** Inside the movie, the fragment found is the one base entry with `n` frames before it. */
  lemma SeekIsSelection(m: Movie, c: Cursor, n: nat)
    requires n < Total(m)
    ensures var p := SeekTo(m, c, n).0.fragmentNo;
      && SeekTo(m, c, n) == (c.(frameNo := n, fragmentNo := p), p) && p < |m.index| && IsBase(m.index[p])
      && Total(m) == n + FramesFrom(m.index, p)
      && forall q :: 0 <= q < |m.index| && IsBase(m.index[q]) && Total(m) == n + FramesFrom(m.index, q) ==> q == p
  {
    SelectCounts(m.index, 0, n);
    forall q | 0 <= q < |m.index| && IsBase(m.index[q]) && Total(m) == n + FramesFrom(m.index, q)
      ensures q == Select(m.index, n)
    {
      SelectUnique(m.index, 0, n, q);
    }
  }

  /** A relative seek after an absolute one is an absolute one from where that arrived, which is never past the
      end; negative targets change nothing. Frame numbers and their sums are 32-bit. */
  lemma SeekComposes(m: Movie, c: Cursor, n: nat, offset: int)
    requires Total(m) < TWO_31 && -TWO_31 <= Min(n, Total(m)) + offset < TWO_31
    ensures var at, target := Seek(m, c, n, SeekSet).0, Min(n, Total(m)) + offset;
      Seek(m, at, offset, SeekCur).0 == if target < 0 then at else Seek(m, c, target, SeekSet).0
  {
  }

  /** A seek counted from the end is the absolute one to that number. */
  lemma SeekFromEnd(m: Movie, c: Cursor, offset: int)
    requires -TWO_31 <= Total(m) + offset < TWO_31
    ensures Seek(m, c, offset, SeekEnd) == Seek(m, c, Total(m) + offset, SeekSet)
  {
  }

  /** Outside the movie: a number at or past the end goes to both totals and returns the number of frames; a
      negative one changes nothing and returns the current frame. */
  lemma SeekOutside(m: Movie, c: Cursor, n: int)
    ensures n >= Total(m) ==>
      Seek(m, c, n, SeekSet) == (c.(frameNo := Total(m), fragmentNo := |m.index|), Total(m))
    ensures n < 0 && n < Total(m) ==> Seek(m, c, n, SeekSet) == (c, c.frameNo)
  {
  }

  // ---------- playing

  /** One frame forward is the next frame of the scan, if the frame fits. */
  lemma TakeLocates(m: Movie, c: Cursor, n: nat)
    requires CursorOk(m, c) && Locates(m, c, n)
    requires n < Total(m) ==> GroupSize(m.index, n) <= Min(m.trackCount, MAX_TRACKS)
    ensures Locates(m, TakeFrame(m, c), n + 1)
  {
    hide SumLengths;
    if n < Total(m) {
      SelectNext(m.index, 0, n);
      assert ReadCount(m, c.fragmentNo) == GroupSize(m.index, n);
    }
  }

  lemma {:induction false} TakesLocate(m: Movie, c: Cursor, n: nat, k: nat)
    requires CursorOk(m, c) && Locates(m, c, n) && Interleaved(m)
    ensures Locates(m, Take(m, c, k), n + k)
    decreases k
  {
    hide TakeFrame, CursorOk, Select;
    if k > 0 {
      TakesLocate(m, c, n, k - 1);
      TakeLocates(m, Take(m, c, k - 1), n + k - 1);
    }
  }

  /** The fast form refines the simple one: seeking to `n` and taking `k` frames is seeking to
      `n + k`, up to and including the end of the movie. */
  lemma CursorRefinesScan(m: Movie, c: Cursor, n: nat, k: nat)
    requires CursorOk(m, c) && Interleaved(m)
    ensures var played := Take(m, SeekTo(m, c, n).0, k);
      var sought := SeekTo(m, c, n + k).0;
      played.frameNo == sought.frameNo && played.fragmentNo == sought.fragmentNo
  {
    SeekLocates(m, c, n);
    TakesLocate(m, SeekTo(m, c, n).0, n, k);
    SeekLocates(m, c, n + k);
  }

  predicate AgreesWithScan(m: Movie, c: Cursor)
    requires CursorOk(m, c)
  {
    forall k :: 0 <= k <= Total(m) ==> Locates(m, Take(m, SeekTo(m, c, 0).0, k), k)
  }

  /** A frame that does not fit throws the cursor off. */
  lemma MisfitIsMissed(m: Movie, c: Cursor, n: nat)
    requires CursorOk(m, c) && Locates(m, c, n) && n < Total(m)
    requires Locates(m, TakeFrame(m, c), n + 1)
    ensures GroupSize(m.index, n) <= Min(m.trackCount, MAX_TRACKS)
  {
    SelectNext(m.index, 0, n);
    assert ReadCount(m, c.fragmentNo) % 256 == GroupSize(m.index, n);
  }

  /** Exactly the interleaved movies play as they seek. */
  lemma AgreesExactlyWhenInterleaved(m: Movie, c: Cursor)
    requires CursorOk(m, c)
    ensures AgreesWithScan(m, c) <==> Interleaved(m)
  {
    var start := SeekTo(m, c, 0).0;
    if Interleaved(m) {
      forall k | 0 <= k <= Total(m)
        ensures Locates(m, Take(m, start, k), k)
      {
        SeekLocates(m, c, 0);
        TakesLocate(m, start, 0, k);
      }
    }
    if AgreesWithScan(m, c) {
      forall n | 0 <= n < Total(m)
        ensures GroupSize(m.index, n) <= Min(m.trackCount, MAX_TRACKS)
      {
        assert Locates(m, Take(m, start, n), n) && Locates(m, Take(m, start, n + 1), n + 1);
        MisfitIsMissed(m, Take(m, start, n), n);
      }
    }
  }

  /** An input that fails: one track, entries "00", "01", "00". The frame taken first leaves its second
      entry behind, so the cursor stands on that entry where the scan finds frame 1. */
  lemma SecondFrameMissed()
    ensures var base, other := IndexEntry([48, 48, 100, 99], 0, 0, 0), IndexEntry([48, 49, 119, 98], 0, 0, 0);
      var m, c := Movie([base, other, base], 1, [], 0), Cursor(0, 0, 0, 0, [NO_TRACK]);
      && CursorOk(m, c)
      && TakeFrame(m, SeekTo(m, c, 0).0).frameNo == 1 == SeekTo(m, c, 1).0.frameNo
      && TakeFrame(m, SeekTo(m, c, 0).0).fragmentNo == 1 && SeekTo(m, c, 1).0.fragmentNo == 2
  {
    var base, other := IndexEntry([48, 48, 100, 99], 0, 0, 0), IndexEntry([48, 49, 119, 98], 0, 0, 0);
    var m := Movie([base, other, base], 1, [], 0);
    assert FramesFrom(m.index, 2) == 1 && FramesFrom(m.index, 1) == 1 && Total(m) == 2;
    assert SelectFrom(m.index, 1, 0) == 2;
  }

  // ---------- one step, from any cursor

  /** What a look-up reads, from any cursor: entry after entry up to the size of the track table, the next
      base entry or the end of the index, whichever comes first. Its count is kept in one octet, and where
      nothing is read the count and the length stay what they were. */
  lemma LookupReads(m: Movie, c: Cursor) returns (k: nat)
    requires CursorOk(m, c)
    ensures k <= m.trackCount && c.fragmentNo + k <= |m.index|
    ensures forall j :: c.fragmentNo + 1 <= j < c.fragmentNo + k ==> !IsBase(m.index[j])
    ensures k == m.trackCount || c.fragmentNo + k == |m.index| || (k > 0 && IsBase(m.index[c.fragmentNo + k]))
    ensures var r := Lookup(m, c);
      && r.frameNo == c.frameNo && r.fragmentNo == c.fragmentNo
      && r.trackCount == (if k == 0 then c.trackCount else k % 256)
      && r.frameLength == (if k == 0 then c.frameLength else SumLengths(m.index[c.fragmentNo..c.fragmentNo + k]))
      && |r.tracks| == m.trackCount && r.tracks[..k] == m.index[c.fragmentNo..c.fragmentNo + k]
      && forall j :: k <= j < m.trackCount ==> r.tracks[j] == NO_TRACK
  {
    hide SumLengths, FramesFrom;
    k := ReadCount(m, c.fragmentNo);
  }

  /** One frame on, from any cursor: the frame number by one up to the total, the fragment by the number of
      records the frame's packet has, and these are the entries passed; at the end of the index it stays. */
  lemma StepMoves(m: Movie, c: Cursor)
    requires CursorOk(m, c)
    ensures var r, next := Lookup(m, c), TakeFrame(m, c);
      && next.frameNo == Min(c.frameNo + 1, Total(m))
      && (c.fragmentNo < |m.index| ==>
            && next.fragmentNo == c.fragmentNo + r.trackCount <= |m.index|
            && r.tracks[..r.trackCount] == m.index[c.fragmentNo..c.fragmentNo + r.trackCount])
      && (c.fragmentNo == |m.index| ==>
            && next.fragmentNo == |m.index|
            && forall j :: 0 <= j < r.trackCount ==> r.tracks[j] == NO_TRACK)
  {
    hide SumLengths, FramesFrom, NextBase, Lookup, ReadCount, Padded;
    var k := LookupReads(m, c);
    CursorInMovie(m, c);
    if 0 < k {
      FirstOf(Lookup(m, c).tracks, m.index, c.fragmentNo, k, k % 256);
    }
  }

  lemma FirstOf(tracks: seq<IndexEntry>, index: seq<IndexEntry>, from: nat, k: nat, n: nat)
    requires n <= k <= |tracks| && from + k <= |index| && tracks[..k] == index[from..from + k]
    ensures tracks[..n] == index[from..from + n]
  {
    assert tracks[..n] == tracks[..k][..n] && index[from..from + n] == index[from..from + k][..n];
  }

  // ---------- conservation

  /** A frame as sent: its number and the bytes of its tracks. */
  datatype Frame = Frame(no: nat, payload: seq<uint8>)

  /** Every frame until the end of the movie. */
  function Play(m: Movie, c: Cursor): seq<Frame>
    requires CursorOk(m, c) && AllInFile(m, m.index) && m.frameOffset <= |m.file|
    decreases Total(m) - c.frameNo
  {
    if Total(m) <= c.frameNo then []
    else
      var c' := Lookup(m, c);
      TracksInFile(m, c);
      [Frame(c'.frameNo, Fragments(m, c'.tracks[..c'.trackCount]))] + Play(m, Advance(m, c'))
  }

  lemma TracksInFile(m: Movie, c: Cursor)
    requires CursorOk(m, c) && AllInFile(m, m.index) && m.frameOffset <= |m.file|
    ensures AllInFile(m, Lookup(m, c).tracks)
  {
    var k := ReadCount(m, c.fragmentNo);
    var read := m.index[c.fragmentNo..c.fragmentNo + k];
    forall i | 0 <= i < m.trackCount
      ensures InFile(m, Lookup(m, c).tracks[i])
    {
      if i < k {
        assert Padded(read, m.trackCount)[i] == Padded(read, m.trackCount)[..k][i] == m.index[c.fragmentNo + i];
      }
    }
  }

  function Payloads(frames: seq<Frame>): seq<uint8> {
    if frames == [] then [] else frames[0].payload + Payloads(frames[1..])
  }

  lemma {:induction false} FragmentsAppend(m: Movie, a: seq<IndexEntry>, b: seq<IndexEntry>)
    requires AllInFile(m, a) && AllInFile(m, b)
    ensures AllInFile(m, a + b) && Fragments(m, a + b) == Fragments(m, a) + Fragments(m, b)
    decreases |b|
  {
    if b == [] {
      assert a + b == a;
    } else {
      var init, last := b[..|b| - 1], b[|b| - 1];
      FragmentsAppend(m, a, init);
      assert (a + b)[..|a + b| - 1] == a + init;
      Regroup(Fragments(m, a), Fragments(m, init), Data(m, last));
    }
  }

  /** The frame looked up at the n-th base entry is exactly that frame's entries. */
  lemma LookupIsGroup(m: Movie, c: Cursor, n: nat)
    requires CursorOk(m, c) && Locates(m, c, n) && n < Total(m)
    requires GroupSize(m.index, n) <= Min(m.trackCount, MAX_TRACKS)
    ensures var r := Lookup(m, c);
      && r.trackCount == GroupSize(m.index, n)
      && r.tracks[..r.trackCount] == m.index[Select(m.index, n)..Select(m.index, n + 1)]
      && r.frameLength == SumLengths(r.tracks[..r.trackCount])
  {
    hide SumLengths;
    SelectNext(m.index, 0, n);
    hide Select;
  }

  /** The first frame played from the n-th base entry, and what remains. */
  lemma PlayUnfolds(m: Movie, c: Cursor, n: nat)
    requires CursorOk(m, c) && Locates(m, c, n) && n < Total(m) && Interleaved(m)
    requires AllInFile(m, m.index) && m.frameOffset <= |m.file|
    ensures Select(m.index, n) + GroupSize(m.index, n) == Select(m.index, n + 1)
    ensures AllInFile(m, m.index[Select(m.index, n)..Select(m.index, n + 1)])
    ensures Play(m, c) == [Frame(n, Fragments(m, m.index[Select(m.index, n)..Select(m.index, n + 1)]))]
                          + Play(m, TakeFrame(m, c))
  {
    LookupIsGroup(m, c, n);
    TracksInFile(m, c);
  }

  lemma PayloadsPush(f: Frame, rest: seq<Frame>)
    ensures Payloads([f] + rest) == f.payload + Payloads(rest)
  {
    assert ([f] + rest)[1..] == rest;
  }

  lemma FragmentsSplit(m: Movie, p: nat, q: nat)
    requires p <= q <= |m.index| && AllInFile(m, m.index)
    ensures AllInFile(m, m.index[p..q]) && AllInFile(m, m.index[q..])
    ensures Fragments(m, m.index[p..]) == Fragments(m, m.index[p..q]) + Fragments(m, m.index[q..])
  {
    FragmentsAppend(m, m.index[p..q], m.index[q..]);
    assert m.index[p..] == m.index[p..q] + m.index[q..];
  }

  /** Frame numbers run on from `n`. */
  predicate Numbered(frames: seq<Frame>, n: nat) {
    forall i :: 0 <= i < |frames| ==> frames[i].no == n + i
  }

  lemma NothingLeft(m: Movie, c: Cursor, n: nat)
    requires CursorOk(m, c) && AllInFile(m, m.index) && m.frameOffset <= |m.file| && Total(m) <= c.frameNo
    ensures Play(m, c) == [] && Numbered(Play(m, c), n)
  {
  }

  lemma NumberedPush(f: Frame, rest: seq<Frame>, n: nat)
    requires f.no == n && Numbered(rest, n + 1)
    ensures Numbered([f] + rest, n)
  {
  }

  lemma {:induction false} PlayNumbersFrames(m: Movie, c: Cursor, n: nat)
    requires CursorOk(m, c) && Locates(m, c, n) && n <= Total(m) && Interleaved(m)
    requires AllInFile(m, m.index) && m.frameOffset <= |m.file|
    ensures |Play(m, c)| == Total(m) - n && Numbered(Play(m, c), n)
    decreases Total(m) - n
  {
    hide Numbered, TakeFrame, Interleaved, Select, Play, AllInFile, FramesFrom, GroupSize;
    if n == Total(m) {
      NothingLeft(m, c, n);
    } else {
      FirstFrame(m, c, n);
      PlayNumbersFrames(m, TakeFrame(m, c), n + 1);
    }
  }

  lemma FirstFrame(m: Movie, c: Cursor, n: nat)
    requires CursorOk(m, c) && Locates(m, c, n) && n < Total(m) && Interleaved(m)
    requires AllInFile(m, m.index) && m.frameOffset <= |m.file|
    ensures Locates(m, TakeFrame(m, c), n + 1)
    ensures var rest := Play(m, TakeFrame(m, c));
      |Play(m, c)| == 1 + |rest| && (Numbered(rest, n + 1) ==> Numbered(Play(m, c), n))
  {
    PlayUnfolds(m, c, n);
    TakeLocates(m, c, n);
    hide Play, TakeFrame, Fragments, Locates;
    if Numbered(Play(m, TakeFrame(m, c)), n + 1) {
      NumberedPush(Play(m, c)[0], Play(m, TakeFrame(m, c)), n);
    }
  }

  lemma {:induction false} PlaySendsFragments(m: Movie, c: Cursor, n: nat)
    requires CursorOk(m, c) && Locates(m, c, n) && n <= Total(m) && Interleaved(m)
    requires AllInFile(m, m.index) && m.frameOffset <= |m.file|
    ensures Payloads(Play(m, c)) == Fragments(m, m.index[Select(m.index, n)..])
    decreases Total(m) - n
  {
    var p := Select(m.index, n);
    if n == Total(m) {
      assert m.index[p..] == [];
    } else {
      hide TakeFrame, CursorOk, Select, Play, Fragments, Payloads;
      var rest := Play(m, TakeFrame(m, c));
      PlayUnfolds(m, c, n);
      TakeLocates(m, c, n);
      PlaySendsFragments(m, TakeFrame(m, c), n + 1);
      FragmentsSplit(m, p, Select(m.index, n + 1));
      PayloadsPush(Play(m, c)[0], rest);
    }
  }

  /** Played from frame `n` to the end, an interleaved movie sends frames n, n + 1, ... in
      order, and their payloads are the data of every fragment from there on, each once. */
  lemma PlaybackConserves(m: Movie, c: Cursor, n: nat)
    requires CursorOk(m, c) && Interleaved(m) && AllInFile(m, m.index) && m.frameOffset <= |m.file|
    requires n <= Total(m)
    ensures var frames := Play(m, SeekTo(m, c, n).0);
      && |frames| == Total(m) - n
      && Numbered(frames, n)
      && Payloads(frames) == Fragments(m, m.index[Select(m.index, n)..])
  {
    SeekLocates(m, c, n);
    PlayNumbersFrames(m, SeekTo(m, c, n).0, n);
    PlaySendsFragments(m, SeekTo(m, c, n).0, n);
  }

  // ---------- one frame of it

  lemma LookupStays(m: Movie, c: Cursor)
    requires CursorOk(m, c)
    ensures Lookup(m, c).frameNo == c.frameNo
  {
  }

  lemma {:induction false} TakeNumbers(m: Movie, c: Cursor, k: nat)
    requires CursorOk(m, c)
    ensures Take(m, c, k).frameNo == Min(c.frameNo + k, Total(m))
    decreases k
  {
    hide CursorOk, Lookup, FramesFrom;
    if k > 0 {
      TakeNumbers(m, c, k - 1);
      LookupStays(m, Take(m, c, k - 1));
    } else {
      CursorInMovie(m, c);
    }
  }

  lemma CursorInMovie(m: Movie, c: Cursor)
    requires CursorOk(m, c)
    ensures c.frameNo <= Total(m)
  {
  }

  lemma {:induction false} TakeShift(m: Movie, c: Cursor, k: nat)
    requires CursorOk(m, c)
    ensures Take(m, TakeFrame(m, c), k) == Take(m, c, k + 1)
    decreases k
  {
    hide TakeFrame, CursorOk;
    if k > 0 {
      TakeShift(m, c, k - 1);
    }
  }

  predicate AllThere(m: Movie) {
    AllInFile(m, m.index) && m.frameOffset <= |m.file|
  }

  /** A look-up as the frame that its packet carries. */
  function AsFrame(m: Movie, r: Cursor): Frame
    requires r.trackCount <= |r.tracks| && AllInFile(m, r.tracks[..r.trackCount])
  {
    Frame(r.frameNo, Fragments(m, r.tracks[..r.trackCount]))
  }

  lemma LookupIsThere(m: Movie, c: Cursor)
    requires CursorOk(m, c) && AllThere(m)
    ensures var r := Lookup(m, c); r.trackCount <= |r.tracks| && AllInFile(m, r.tracks[..r.trackCount])
  {
    TracksInFile(m, c);
  }

  lemma PlayUnfoldsAt(m: Movie, c: Cursor)
    requires CursorOk(m, c) && AllThere(m) && c.frameNo < Total(m)
    ensures var r := Lookup(m, c);
      && r.trackCount <= |r.tracks| && AllInFile(m, r.tracks[..r.trackCount])
      && Play(m, c) == [AsFrame(m, r)] + Play(m, TakeFrame(m, c))
  {
    LookupIsThere(m, c);
  }

  lemma {:induction false} PlayAt(m: Movie, c: Cursor, k: nat)
    requires CursorOk(m, c) && AllThere(m) && c.frameNo + k < Total(m)
    ensures var r := Lookup(m, Take(m, c, k));
      && r.trackCount <= |r.tracks| && AllInFile(m, r.tracks[..r.trackCount])
      && k < |Play(m, c)| && Play(m, c)[k] == AsFrame(m, r)
    decreases k
  {
    hide Lookup, AllInFile, Play, FramesFrom;
    PlayUnfoldsAt(m, c);
    if k > 0 {
      LookupStays(m, c);
      PlayAt(m, TakeFrame(m, c), k - 1);
      TakeShift(m, c, k - 1);
    }
  }

  lemma {:induction false} PlayCounts(m: Movie, c: Cursor)
    requires CursorOk(m, c) && AllThere(m)
    ensures |Play(m, c)| == Total(m) - c.frameNo
    decreases Total(m) - c.frameNo
  {
    if c.frameNo < Total(m) {
      PlayUnfoldsAt(m, c);
      LookupStays(m, c);
      hide Lookup, AllInFile, Play, FramesFrom;
      PlayCounts(m, TakeFrame(m, c));
    }
  }

  // ---------- contiguity, from any cursor

  lemma {:induction false} EmptyTracksNoBytes(m: Movie, es: seq<IndexEntry>)
    requires AllInFile(m, es) && forall i :: 0 <= i < |es| ==> es[i] == NO_TRACK
    ensures Fragments(m, es) == []
  {
    if es != [] {
      EmptyTracksNoBytes(m, es[..|es| - 1]);
    }
  }

  /** The payload of one frame is the entries the cursor passes. */
  lemma PayloadIsPassed(m: Movie, c: Cursor)
    requires CursorOk(m, c) && AllThere(m)
    ensures var r, next := Lookup(m, c), TakeFrame(m, c);
      && c.fragmentNo <= next.fragmentNo <= |m.index|
      && r.trackCount <= |r.tracks| && AllInFile(m, r.tracks[..r.trackCount])
      && AllInFile(m, m.index[c.fragmentNo..next.fragmentNo])
      && AsFrame(m, r).payload == Fragments(m, m.index[c.fragmentNo..next.fragmentNo])
  {
    StepMoves(m, c);
    LookupIsThere(m, c);
    hide Lookup, TakeFrame, Fragments, FramesFrom;
    var r := Lookup(m, c);
    if c.fragmentNo == |m.index| {
      EmptyTracksNoBytes(m, r.tracks[..r.trackCount]);
      EmptyTracksNoBytes(m, m.index[c.fragmentNo..|m.index|]);
    }
  }

  lemma {:induction false} PayloadsAppend(frames: seq<Frame>, f: Frame)
    ensures Payloads(frames + [f]) == Payloads(frames) + f.payload
  {
    if frames == [] {
      assert frames + [f] == [f] && [f][1..] == [];
    } else {
      PayloadsAppend(frames[1..], f);
      assert (frames + [f])[1..] == frames[1..] + [f];
      Regroup(frames[0].payload, Payloads(frames[1..]), f.payload);
    }
  }

  lemma SplitRange(m: Movie, p: nat, q: nat, r: nat)
    requires p <= q <= r <= |m.index| && AllInFile(m, m.index)
    ensures AllInFile(m, m.index[p..q]) && AllInFile(m, m.index[q..r]) && AllInFile(m, m.index[p..r])
    ensures Fragments(m, m.index[p..r]) == Fragments(m, m.index[p..q]) + Fragments(m, m.index[q..r])
  {
    FragmentsAppend(m, m.index[p..q], m.index[q..r]);
    assert m.index[p..r] == m.index[p..q] + m.index[q..r];
  }

  /** For every movie, interleaved or not, and every cursor: what the next `k` frames inside the movie send is
      the data of the entries that the cursor passes, each once and in order. */
  lemma {:induction false} PlayedIsContiguous(m: Movie, c: Cursor, k: nat)
    requires CursorOk(m, c) && AllThere(m) && c.frameNo + k <= Total(m)
    ensures k <= |Play(m, c)| && c.fragmentNo <= Take(m, c, k).fragmentNo <= |m.index|
    ensures AllInFile(m, m.index[c.fragmentNo..Take(m, c, k).fragmentNo])
    ensures Payloads(Play(m, c)[..k]) == Fragments(m, m.index[c.fragmentNo..Take(m, c, k).fragmentNo])
    decreases k
  {
    hide Lookup, TakeFrame, Fragments, FramesFrom, Play, Payloads, CursorOk, AllInFile;
    PlayCounts(m, c);
    if k == 0 {
      NothingPassed(m, c);
    } else {
      var at := Take(m, c, k - 1);
      PlayedIsContiguous(m, c, k - 1);
      PayloadIsPassed(m, at);
      PlayAt(m, c, k - 1);
      SplitRange(m, c.fragmentNo, at.fragmentNo, Take(m, c, k).fragmentNo);
      PayloadsAppend(Play(m, c)[..k - 1], Play(m, c)[k - 1]);
      assert Play(m, c)[..k] == Play(m, c)[..k - 1] + [Play(m, c)[k - 1]];
    }
  }

  lemma NothingPassed(m: Movie, c: Cursor)
    requires CursorOk(m, c) && AllThere(m)
    ensures c.fragmentNo <= |m.index| && AllInFile(m, m.index[c.fragmentNo..c.fragmentNo])
    ensures Payloads(Play(m, c)[..0]) == Fragments(m, m.index[c.fragmentNo..c.fragmentNo])
  {
    hide Play;
    assert Play(m, c)[..0] == [] && m.index[c.fragmentNo..c.fragmentNo] == [];
  }
}
