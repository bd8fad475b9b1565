/** The index of an AVI file as a sequence of entries, and its division into frames:
    a frame starts at each entry of the base track "00". */
module AviIndex {
  import opened Bytes

  const ID_SIZE := 4
  const ZERO_CHAR: uint8 := 48

  /** One 16-octet index entry: chunk id, flags, offset and length. */
  datatype IndexEntry = IndexEntry(ckid: seq<uint8>, flags: nat, offset: nat, length: nat)

  /** `memcmp(ckid, "00", 2) == 0` */
  predicate IsBase(e: IndexEntry) {
    2 <= |e.ckid| && e.ckid[0] == ZERO_CHAR && e.ckid[1] == ZERO_CHAR
  }

  /** How many frames start at or after entry `i`. */
  function FramesFrom(index: seq<IndexEntry>, i: nat): (n: nat)
    requires i <= |index|
    ensures n <= |index| - i
    decreases |index| - i
  {
    if i == |index| then 0 else (if IsBase(index[i]) then 1 else 0) + FramesFrom(index, i + 1)
  }

  function TotalFrames(index: seq<IndexEntry>): nat {
    FramesFrom(index, 0)
  }

  /** That is the number of base entries there. */
  lemma {:induction false} FramesAreBaseEntries(index: seq<IndexEntry>, i: nat)
    requires i <= |index|
    ensures FramesFrom(index, i) == |set j | i <= j < |index| && IsBase(index[j])|
    decreases |index| - i
  {
    var here := set j | i <= j < |index| && IsBase(index[j]);
    if i < |index| {
      var later := set j | i + 1 <= j < |index| && IsBase(index[j]);
      FramesAreBaseEntries(index, i + 1);
      if IsBase(index[i]) {
        assert here == later + {i};
      } else {
        assert here == later;
      }
    } else {
      assert here == {};
    }
  }

  /** The place of the n-th base entry at or after `i`; the end when there are fewer. */
  function SelectFrom(index: seq<IndexEntry>, i: nat, n: nat): (p: nat)
    requires i <= |index|
    ensures i <= p <= |index|
    ensures p < |index| <==> n < FramesFrom(index, i)
    ensures p < |index| ==> IsBase(index[p])
    decreases |index| - i
  {
    if i == |index| then i
    else if !IsBase(index[i]) then SelectFrom(index, i + 1, n)
    else if n == 0 then i
    else SelectFrom(index, i + 1, n - 1)
  }

  /** Where frame `n` starts. */
  function Select(index: seq<IndexEntry>, n: nat): (p: nat)
    ensures p <= |index|
    ensures p < |index| <==> n < TotalFrames(index)
  {
    SelectFrom(index, 0, n)
  }

  /** The first base entry at or after `i`. */
  function NextBase(index: seq<IndexEntry>, i: nat): (p: nat)
    requires i <= |index|
    ensures i <= p <= |index|
    ensures forall j :: i <= j < p ==> !IsBase(index[j])
    ensures p < |index| ==> IsBase(index[p])
    decreases |index| - i
  {
    if i == |index| || IsBase(index[i]) then i else NextBase(index, i + 1)
  }

  /** Selection counts: exactly `n` frames start before the n-th base entry. */
  lemma {:induction false} SelectCounts(index: seq<IndexEntry>, i: nat, n: nat)
    requires i <= |index| && n <= FramesFrom(index, i)
    ensures FramesFrom(index, i) == n + FramesFrom(index, SelectFrom(index, i, n))
    decreases |index| - i
  {
    if i < |index| {
      if !IsBase(index[i]) {
        SelectCounts(index, i + 1, n);
      } else if n > 0 {
        SelectCounts(index, i + 1, n - 1);
      }
    }
  }

  /** ... and it is the only base entry of which that is true. */
  lemma {:induction false} SelectUnique(index: seq<IndexEntry>, i: nat, n: nat, p: nat)
    requires i <= p < |index| && IsBase(index[p])
    requires FramesFrom(index, i) == n + FramesFrom(index, p)
    ensures SelectFrom(index, i, n) == p
    decreases |index| - i
  {
    if i == p {
    } else if !IsBase(index[i]) {
      SelectUnique(index, i + 1, n, p);
    } else {
      FramesShrink(index, i + 1, p);
      SelectUnique(index, i + 1, n - 1, p);
    }
  }

  lemma {:induction false} FramesShrink(index: seq<IndexEntry>, i: nat, p: nat)
    requires i <= p <= |index|
    ensures FramesFrom(index, p) <= FramesFrom(index, i)
    decreases p - i
  {
    if i < p {
      FramesShrink(index, i + 1, p);
    }
  }

  /** The next frame starts at the next base entry. */
  lemma {:induction false} SelectNext(index: seq<IndexEntry>, i: nat, n: nat)
    requires i <= |index| && n < FramesFrom(index, i)
    ensures SelectFrom(index, i, n + 1) == NextBase(index, SelectFrom(index, i, n) + 1)
    decreases |index| - i
  {
    if !IsBase(index[i]) {
      SelectNext(index, i + 1, n);
    } else if n > 0 {
      SelectNext(index, i + 1, n - 1);
    } else {
      SelectFirst(index, i + 1);
    }
  }

  lemma {:induction false} SelectFirst(index: seq<IndexEntry>, i: nat)
    requires i <= |index|
    ensures SelectFrom(index, i, 0) == NextBase(index, i)
    decreases |index| - i
  {
    if i < |index| && !IsBase(index[i]) {
      SelectFirst(index, i + 1);
    }
  }

  /** The entries of frame `n`: its base entry and what follows up to the next one. */
  function GroupSize(index: seq<IndexEntry>, n: nat): (g: nat)
    requires n < TotalFrames(index)
    ensures g >= 1 && Select(index, n) + g == Select(index, n + 1)
  {
    SelectNext(index, 0, n);
    Select(index, n + 1) - Select(index, n)
  }

  // ---------- track names

  function Digits(i: nat): (d: seq<uint8>)
    ensures |d| >= 1
  {
    if i < 10 then [(48 + i) as uint8] else Digits(i / 10) + [(48 + i % 10) as uint8]
  }

  /** `sprintf(id, "%02d", i)` */
  function TrackName(i: nat): (d: seq<uint8>)
    ensures |d| >= 2
    ensures i == 0 ==> d == [ZERO_CHAR, ZERO_CHAR]
  {
    if i < 10 then [ZERO_CHAR] + Digits(i) else Digits(i)
  }

  /** The number that decimal digits stand for. */
  function Decimal(d: seq<uint8>): int {
    if d == [] then 0 else Decimal(d[..|d| - 1]) * 10 + (d[|d| - 1] as int - 48)
  }

  lemma {:induction false} DigitsReadBack(i: nat)
    ensures Decimal(Digits(i)) == i && (forall k :: 0 <= k < |Digits(i)| ==> 48 <= Digits(i)[k] <= 57)
    ensures 10 <= i < 100 ==> |Digits(i)| == 2
    ensures i < 10 ==> |Digits(i)| == 1
  {
    if i >= 10 {
      DigitsReadBack(i / 10);
      assert Digits(i)[..|Digits(i)| - 1] == Digits(i / 10);
    } else {
      assert Digits(i)[..0] == [];
    }
  }

  /** A track's name is its number in decimal digits, two of them below 100. */
  lemma NameReadsBack(i: nat)
    ensures Decimal(TrackName(i)) == i && (forall k :: 0 <= k < |TrackName(i)| ==> 48 <= TrackName(i)[k] <= 57)
    ensures i < 100 ==> |TrackName(i)| == 2
  {
    DigitsReadBack(i);
    if i < 10 {
      assert TrackName(i)[..1] == [ZERO_CHAR] && [ZERO_CHAR][..0] == [];
    }
  }

  /** A frame starts where the chunk id begins with the name of track 0. */
  lemma BaseIsTrackZero(e: IndexEntry)
    ensures IsBase(e) <==> TrackName(0) <= e.ckid
  {
    if TrackName(0) <= e.ckid {
      assert e.ckid[0] == TrackName(0)[0] && e.ckid[1] == TrackName(0)[1];
    }
  }

  /** Each of the first `k` tracks has its own name, the others none. */
  predicate NamedUpTo(ids: seq<seq<uint8>>, k: nat) {
    forall i :: 0 <= i < |ids| ==> ids[i] == if i < k then TrackName(i) else []
  }

  /** `dx_avi_chunk_strh_handler` on the table of track ids, called once per stream header:
      the first unnamed track gets its name, and from then on track 0 is "00". */
  method NameNextTrack(ids: array<seq<uint8>>, ghost k: nat)
    requires NamedUpTo(ids[..], k)
    modifies ids
    ensures NamedUpTo(ids[..], k + 1)
    ensures ids.Length > 0 ==> ids[0] == [ZERO_CHAR, ZERO_CHAR]
  {
    var i := 0;
    while i < ids.Length
      invariant 0 <= i <= ids.Length && i <= k
      invariant ids[..] == old(ids[..])
    {
      if ids[i] == [] {
        ids[i] := TrackName(i);
        break;
      }
      i := i + 1;
    }
  }
}
