/** Partial file transfer: the drive answers a byte range of a file, clamped to the file;
    the host asks for the next range until the file's last byte has come. */
module FileTransfer {
  import opened Bytes
  import opened Framing
  import opened Kernel
  import opened Packets

  const TYPE_FILE: uint8 := 7
  const CODE_FILE_GET: uint8 := 2
  const CODE_FILE: uint8 := 3
  const DATA_QUERY: uint8 := 23
  const DATA_PARTIAL: uint8 := 24

  const QUERY_SIZE := 148
  const FILE_BASE := 156
  const CONTENT_AT := 152
  const PARTIAL_MAX := 500000

  /** The drive's file system: what `open` finds. */
  type Files = map<seq<uint8>, seq<uint8>>

  /** A range request, inclusive at both ends. */
  datatype Query = Query(path: seq<uint8>, begin: nat, end: nat)

  datatype Reply = Reply(path: seq<uint8>, total: nat, begin: nat, end: nat, content: seq<uint8>)

  // ---------- what each side does, on values

  function Clamped(f: seq<uint8>, offset: nat): (r: nat)
    requires f != []
    ensures r < |f|
  {
    if offset > |f| - 1 then |f| - 1 else offset
  }

  /** The requests the drive can answer: the file, if there is one, has 1 to 2^31-1 bytes, and
      the clamped range is not of negative length. */
  predicate Servable(files: Files, q: Query) {
    q.path in files ==>
      var f := files[q.path];
      1 <= |f| < TWO_31 && Clamped(f, q.begin) <= Clamped(f, q.end) + 1
  }

  /** `dx_packet_send_file`: a missing file is answered with zeros. */
  function Serve(files: Files, q: Query): (r: Reply)
    requires Servable(files, q)
  {
    if q.path !in files then Reply(q.path, 0, 0, 0, [])
    else
      var f := files[q.path];
      var b, e := Clamped(f, q.begin), Clamped(f, q.end);
      Reply(q.path, |f|, b, e, f[b..e + 1])
  }

  /** `od_host_handler_file`: the next request, if the reply did not reach the end. */
  function NextQuery(r: Reply): Option<Query> {
    if r.end < r.total - 1 then
      Some(Query(r.path, r.end + 1, if r.end + PARTIAL_MAX > r.total - 1 then r.total - 1 else r.end + PARTIAL_MAX))
    else
      None
  }

  /** The replies of a whole exchange, the follow-up requests included. */
  function Exchange(files: Files, q: Query): seq<Reply>
    requires Servable(files, q)
    decreases if q.path in files then |files[q.path]| - Clamped(files[q.path], q.end) else 0
  {
    var r := Serve(files, q);
    if NextQuery(r).None? then [r] else [r] + Exchange(files, NextQuery(r).value)
  }

  function Contents(rs: seq<Reply>): seq<uint8> {
    if rs == [] then [] else rs[0].content + Contents(rs[1..])
  }

  // ---------- the exchange tiles the file

  /** Follow-up requests needed for `left` more bytes. */
  function FollowUps(left: nat): nat {
    (left + 499999) / 500000
  }

  predicate IsPart(f: seq<uint8>, r: Reply) {
    r.begin <= r.end + 1 <= |f| && r.total == |f| && r.content == f[r.begin..r.end + 1]
  }

  /** Consecutive ranges up to the file's end; follow-ups are nonempty and bounded. */
  predicate Tiles(f: seq<uint8>, rs: seq<Reply>, from: nat) {
    && rs != [] && rs[0].begin == from && rs[|rs| - 1].end == |f| - 1
    && (forall i :: 0 <= i < |rs| ==> IsPart(f, rs[i]))
    && (forall i :: 1 <= i < |rs| ==> rs[i].begin == rs[i - 1].end + 1)
    && (forall i :: 1 <= i < |rs| ==> |rs[i].content| <= 500000)
  }

  lemma TilesPush(f: seq<uint8>, r: Reply, rest: seq<Reply>)
    requires Tiles(f, rest, r.end + 1) && |rest[0].content| <= 500000
    requires IsPart(f, r)
    ensures Tiles(f, [r] + rest, r.begin)
  {
    var rs := [r] + rest;
    forall i | 1 <= i < |rs|
      ensures rs[i].begin == rs[i - 1].end + 1 && |rs[i].content| <= PARTIAL_MAX
    {
      assert rs[i] == rest[i - 1];
      assert i > 1 ==> rs[i - 1] == rest[i - 2];
    }
  }

  /** Successive replies cover the file from the byte first asked for, or its last byte, to its end with no
      gap and no overlap; the first ends with the last byte asked for, or the last there is. They concatenate
      to exactly those bytes, and stop after exactly the number of follow-ups of 500000 bytes that what lies
      beyond the first reply needs. */
  lemma {:induction false} ExchangeTiles(files: Files, q: Query)
    requires Servable(files, q) && q.path in files
    ensures var f := files[q.path];
      var rs, begin, end := Exchange(files, q), Min(q.begin, |f| - 1), Min(q.end, |f| - 1);
      && Tiles(f, rs, begin) && rs[0].end == end
      && Contents(rs) == f[begin..]
      && |rs| == 1 + FollowUps(|f| - 1 - end)
    decreases |files[q.path]| - Clamped(files[q.path], q.end)
  {
    hide Tiles, FollowUps, Contents;
    var f := files[q.path];
    var r := Serve(files, q);
    if NextQuery(r).None? {
      LastPart(f, r);
    } else {
      var q' := NextQuery(r).value;
      ExchangeTiles(files, q');
      var rest := Exchange(files, q');
      assert rest[0] == Serve(files, q');
      TilesPush(f, r, rest);
      ContentsPush(f, r, rest);
      FollowUpsStep(|f| - 1 - r.end);
    }
  }

  lemma LastPart(f: seq<uint8>, r: Reply)
    requires IsPart(f, r) && r.end == |f| - 1
    ensures Tiles(f, [r], r.begin) && Contents([r]) == f[r.begin..] && FollowUps(0) == 0
  {
    assert [r][1..] == [];
  }

  lemma ContentsPush(f: seq<uint8>, r: Reply, rest: seq<Reply>)
    requires IsPart(f, r) && Contents(rest) == f[r.end + 1..]
    ensures Contents([r] + rest) == f[r.begin..]
  {
    assert ([r] + rest)[1..] == rest;
    assert f[r.begin..] == r.content + f[r.end + 1..];
  }

  lemma FollowUpsStep(left: nat)
    requires left > 0
    ensures FollowUps(left) == 1 + FollowUps(if left > 500000 then left - 500000 else 0)
  {
  }

  /** A missing file ends the exchange at once, with an empty reply. */
  lemma MissingFileStops(files: Files, q: Query)
    requires q.path !in files
    ensures Exchange(files, q) == [Reply(q.path, 0, 0, 0, [])]
  {
  }

  // ---------- the packets

  predicate IsQueryPacket(p: seq<uint8>, q: Query) {
    && |p| == QUERY_SIZE && HasHeader(p, QUERY_SIZE, TYPE_FILE, CODE_FILE_GET, DATA_QUERY)
    && Ntohl(p[8..12]) == q.begin && Ntohl(p[12..16]) == q.end
    && p[16..16 + PATH_SIZE] == PathField(q.path)
  }

  function ReadQuery(p: seq<uint8>): Query
    requires |p| == QUERY_SIZE
  {
    Query(CString(p[16..16 + PATH_SIZE]), Ntohl(p[8..12]), Ntohl(p[12..16]))
  }

  /** The drive reads back the request the host wrote. */
  lemma QueryRoundTrip(p: seq<uint8>, q: Query)
    requires IsQueryPacket(p, q) && PathOk(q.path)
    ensures ReadQuery(p) == q
  {
    PathRoundTrip(q.path);
  }

  predicate HasReplyFields(p: seq<uint8>, path: seq<uint8>, total: nat, partial: nat, begin: nat, end: nat) {
    && |p| == FILE_BASE + partial && HasHeader(p, |p|, TYPE_FILE, CODE_FILE, DATA_PARTIAL)
    && Ntohl(p[8..12]) == total && Ntohl(p[12..16]) == partial
    && Ntohl(p[16..20]) == begin && Ntohl(p[20..24]) == end
    && p[24..24 + PATH_SIZE] == PathField(path)
  }

  predicate IsReplyPacket(p: seq<uint8>, r: Reply) {
    && HasReplyFields(p, r.path, r.total, |r.content|, r.begin, r.end)
    && p[CONTENT_AT..CONTENT_AT + |r.content|] == r.content
  }

  /** The packet holds as much content as its field says. */
  predicate Readable(p: seq<uint8>) {
    FILE_BASE <= |p| && CONTENT_AT + Ntohl(p[12..16]) <= |p|
  }

  function ReadReply(p: seq<uint8>): Reply
    requires Readable(p)
  {
    Reply(CString(p[24..24 + PATH_SIZE]), Ntohl(p[8..12]), Ntohl(p[16..20]), Ntohl(p[20..24]),
          p[CONTENT_AT..CONTENT_AT + Ntohl(p[12..16])])
  }

  /** The host reads back the reply the drive wrote. */
  lemma ReplyRoundTrip(p: seq<uint8>, r: Reply)
    requires IsReplyPacket(p, r) && PathOk(r.path)
    ensures Readable(p) && ReadReply(p) == r
  {
    PathRoundTrip(r.path);
  }

  /** `dx_packet_get_file`, up to the call of `dx_write`. */
  method NewQuery(q: Query) returns (p: array<uint8>)
    requires q.begin < TWO_32 && q.end < TWO_32
    ensures fresh(p) && Framed(p[..]) && IsQueryPacket(p[..], q)
  {
    p := new uint8[QUERY_SIZE](_ => 0);
    SetHeader(p, QUERY_SIZE, TYPE_FILE, CODE_FILE_GET, DATA_QUERY);
    ghost var s := p[..];
    Put32(p, 8, q.begin);
    ghost var t := p[..];
    HeaderKept(s, t, 8, 12, QUERY_SIZE, TYPE_FILE, CODE_FILE_GET, DATA_QUERY);
    Put32(p, 12, q.end);
    ghost var u := p[..];
    HeaderKept(t, u, 12, 16, QUERY_SIZE, TYPE_FILE, CODE_FILE_GET, DATA_QUERY);
    SliceKept(t, u, 12, 16, 8, 12);
    PutBytes(p, 16, PathField(q.path));
    HeaderKept(u, p[..], 16, 144, QUERY_SIZE, TYPE_FILE, CODE_FILE_GET, DATA_QUERY);
    SliceKept(u, p[..], 16, 144, 8, 12);
    SliceKept(u, p[..], 16, 144, 12, 16);
  }

  lemma ReplyFieldsKept(s: seq<uint8>, t: seq<uint8>, lo: nat, hi: nat,
                        path: seq<uint8>, total: nat, partial: nat, begin: nat, end: nat)
    requires HasReplyFields(s, path, total, partial, begin, end) && Elsewhere(s, t, lo, hi) && CONTENT_AT <= lo
    ensures HasReplyFields(t, path, total, partial, begin, end)
  {
    HeaderKept(s, t, lo, hi, |s|, TYPE_FILE, CODE_FILE, DATA_PARTIAL);
    SliceKept(s, t, lo, hi, 8, 12);
    SliceKept(s, t, lo, hi, 12, 16);
    SliceKept(s, t, lo, hi, 16, 20);
    SliceKept(s, t, lo, hi, 20, 24);
    SliceKept(s, t, lo, hi, 24, 24 + PATH_SIZE);
  }

  /** The reply packet without its content. */
  method NewReply(path: seq<uint8>, total: nat, partial: nat, begin: nat, end: nat) returns (p: array<uint8>)
    requires total < TWO_32 && begin < TWO_32 && end < TWO_32 && FILE_BASE + partial < TWO_31
    ensures fresh(p) && Framed(p[..]) && HasReplyFields(p[..], path, total, partial, begin, end)
  {
    var len := FILE_BASE + partial;
    p := new uint8[len](_ => 0);
    SetHeader(p, len, TYPE_FILE, CODE_FILE, DATA_PARTIAL);
    ghost var s0 := p[..];
    Put32(p, 8, total);
    ghost var s1 := p[..];
    Put32(p, 12, partial);
    ghost var s2 := p[..];
    Put32(p, 16, begin);
    ghost var s3 := p[..];
    Put32(p, 20, end);
    ghost var s4 := p[..];
    PutBytes(p, 24, PathField(path));
    ghost var s5 := p[..];
    HeaderKept(s0, s1, 8, 12, len, TYPE_FILE, CODE_FILE, DATA_PARTIAL);
    HeaderKept(s1, s2, 12, 16, len, TYPE_FILE, CODE_FILE, DATA_PARTIAL);
    HeaderKept(s2, s3, 16, 20, len, TYPE_FILE, CODE_FILE, DATA_PARTIAL);
    HeaderKept(s3, s4, 20, 24, len, TYPE_FILE, CODE_FILE, DATA_PARTIAL);
    HeaderKept(s4, s5, 24, 152, len, TYPE_FILE, CODE_FILE, DATA_PARTIAL);
    SliceKept(s1, s2, 12, 16, 8, 12);
    SliceKept(s2, s3, 16, 20, 8, 12);
    SliceKept(s3, s4, 20, 24, 8, 12);
    SliceKept(s4, s5, 24, 152, 8, 12);
    SliceKept(s2, s3, 16, 20, 12, 16);
    SliceKept(s3, s4, 20, 24, 12, 16);
    SliceKept(s4, s5, 24, 152, 12, 16);
    SliceKept(s3, s4, 20, 24, 16, 20);
    SliceKept(s4, s5, 24, 152, 16, 20);
    SliceKept(s4, s5, 24, 152, 20, 24);
  }

  // ---------- the reads

  /** How many answers find a byte before one makes the reader give up; EINPROGRESS does not. */
  function Useful(script: seq<Outcome>): nat {
    if script == [] then 0
    else if FindsByte(script[0]) then 1 + Useful(script[1..])
    else if script[0] == Error(true) then Useful(script[1..])
    else 0
  }

  /** A kernel that finds `k` bytes before the reader gives up. */
  predicate Reliable(script: seq<Outcome>, k: nat) {
    k <= Useful(script)
  }

  /** How many of `sz` bytes the reading loop gets from these answers. `inProgress` says that errno is
      EINPROGRESS, which a read at the end of the file leaves as it was; `some` that the current block of
      reads has got a byte. A read that finds none ends a block; the loop goes on if the block got a byte or
      errno is EINPROGRESS. */
  function RangeBytes(script: seq<Outcome>, sz: nat, inProgress: bool, some: bool): (n: nat)
    ensures n <= sz
  {
    if sz == 0 || script == [] then 0
    else if FindsByte(script[0]) then
      var n := Min(script[0].n, sz);
      n + RangeBytes(script[1..], sz - n, inProgress, true)
    else
      var errno := if script[0].Count? then inProgress else script[0] == Error(true);
      if some || errno then RangeBytes(script[1..], sz, errno, false) else 0
  }

  lemma RangeUnfolds(script: seq<Outcome>, sz: nat, inProgress: bool, some: bool)
    requires sz > 0
    ensures var n := Moved(Next(script), sz);
      RangeBytes(script, sz, inProgress, some) ==
        if n > 0 then n + RangeBytes(Rest(script), sz - n, inProgress, true)
        else
          var errno := if Next(script).Count? then inProgress else Next(script) == Error(true);
          if some || errno then RangeBytes(Rest(script), sz, errno, false) else 0
  {
  }

  /** How many the reads of one block get. */
  function BlockBytes(script: seq<Outcome>, sz: nat): (n: nat)
    ensures n <= sz
  {
    if sz == 0 || script == [] || !FindsByte(script[0]) then 0
    else Min(script[0].n, sz) + BlockBytes(script[1..], sz - Min(script[0].n, sz))
  }

  lemma BlockUnfolds(script: seq<Outcome>, sz: nat)
    requires sz > 0
    ensures var n := Moved(Next(script), sz);
      BlockBytes(script, sz) == if n > 0 then n + BlockBytes(Rest(script), sz - n) else 0
  {
  }

  /** Reads that each find a byte fill a block. */
  lemma {:induction false} FindingFills(script: seq<Outcome>, sz: nat)
    requires sz <= |script| && forall i :: 0 <= i < sz ==> FindsByte(script[i])
    ensures BlockBytes(script, sz) == sz
  {
    if sz > 0 {
      FindingFills(script[1..], sz - Min(script[0].n, sz));
    }
  }

  lemma {:induction false} ReliableFills(script: seq<Outcome>, sz: nat, inProgress: bool, some: bool)
    requires Reliable(script, sz)
    ensures RangeBytes(script, sz, inProgress, some) == sz
  {
    if sz > 0 && script != [] {
      if FindsByte(script[0]) {
        ReliableFills(script[1..], sz - Min(script[0].n, sz), inProgress, true);
      } else {
        ReliableFills(script[1..], sz, true, false);
      }
    }
  }

  /** `n` bytes of the file from `at` on lie at `to`. */
  predicate Holds(s: seq<uint8>, to: nat, f: seq<uint8>, at: nat, n: nat) {
    to + n <= |s| && at + n <= |f| && s[to..to + n] == f[at..at + n]
  }

  lemma SlicesMatch(s: seq<uint8>, to: nat, f: seq<uint8>, at: nat, n: nat)
    requires to + n <= |s| && at + n <= |f|
    requires forall i :: to <= i < to + n ==> s[i] == f[at - to + i]
    ensures Holds(s, to, f, at, n)
  {
    var a, b := s[to..to + n], f[at..at + n];
    forall k | 0 <= k < n
      ensures a[k] == b[k]
    {
      assert s[to + k] == f[at - to + (to + k)];
    }
    assert a == b;
  }

  lemma HoldsMore(s: seq<uint8>, t: seq<uint8>, to: nat, f: seq<uint8>, at: nat, n: nat, k: nat)
    requires Holds(s, to, f, at, n) && Holds(t, to + n, f, at + n, k) && t[..to + n] == s[..to + n]
    ensures Holds(t, to, f, at, n + k) && t[..to] == s[..to]
  {
    assert t[to..to + n] == t[..to + n][to..] == s[..to + n][to..] == s[to..to + n];
    assert t[to..to + n + k] == t[to..to + n] + t[to + n..to + n + k];
    assert f[at..at + n + k] == f[at..at + n] + f[at + n..at + n + k];
    assert t[..to] == t[..to + n][..to];
  }

  /** What was at the front stays, and `n` bytes of the file follow it. */
  predicate Filled(start: seq<uint8>, s: seq<uint8>, to: nat, f: seq<uint8>, at: nat, n: nat) {
    to <= |s| == |start| && s[..to] == start[..to] && Holds(s, to, f, at, n)
  }

  lemma FilledSo(start: seq<uint8>, s: seq<uint8>, to: nat, f: seq<uint8>, at: nat, n: nat)
    requires to <= |s| == |start| && s[..to] == start[..to] && Holds(s, to, f, at, n)
    ensures Filled(start, s, to, f, at, n)
  {
  }

  lemma FilledIs(start: seq<uint8>, s: seq<uint8>, to: nat, f: seq<uint8>, at: nat, n: nat)
    requires Filled(start, s, to, f, at, n)
    ensures to <= |s| == |start| && s[..to] == start[..to] && Holds(s, to, f, at, n)
  {
  }

  /** One `read` of a file behind `had` bytes of it, and what it leaves in errno. */
  method ReadOnce(f: seq<uint8>, at: nat, data: array<uint8>, to: nat, had: nat, room: nat, script: seq<Outcome>,
                  stale: bool, ghost start: seq<uint8>)
    returns (nread: int, inProgress: bool)
    requires at + had + room <= |f| && to + had + room <= data.Length && Filled(start, data[..], to, f, at, had)
    modifies data
    ensures nread == Moved(Next(script), room) && (script == [] ==> nread < 0 && !inProgress)
    ensures nread <= room && inProgress == if Next(script).Count? then stale else Next(script) == Error(true)
    ensures Filled(start, data[..], to, f, at, had + if nread > 0 then nread else 0)
  {
    nread := Moved(Next(script), room);
    inProgress := if Next(script).Count? then stale else Next(script) == Error(true);
    if nread > 0 {
      ghost var before := data[..];
      forall i | 0 <= i < nread {
        data[to + had + i] := f[at + had + i];
      }
      SlicesMatch(data[..], to + had, f, at + had, nread);
      HoldsMore(before, data[..], to, f, at, had, nread);
    }
  }

  /** The account of a block in the middle of its reads. */
  predicate Spent(script: seq<Outcome>, sz: nat, stale: bool, tread: nat, rest: seq<Outcome>, errno: bool) {
    && tread <= sz && |rest| <= |script| && (tread > 0 ==> |rest| < |script|)
    && BlockBytes(script, sz) == tread + BlockBytes(rest, sz - tread)
    && RangeBytes(script, sz, stale, false) == tread + RangeBytes(rest, sz - tread, errno, tread > 0)
  }

  /** ... and at its end. */
  predicate BlockDone(script: seq<Outcome>, sz: nat, stale: bool, tread: nat, rest: seq<Outcome>, errno: bool) {
    && tread == BlockBytes(script, sz)
    && |rest| <= |script| && (0 < sz ==> |rest| < |script| || (tread == 0 && !errno))
    && RangeBytes(script, sz, stale, false) == tread +
      if tread > 0 || errno then RangeBytes(rest, sz - tread, errno, false) else 0
  }

  lemma NoneSpent(script: seq<Outcome>, sz: nat, stale: bool)
    ensures Spent(script, sz, stale, 0, script, stale)
  {
  }

  lemma SpentMore(script: seq<Outcome>, sz: nat, stale: bool, tread: nat, rest: seq<Outcome>, errno: bool)
    requires Spent(script, sz, stale, tread, rest, errno) && tread < sz
    ensures var n := Moved(Next(rest), sz - tread);
      var errno' := if Next(rest).Count? then errno else Next(rest) == Error(true);
      if n > 0 then Spent(script, sz, stale, tread + n, Rest(rest), errno')
      else BlockDone(script, sz, stale, tread, Rest(rest), errno')
  {
    hide RangeBytes, BlockBytes;
    RangeUnfolds(rest, sz - tread, errno, tread > 0);
    BlockUnfolds(rest, sz - tread);
  }

  lemma SpentAll(script: seq<Outcome>, sz: nat, stale: bool, rest: seq<Outcome>, errno: bool)
    requires Spent(script, sz, stale, sz, rest, errno)
    ensures BlockDone(script, sz, stale, sz, rest, errno)
  {
  }

  lemma BlockIs(script: seq<Outcome>, sz: nat, stale: bool, tread: nat, rest: seq<Outcome>, errno: bool)
    requires BlockDone(script, sz, stale, tread, rest, errno)
    ensures |rest| <= |script| && (0 < sz ==> |rest| < |script| || (tread == 0 && !errno))
  {
  }

  /** `dx_read_with_block_mode`: read until `sz` bytes came or a read found none. */
  method ReadBlock(f: seq<uint8>, at: nat, data: array<uint8>, to: nat, sz: nat, script: seq<Outcome>, stale: bool)
    returns (tread: nat, rest: seq<Outcome>, inProgress: bool)
    requires at + sz <= |f| && to + sz <= data.Length
    modifies data
    ensures tread <= sz && data[..][..to] == old(data[..])[..to] && Holds(data[..], to, f, at, tread)
    ensures |rest| <= |script| && (0 < sz ==> |rest| < |script| || (tread == 0 && !inProgress))
    ensures BlockDone(script, sz, stale, tread, rest, inProgress)
  {
    ghost var start := data[..];
    NoneHeld(start, to, f, at);
    FilledSo(start, start, to, f, at, 0);
    NoneSpent(script, sz, stale);
    hide Spent, BlockDone, Filled, Moved, Holds, RangeBytes, BlockBytes, FindsByte, Next, Rest;
    tread, rest, inProgress := 0, script, stale;
    while sz - tread > 0
      invariant tread <= sz && Filled(start, data[..], to, f, at, tread)
      invariant Spent(script, sz, stale, tread, rest, inProgress)
      decreases sz - tread
    {
      SpentMore(script, sz, stale, tread, rest, inProgress);
      var nread;
      nread, inProgress := ReadOnce(f, at, data, to, tread, sz - tread, rest, inProgress, start);
      rest := Rest(rest);
      if nread <= 0 {
        break;
      }
      tread := tread + nread;
    }
    FilledIs(start, data[..], to, f, at, tread);
    if tread == sz {
      SpentAll(script, sz, stale, rest, inProgress);
    }
    BlockIs(script, sz, stale, tread, rest, inProgress);
  }

  lemma NoneHeld(s: seq<uint8>, to: nat, f: seq<uint8>, at: nat)
    requires to <= |s| && at <= |f|
    ensures Holds(s, to, f, at, 0)
  {
  }

  predicate RangeSpent(script: seq<Outcome>, len: nat, stale: bool, nread: nat, rest: seq<Outcome>, errno: bool) {
    && nread <= len
    && RangeBytes(script, len, stale, false) == nread + RangeBytes(rest, len - nread, errno, false)
  }

  /** After one more block, the loop goes on or has read all it gets. */
  lemma RangeGoesOn(script: seq<Outcome>, len: nat, stale: bool, nread: nat, rest: seq<Outcome>, errno: bool,
                    n: nat, rest': seq<Outcome>, errno': bool)
    requires RangeSpent(script, len, stale, nread, rest, errno) && nread + n <= len
    requires BlockDone(rest, len - nread, errno, n, rest', errno')
    ensures if n > 0 || errno' then RangeSpent(script, len, stale, nread + n, rest', errno')
            else nread == RangeBytes(script, len, stale, false)
  {
    hide RangeBytes, BlockBytes;
  }

  lemma AllRead(script: seq<Outcome>, len: nat, stale: bool, rest: seq<Outcome>, errno: bool)
    requires RangeSpent(script, len, stale, len, rest, errno)
    ensures len == RangeBytes(script, len, stale, false)
  {
  }

  /** The reading loop of `dx_packet_send_file`: it goes on after EINPROGRESS, and gives up on any other
      block of reads that finds nothing. */
  method ReadRange(f: seq<uint8>, begin: nat, data: array<uint8>, script: seq<Outcome>, stale: bool)
    returns (nread: nat)
    requires begin + data.Length <= |f|
    modifies data
    ensures nread == RangeBytes(script, data.Length, stale, false)
    ensures nread <= data.Length && Holds(data[..], 0, f, begin, nread)
    ensures Reliable(script, data.Length) ==> nread == data.Length
  {
    nread := 0;
    var rest, inProgress := script, stale;
    NoneHeld(data[..], 0, f, begin);
    hide Holds, RangeBytes, BlockBytes, BlockDone, Useful;
    while data.Length - nread > 0
      invariant nread <= data.Length && Holds(data[..], 0, f, begin, nread)
      invariant RangeSpent(script, data.Length, stale, nread, rest, inProgress)
      decreases |rest|
    {
      hide RangeSpent;
      ghost var before, answers, errno := data[..], rest, inProgress;
      var n;
      n, rest, inProgress := ReadBlock(f, begin + nread, data, nread, data.Length - nread, rest, inProgress);
      HoldsMore(before, data[..], 0, f, begin, nread, n);
      RangeGoesOn(script, data.Length, stale, nread, answers, errno, n, rest, inProgress);
      if n > 0 {
        nread := nread + n;
      } else {
        if inProgress {
          continue;
        }
        break;
      }
    }
    if nread == data.Length {
      AllRead(script, data.Length, stale, rest, inProgress);
    }
    if Reliable(script, data.Length) {
      ReliableFills(script, data.Length, stale, false);
    }
  }

  // ---------- the handlers

  /** The reply to a request, told by the kernel's answers: the range asked for, each end replaced by the
      file's last byte if it lies behind it, and at the front of the content what the reads got of it. */
  predicate AnswersRange(files: Files, q: Query, p: seq<uint8>, script: seq<Outcome>, stale: bool)
    requires Servable(files, q)
  {
    if q.path !in files then
      HasReplyFields(p, q.path, 0, 0, 0, 0)
    else
      var f := files[q.path];
      var begin, end := Min(q.begin, |f| - 1), Min(q.end, |f| - 1);
      && HasReplyFields(p, q.path, |f|, end + 1 - begin, begin, end)
      && Holds(p, CONTENT_AT, f, begin, RangeBytes(script, end + 1 - begin, stale, false))
  }

  /** `dx_packet_send_file`, up to the call of `dx_write`: whatever the reads did, the reply's
      fields are those of `Serve`; if they found all bytes, so is its content. */
  method SendFile(files: Files, q: Query, script: seq<Outcome>, stale: bool) returns (p: array<uint8>, complete: bool)
    requires Servable(files, q) && FILE_BASE + |Serve(files, q).content| < TWO_31
    ensures var r := Serve(files, q);
      && fresh(p) && Framed(p[..])
      && HasReplyFields(p[..], r.path, r.total, |r.content|, r.begin, r.end)
      && (complete <==> RangeBytes(script, |r.content|, stale, false) == |r.content|)
      && (complete ==> IsReplyPacket(p[..], r))
      && (Reliable(script, |r.content|) ==> complete)
    ensures AnswersRange(files, q, p[..], script, stale)
  {
    hide HasReplyFields, Holds, RangeBytes, Useful;
    if q.path !in files {
      p := NewReply(q.path, 0, 0, 0, 0);
      NothingToRead(script, stale);
      return p, true;
    }
    var f := files[q.path];
    var begin := Clamped(f, q.begin);
    var end := Clamped(f, q.end);
    var nread;
    p, nread := SendPart(f, q.path, begin, end, script, stale);
    complete := nread == end + 1 - begin;
    if complete {
      WholePart(p[..], f, q.path, begin, end);
    }
  }

  lemma NothingToRead(script: seq<Outcome>, stale: bool)
    ensures RangeBytes(script, 0, stale, false) == 0
  {
  }

  lemma WholePart(p: seq<uint8>, f: seq<uint8>, path: seq<uint8>, begin: nat, end: nat)
    requires begin <= end + 1 <= |f| && Holds(p, CONTENT_AT, f, begin, end + 1 - begin)
    requires HasReplyFields(p, path, |f|, end + 1 - begin, begin, end)
    ensures IsReplyPacket(p, Reply(path, |f|, begin, end, f[begin..end + 1]))
  {
  }

  /** A range of a file that opens. */
  method SendPart(f: seq<uint8>, path: seq<uint8>, begin: nat, end: nat, script: seq<Outcome>, stale: bool)
    returns (p: array<uint8>, nread: nat)
    requires begin <= end + 1 <= |f| < TWO_31 && FILE_BASE + (end + 1 - begin) < TWO_31
    ensures var partial := end + 1 - begin;
      && fresh(p) && Framed(p[..]) && HasReplyFields(p[..], path, |f|, partial, begin, end)
      && nread == RangeBytes(script, partial, stale, false) && Holds(p[..], CONTENT_AT, f, begin, nread)
      && (Reliable(script, partial) ==> nread == partial)
  {
    var partial := end + 1 - begin;
    var data := new uint8[partial];
    nread := ReadRange(f, begin, data, script, stale);
    p := NewReply(path, |f|, partial, begin, end);
    ghost var s := p[..];
    PutBytes(p, CONTENT_AT, data[..]);
    ReplyFieldsKept(s, p[..], CONTENT_AT, CONTENT_AT + partial, path, |f|, partial, begin, end);
    hide HasReplyFields;
    Carried(data[..], p[..], f, begin, nread);
  }

  lemma Carried(data: seq<uint8>, p: seq<uint8>, f: seq<uint8>, begin: nat, n: nat)
    requires Holds(data, 0, f, begin, n) && CONTENT_AT + |data| <= |p| && p[CONTENT_AT..CONTENT_AT + |data|] == data
    ensures Holds(p, CONTENT_AT, f, begin, n)
  {
    assert p[CONTENT_AT..CONTENT_AT + n] == data[0..n];
  }

  /** `od_drive_handler_file_get`: the request is read from the packet and answered. */
  method DriveFileGet(files: Files, packet: seq<uint8>, script: seq<Outcome>, stale: bool)
    returns (p: array<uint8>, complete: bool)
    requires |packet| == QUERY_SIZE && Servable(files, ReadQuery(packet))
    requires FILE_BASE + |Serve(files, ReadQuery(packet)).content| < TWO_31
    ensures var r := Serve(files, ReadQuery(packet));
      && fresh(p) && Framed(p[..])
      && HasReplyFields(p[..], r.path, r.total, |r.content|, r.begin, r.end)
      && (complete ==> IsReplyPacket(p[..], r))
    ensures AnswersRange(files, ReadQuery(packet), p[..], script, stale)
    ensures Reliable(script, |Serve(files, ReadQuery(packet)).content|) ==> complete
  {
    var begin := Ntohl(packet[8..12]);
    var end := Ntohl(packet[12..16]);
    p, complete := SendFile(files, Query(CString(packet[16..16 + PATH_SIZE]), begin, end), script, stale);
  }

  /** `od_host_handler_file`: the next request is sent unless the reply was the last. */
  method HostFile(packet: seq<uint8>) returns (next: Option<array<uint8>>)
    requires Readable(packet)
    requires Ntohl(packet[8..12]) < TWO_31 && Ntohl(packet[20..24]) < TWO_31
    ensures next.Some? <==> NextQuery(ReadReply(packet)).Some?
    ensures next.Some? ==> fresh(next.value) && Framed(next.value[..])
                           && IsQueryPacket(next.value[..], NextQuery(ReadReply(packet)).value)
  {
    var totalLen := Ntohl(packet[8..12]);
    var offsetEnd := Ntohl(packet[20..24]);
    var path := CString(packet[24..24 + PATH_SIZE]);
    if offsetEnd < totalLen - 1 {
      var begin := offsetEnd + 1;
      var end := if offsetEnd + PARTIAL_MAX > totalLen - 1 then totalLen - 1 else offsetEnd + PARTIAL_MAX;
      var p := NewQuery(Query(path, begin, end));
      return Some(p);
    }
    return None;
  }

  // ---------- the exchange over packets

  /** A run of the exchange as its packets: each request is answered by what the drive serves for what
      it reads in it, and followed by the request the host makes of what it reads in the answer. */
  predicate PacketRun(files: Files, requests: seq<seq<uint8>>, replies: seq<seq<uint8>>)
    decreases |requests|
  {
    && |requests| == |replies| > 0
    && |requests[0]| == QUERY_SIZE && Servable(files, ReadQuery(requests[0]))
    && IsReplyPacket(replies[0], Serve(files, ReadQuery(requests[0]))) && Readable(replies[0])
    && var next := NextQuery(ReadReply(replies[0]));
       if next.None? then |requests| == 1
       else |requests| > 1 && IsQueryPacket(requests[1], next.value) && PacketRun(files, requests[1..], replies[1..])
  }

  predicate AllReadable(replies: seq<seq<uint8>>) {
    forall i :: 0 <= i < |replies| ==> Readable(replies[i])
  }

  function ReadReplies(replies: seq<seq<uint8>>): seq<Reply>
    requires AllReadable(replies)
  {
    if replies == [] then [] else [ReadReply(replies[0])] + ReadReplies(replies[1..])
  }

  /** Over the wire format too, what the host receives is the exchange, and so tiles the file. */
  lemma {:induction false} PacketsCarryExchange(files: Files, q: Query,
                                                requests: seq<seq<uint8>>, replies: seq<seq<uint8>>)
    requires PathOk(q.path) && PacketRun(files, requests, replies) && IsQueryPacket(requests[0], q)
    ensures Servable(files, q)
    ensures AllReadable(replies) && ReadReplies(replies) == Exchange(files, q)
    decreases |requests|
  {
    QueryRoundTrip(requests[0], q);
    var r := Serve(files, q);
    ReplyRoundTrip(replies[0], r);
    if NextQuery(r).None? {
      assert replies[1..] == [];
    } else {
      PacketsCarryExchange(files, NextQuery(r).value, requests[1..], replies[1..]);
      forall i | 1 <= i < |replies|
        ensures Readable(replies[i])
      {
        assert replies[i] == replies[1..][i - 1];
      }
    }
  }

  /** The follow-up to a served request can be served, and is shorter by what was served. */
  lemma NextIsServable(files: Files, q: Query)
    requires Servable(files, q) && NextQuery(Serve(files, q)).Some?
    ensures q.path in files
    ensures var q' := NextQuery(Serve(files, q)).value;
      && q'.path == q.path && Servable(files, q') && |Serve(files, q').content| <= PARTIAL_MAX
      && Clamped(files[q.path], q.end) < Clamped(files[q.path], q'.end)
  {
  }

  /** The kernel's answers to the reads for one request, and whether errno was EINPROGRESS before them. */
  datatype Reads = Reads(script: seq<Outcome>, stale: bool)

  /** Both handlers at work: the drive answers, the host asks on, until the host has the last byte. Each
      request is answered by reads of its own, the `k`-th by `kernel(k)`; with reads that find their bytes
      this is a run of packets. */
  method RunExchange(files: Files, request: seq<uint8>, k: nat, kernel: nat -> Reads)
    returns (requests: seq<seq<uint8>>, replies: seq<seq<uint8>>)
    requires |request| == QUERY_SIZE && Servable(files, ReadQuery(request)) && PathOk(ReadQuery(request).path)
    requires FILE_BASE + |Serve(files, ReadQuery(request)).content| < TWO_31
    requires Reliable(kernel(k).script, |Serve(files, ReadQuery(request)).content|)
    requires forall j :: k < j ==> Reliable(kernel(j).script, PARTIAL_MAX)
    ensures PacketRun(files, requests, replies) && requests[0] == request
    decreases var q := ReadQuery(request);
      if q.path in files then |files[q.path]| - Clamped(files[q.path], q.end) else 0
  {
    ghost var q := ReadQuery(request);
    ghost var r := Serve(files, q);
    var answer, complete := DriveFileGet(files, request, kernel(k).script, kernel(k).stale);
    var reply := answer[..];
    ReplyRoundTrip(reply, r);
    var next := HostFile(reply);
    if next.None? {
      return [request], [reply];
    }
    NextIsServable(files, q);
    var follow := next.value[..];
    QueryRoundTrip(follow, NextQuery(r).value);
    var laterRequests, laterReplies := RunExchange(files, follow, k + 1, kernel);
    requests, replies := [request] + laterRequests, [reply] + laterReplies;
    assert requests[1..] == laterRequests && replies[1..] == laterReplies;
  }
}
