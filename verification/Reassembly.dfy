/** The receiving half of a connection as a state machine on values: each call
    of `dx_receive_packet` reads at most twice into a buffer it keeps, shrinks
    the limit of, or replaces. */
module Reassembly {
  import opened Bytes
  import opened Framing
  import opened Kernel

  /** The reading buffer: `filled` is `data[..position]`. Before the first call there is none. */
  datatype Reader = Reader(present: bool, filled: seq<uint8>, limit: nat, capacity: nat)

  const NEW_READER := Reader(false, [], 0, 0)

  /** The result of one call: `taken` bytes left the stream, `ret` is returned. */
  datatype Received = Received(reader: Reader, taken: nat, ret: int, packet: Option<seq<uint8>>)

  function Clear(r: Reader): Reader {
    r.(filled := [], limit := r.capacity)
  }

  function Allocated(r: Reader): Reader {
    if r.present then r else Reader(true, [], HEADER_SIZE, HEADER_SIZE)
  }

  /** The length is known: reuse the buffer under a new limit, or move to a larger one. */
  function Sized(r: Reader, len: nat): Reader {
    if r.capacity < len then r.(limit := len, capacity := len) else r.(limit := len)
  }

  /** The second read, for the rest of the packet. */
  function ReceiveBody(r: Reader, stream: seq<uint8>, script: seq<Outcome>, taken: nat): Received
    requires |r.filled| <= r.limit && taken <= |stream|
  {
    var n := Moved(Next(script), Min(r.limit - |r.filled|, |stream| - taken));
    if n < 0 then
      Received(Clear(r), taken, n, None)
    else
      var r' := r.(filled := r.filled + stream[taken..taken + n]);
      if |r'.filled| == r'.limit then
        Received(Clear(r'), taken + n, taken + n, Some(r'.filled))
      else
        Received(r', taken + n, taken + n, None)
  }

  /** One call of `dx_receive_packet` with `stream` waiting on the descriptor. */
  function Receive(r: Reader, stream: seq<uint8>, script: seq<Outcome>): Received
    requires ReaderOk(r) && HeaderOk(r.filled + stream)
  {
    var r0 := Allocated(r);
    if |r0.filled| < LENGTH_SIZE then
      var n := Moved(Next(script), Min(LENGTH_SIZE - |r0.filled|, |stream|));
      if n <= 0 then
        Received(r0, 0, n, None)
      else
        var r1 := r0.(filled := r0.filled + stream[..n]);
        if |r1.filled| < LENGTH_SIZE then
          Received(r1, n, n, None)
        else
          assert r1.filled == (r.filled + stream)[..LENGTH_SIZE];
          ReceiveBody(Sized(r1, Ntohl(r1.filled)), stream, Rest(script), n)
    else
      ReceiveBody(r0, stream, script, 0)
  }

  /** Between calls: what is filled is an unfinished packet, under a limit that is its length. */
  predicate ReaderOk(r: Reader) {
    && (!r.present ==> r == NEW_READER)
    && (r.present ==>
          && HEADER_SIZE <= r.capacity
          && r.limit <= r.capacity
          && (|r.filled| < LENGTH_SIZE ==> LENGTH_SIZE <= r.limit)
          && (LENGTH_SIZE <= |r.filled| ==> |r.filled| < r.limit == Ntohl(r.filled[..LENGTH_SIZE])))
  }

  lemma ReaderOkIncomplete(r: Reader)
    requires ReaderOk(r)
    ensures Incomplete(r.filled)
  {
  }

  /** What one call means: the bytes it took extend what was filled, and either form
      exactly one packet with the buffer left empty, or stay an unfinished packet. */
  predicate Explains(r: Reader, stream: seq<uint8>, v: Received) {
    && v.taken <= |stream|
    && ReaderOk(v.reader)
    && match v.packet
       case Some(p) =>
         && r.filled + stream[..v.taken] == p
         && LENGTH_SIZE <= |p| && Ntohl(p[..LENGTH_SIZE]) == |p|
         && v.reader.filled == []
       case None => r.filled + stream[..v.taken] == v.reader.filled
  }

  lemma BodyExplained(r: Reader, r0: Reader, stream: seq<uint8>, script: seq<Outcome>, taken: nat)
    requires taken <= |stream| && r.present && r.limit <= r.capacity && HEADER_SIZE <= r.capacity
    requires r0.filled + stream[..taken] == r.filled
    requires LENGTH_SIZE <= |r.filled| <= r.limit == Ntohl(r.filled[..LENGTH_SIZE])
    requires taken == 0 ==> |r.filled| < r.limit
    ensures var v := ReceiveBody(r, stream, script, taken);
      && ReaderOk(v.reader)
      && (v.ret >= 0 ==> Explains(r0, stream, v))
      && (v.ret >= 0 ==> v.ret == v.taken)
      && (v.ret < 0 ==> v.packet == None)
      && taken <= v.taken <= |stream|
  {
    var v := ReceiveBody(r, stream, script, taken);
    var n := Moved(Next(script), Min(r.limit - |r.filled|, |stream| - taken));
    if n >= 0 {
      var f := r.filled + stream[taken..taken + n];
      TakeMore(stream, taken, n);
      assert stream[taken..][..n] == stream[taken..taken + n];
      Regroup(r0.filled, stream[..taken], stream[taken..taken + n]);
      assert f[..LENGTH_SIZE] == r.filled[..LENGTH_SIZE];
    }
  }

  /** A call that does not fail explains its bytes; one that does reports no packet. */
  lemma ReceiveExplained(r: Reader, stream: seq<uint8>, script: seq<Outcome>)
    requires ReaderOk(r) && HeaderOk(r.filled + stream)
    ensures var v := Receive(r, stream, script);
      && ReaderOk(v.reader)
      && v.taken <= |stream|
      && (v.ret >= 0 ==> Explains(r, stream, v) && v.ret == v.taken)
      && (v.packet.Some? ==> v.ret > 0)
  {
    hide ReceiveBody;
    ReceiveUnfolds(r, stream, script);
    assert r.filled + stream[..0] == r.filled;
    var r0 := Allocated(r);
    assert r0.filled == r.filled;
    if |r0.filled| < LENGTH_SIZE {
      var n := Moved(Next(script), Min(LENGTH_SIZE - |r0.filled|, |stream|));
      if n > 0 {
        var r1 := r0.(filled := r0.filled + stream[..n]);
        if |r1.filled| == LENGTH_SIZE {
          assert r1.filled == (r.filled + stream)[..LENGTH_SIZE];
          assert r1.filled[..LENGTH_SIZE] == r1.filled;
          BodyExplained(Sized(r1, Ntohl(r1.filled)), r, stream, Rest(script), n);
        }
      }
    } else {
      BodyExplained(r0, r, stream, script, 0);
    }
  }

  /** This call completes the length field, and the read for the rest then fails. */
  predicate FailsAfterLength(r: Reader, stream: seq<uint8>, script: seq<Outcome>) {
    && |r.filled| < LENGTH_SIZE
    && LENGTH_SIZE - |r.filled| <= Min(Moved(Next(script), LENGTH_SIZE), |stream|)
    && !Next(Rest(script)).Count?
  }

  /** What a call needs of the stream and of the kernel: a byte for its first read, and no failure of
      the read that follows the length field. */
  predicate ReadFinds(r: Reader, stream: seq<uint8>, script: seq<Outcome>) {
    stream != [] && FindsByte(Next(script)) && !FailsAfterLength(r, stream, script)
  }

  /** The paths of one call. */
  lemma ReceiveUnfolds(r: Reader, stream: seq<uint8>, script: seq<Outcome>)
    requires ReaderOk(r) && HeaderOk(r.filled + stream)
    ensures LENGTH_SIZE <= |r.filled| ==>
      r.present && |r.filled| <= r.limit && Receive(r, stream, script) == ReceiveBody(r, stream, script, 0)
    ensures |r.filled| < LENGTH_SIZE ==>
      var n := Moved(Next(script), Min(LENGTH_SIZE - |r.filled|, |stream|));
      var r1 := Allocated(r).(filled := r.filled + if n > 0 then stream[..n] else []);
      if n <= 0 then Receive(r, stream, script) == Received(Allocated(r), 0, n, None)
      else if |r1.filled| < LENGTH_SIZE then Receive(r, stream, script) == Received(r1, n, n, None)
      else
        && |r1.filled| == LENGTH_SIZE <= Ntohl(r1.filled)
        && Receive(r, stream, script) == ReceiveBody(Sized(r1, Ntohl(r1.filled)), stream, Rest(script), n)
  {
    hide ReceiveBody;
    if |r.filled| < LENGTH_SIZE {
      var n := Moved(Next(script), Min(LENGTH_SIZE - |r.filled|, |stream|));
      if n > 0 && |r.filled| + n == LENGTH_SIZE {
        assert r.filled + stream[..n] == (r.filled + stream)[..LENGTH_SIZE];
      }
    }
  }

  lemma BodySucceeds(r: Reader, stream: seq<uint8>, script: seq<Outcome>, taken: nat)
    requires |r.filled| <= r.limit && taken <= |stream| && (taken == 0 ==> |r.filled| < r.limit)
    ensures var v := ReceiveBody(r, stream, script, taken);
      && (v.ret > 0 <==> if taken > 0 then Next(script).Count? else stream != [] && FindsByte(Next(script)))
      && (v.ret > 0 ==> v.taken > 0)
      && (!Next(script).Count? ==> v.taken == taken && v.reader.filled == [] && v.packet == None)
  {
  }

  /** When a call succeeds, told by stream and answers alone. If only the read after the length field
      fails, bytes are taken that no handler sees. */
  lemma WhenReceiveSucceeds(r: Reader, stream: seq<uint8>, script: seq<Outcome>)
    requires ReaderOk(r) && HeaderOk(r.filled + stream)
    ensures var v := Receive(r, stream, script);
      && (v.ret > 0 <==> ReadFinds(r, stream, script))
      && (v.ret > 0 ==> v.taken > 0)
      && (FailsAfterLength(r, stream, script) ==> v.taken > 0 && v.reader.filled == [] && v.packet == None)
  {
    hide ReceiveBody;
    if |r.filled| < LENGTH_SIZE {
      var n := Moved(Next(script), Min(LENGTH_SIZE - |r.filled|, |stream|));
      if n > 0 && |r.filled| + n == LENGTH_SIZE {
        var r1 := Allocated(r).(filled := r.filled + stream[..n]);
        assert r1.filled == (r.filled + stream)[..LENGTH_SIZE];
        BodySucceeds(Sized(r1, Ntohl(r1.filled)), stream, Rest(script), n);
      }
    } else {
      BodySucceeds(r, stream, script, 0);
    }
  }

  /** An input that fails: a length field on its own is taken, and the connection ends. */
  lemma LoneLengthFails()
    ensures var stream: seq<uint8> := [0, 0, 0, 8];
      && HeaderOk(NEW_READER.filled + stream)
      && HonestCall(NEW_READER, stream, [Count(4), Again])
      && var v := Receive(NEW_READER, stream, [Count(4), Again]);
        v.taken == 4 && v.ret == -1 && v.packet == None && v.reader.filled == []
  {
    var stream: seq<uint8> := [0, 0, 0, 8];
    assert NEW_READER.filled + stream == stream && [] + stream[..4] == stream && stream[..4] == stream;
    assert [Count(4), Again][1..] == [Again];
  }

  /** How much one call takes and when it delivers, told by the bytes there and the two answers. The length
      field comes first, as far as it is missing; then, once it is complete, the rest of the packet. What the
      call takes is what the two reads get; it delivers exactly when the second gets all it asks for. */
  lemma HowMuchIsTaken(r: Reader, stream: seq<uint8>, script: seq<Outcome>)
    requires ReaderOk(r) && HeaderOk(r.filled + stream)
    ensures var v, known := Receive(r, stream, script), r.filled + stream;
      var missing := if |r.filled| < 4 then 4 - |r.filled| else 0;
      var first := if missing == 0 then 0 else Moved(Answer(script, 0), Min(missing, |stream|));
      if first < missing then
        v.ret == first && v.taken == (if first > 0 then first else 0) && v.packet == None
      else
        var rest := Ntohl(known[..4]) - (if |r.filled| < 4 then 4 else |r.filled|);
        && rest >= 0
        && var second := Moved(Answer(script, if missing == 0 then 0 else 1), Min(rest, |stream| - first));
           if second < 0 then v.ret == second && v.taken == first && v.packet == None
           else v.ret == v.taken == first + second && (v.packet.Some? <==> second == rest)
  {
    hide ReceiveBody;
    ReceiveUnfolds(r, stream, script);
    if |r.filled| < LENGTH_SIZE {
      var n := Moved(Next(script), Min(LENGTH_SIZE - |r.filled|, |stream|));
      if n > 0 && |r.filled| + n == LENGTH_SIZE {
        var r1 := Allocated(r).(filled := r.filled + stream[..n]);
        assert r1.filled == (r.filled + stream)[..LENGTH_SIZE];
        BodyTakes(Sized(r1, Ntohl(r1.filled)), stream, Rest(script), n);
      }
    } else {
      assert (r.filled + stream)[..LENGTH_SIZE] == r.filled[..LENGTH_SIZE];
      BodyTakes(r, stream, script, 0);
    }
  }

  lemma BodyTakes(r: Reader, stream: seq<uint8>, script: seq<Outcome>, taken: nat)
    requires |r.filled| <= r.limit && taken <= |stream|
    ensures var v, rest := ReceiveBody(r, stream, script, taken), r.limit - |r.filled|;
      var second := Moved(Answer(script, 0), Min(rest, |stream| - taken));
      if second < 0 then v.ret == second && v.taken == taken && v.packet == None
      else v.ret == v.taken == taken + second && (v.packet.Some? <==> second == rest)
  {
  }

  /** The buffer is replaced only by one of exactly the length of a packet that does not fit. */
  lemma CapacityGrows(r: Reader, stream: seq<uint8>, script: seq<Outcome>)
    requires ReaderOk(r) && HeaderOk(r.filled + stream)
    ensures var v, was := Receive(r, stream, script), if r.present then r.capacity else 8;
      v.reader.capacity ==
        if |r.filled| < 4 <= |r.filled| + v.taken && Ntohl((r.filled + stream)[..4]) > was then
          Ntohl((r.filled + stream)[..4])
        else was
  {
    ReceiveUnfolds(r, stream, script);
    if |r.filled| < LENGTH_SIZE {
      var n := Moved(Next(script), Min(LENGTH_SIZE - |r.filled|, |stream|));
      if n > 0 && |r.filled| + n == LENGTH_SIZE {
        assert r.filled + stream[..n] == (r.filled + stream)[..LENGTH_SIZE];
      }
    }
  }

  /** A packet that is all there is delivered in one call, if each read is given what it asks for. */
  lemma WholePacketIsDelivered(r: Reader, stream: seq<uint8>, script: seq<Outcome>, p: seq<uint8>)
    requires ReaderOk(r) && HeaderOk(r.filled + stream)
    requires Framed(p) && p <= r.filled + stream && |r.filled| < |p|
    requires var rest := |p| - |r.filled|;
      if |r.filled| < 4 then
        && Answer(script, 0).Count? && Answer(script, 0).n >= 4 - |r.filled|
        && Answer(script, 1).Count? && Answer(script, 1).n >= |p| - 4
      else Answer(script, 0).Count? && Answer(script, 0).n >= rest
    ensures var v := Receive(r, stream, script); v.packet == Some(p) && v.ret == v.taken == |p| - |r.filled|
  {
    var known, v := r.filled + stream, Receive(r, stream, script);
    assert known[..4] == p[..4];
    HowMuchIsTaken(r, stream, script);
    ReceiveExplained(r, stream, script);
    hide Receive, ReaderOk, HeaderOk;
    assert r.filled + stream[..v.taken] == known[..|p|] == p;
  }

  /** Every read of this call is answered by an honest non-blocking kernel. */
  predicate HonestCall(r: Reader, stream: seq<uint8>, script: seq<Outcome>) {
    && Honest(Next(script), |stream|)
    && (|r.filled| < LENGTH_SIZE ==>
          var n := Moved(Next(script), Min(LENGTH_SIZE - |r.filled|, |stream|));
          |r.filled| + n == LENGTH_SIZE ==> Honest(Next(Rest(script)), |stream| - n))
  }

  /** With something waiting on an honest kernel, a call fails exactly when a whole length field and
      nothing after it has come, and the first read gets what is missing of it. */
  lemma HonestReceive(r: Reader, stream: seq<uint8>, script: seq<Outcome>)
    requires ReaderOk(r) && HeaderOk(r.filled + stream) && stream != [] && HonestCall(r, stream, script)
    ensures Receive(r, stream, script).ret > 0 <==>
      !(|r.filled| < LENGTH_SIZE == |r.filled| + |stream| && |stream| <= Next(script).n)
  {
    WhenReceiveSucceeds(r, stream, script);
  }

  function Delivered(packets: seq<seq<uint8>>, p: Option<seq<uint8>>): seq<seq<uint8>> {
    if p.Some? then packets + [p.value] else packets
  }

  /** The bytes of a connection that no handler has seen, after one more call. */
  function Pending(partial: seq<uint8>, stream: seq<uint8>, v: Received): seq<uint8>
    requires v.taken <= |stream|
  {
    if v.packet.Some? then [] else partial + stream[..v.taken]
  }

  lemma ReceiveAccounts(packets: seq<seq<uint8>>, r: Reader, stream: seq<uint8>, script: seq<Outcome>)
    requires ReaderOk(r) && HeaderOk(r.filled + stream) && Delimited(packets)
    ensures var v := Receive(r, stream, script);
      && v.taken <= |stream|
      && Delimited(Delivered(packets, v.packet))
      && Concat(packets) + r.filled + stream[..v.taken]
         == Concat(Delivered(packets, v.packet)) + Pending(r.filled, stream, v)
      && (v.ret >= 0 ==> v.reader.filled == Pending(r.filled, stream, v))
  {
    ReceiveExplained(r, stream, script);
    hide Receive, Concat, ReaderOk;
    var v := Receive(r, stream, script);
    if v.packet.Some? {
      ConcatPush(packets, v.packet.value);
    }
    Regroup(Concat(packets), r.filled, stream[..v.taken]);
  }

  // ---------- whole readings of one stream

  /** Repeated calls on one stream. `pending` is what was consumed but not delivered:
      the buffer's contents, or bytes a failed call threw away. */
  datatype Reading = Reading(
    reader: Reader, consumed: nat, packets: seq<seq<uint8>>, pending: seq<uint8>, failed: bool)

  const NEW_READING := Reading(NEW_READER, 0, [], [], false)

  /** What holds between any two calls, whatever the cuts were. */
  predicate ReadingOk(g: Reading, stream: seq<uint8>) {
    && ReaderOk(g.reader) && g.consumed <= |stream| && Delimited(g.packets)
    && stream[..g.consumed] == Concat(g.packets) + g.pending
    && (!g.failed ==> g.pending == g.reader.filled)
  }

  /** Every length field of the stream can size a buffer. */
  predicate SoundStream(s: seq<uint8>) {
    && HeaderOk(s)
    && (!Incomplete(s) ==> SoundStream(s[Ntohl(s[..LENGTH_SIZE])..]))
  }

  lemma {:induction false} SoundAfter(ps: seq<seq<uint8>>, s: seq<uint8>)
    requires Delimited(ps) && SoundStream(Concat(ps) + s)
    ensures SoundStream(s)
  {
    if ps == [] {
      assert Concat(ps) + s == s;
    } else {
      var p, whole := ps[0], Concat(ps) + s;
      assert whole == p + (Concat(ps[1..]) + s);
      assert whole[..LENGTH_SIZE] == p[..LENGTH_SIZE];
      assert whole[|p|..] == Concat(ps[1..]) + s;
      SoundAfter(ps[1..], s);
    }
  }

  lemma HeaderAhead(g: Reading, stream: seq<uint8>)
    requires ReadingOk(g, stream) && !g.failed && SoundStream(stream)
    ensures HeaderOk(g.reader.filled + stream[g.consumed..])
  {
    hide ReaderOk, Delimited, Concat;
    var rest := stream[g.consumed..];
    SplitAt(stream, g.consumed);
    Regroup(Concat(g.packets), g.reader.filled, rest);
    SoundAfter(g.packets, g.reader.filled + rest);
  }

  /** One more call of the handler; a result of 0 or less ends the reading. */
  function ReadMore(g: Reading, stream: seq<uint8>, script: seq<Outcome>): Reading
    requires ReadingOk(g, stream) && SoundStream(stream)
  {
    if g.failed then g
    else
      HeaderAhead(g, stream);
      var ahead := stream[g.consumed..];
      ReceiveExplained(g.reader, ahead, script);
      var v := Receive(g.reader, ahead, script);
      Reading(v.reader, g.consumed + v.taken, Delivered(g.packets, v.packet), Pending(g.pending, ahead, v), v.ret <= 0)
  }

  /** The bytes consumed, carried past one more call. */
  lemma ConsumedMore(stream: seq<uint8>, k: nat, n: nat, packets: seq<seq<uint8>>, f: seq<uint8>,
                     packets': seq<seq<uint8>>, pending': seq<uint8>)
    requires k + n <= |stream| && stream[..k] == Concat(packets) + f
    requires Concat(packets) + f + stream[k..][..n] == Concat(packets') + pending'
    ensures stream[..k + n] == Concat(packets') + pending'
  {
    hide Concat;
    TakeMore(stream, k, n);
  }

  lemma ReadMoreKeeps(g: Reading, stream: seq<uint8>, script: seq<Outcome>)
    requires ReadingOk(g, stream) && SoundStream(stream)
    ensures ReadingOk(ReadMore(g, stream, script), stream)
  {
    hide Receive, Concat, ReaderOk, Delimited, SoundStream, HeaderOk, Delivered, Pending;
    if !g.failed {
      HeaderAhead(g, stream);
      var ahead := stream[g.consumed..];
      ReceiveExplained(g.reader, ahead, script);
      ReceiveAccounts(g.packets, g.reader, ahead, script);
      var v := Receive(g.reader, ahead, script);
      ConsumedMore(stream, g.consumed, v.taken, g.packets, g.reader.filled,
                   Delivered(g.packets, v.packet), Pending(g.pending, ahead, v));
    }
  }

  function ReadAll(stream: seq<uint8>, cuts: seq<seq<Outcome>>): (g: Reading)
    requires SoundStream(stream)
    ensures ReadingOk(g, stream)
  {
    if cuts == [] then
      NEW_READING
    else
      var g := ReadAll(stream, cuts[..|cuts| - 1]);
      ReadMoreKeeps(g, stream, cuts[|cuts| - 1]);
      ReadMore(g, stream, cuts[|cuts| - 1])
  }

  /** Reassembly is parsing: however the kernel cuts the reads, the packets delivered are
      those of the bytes consumed, and the buffer holds exactly the unfinished rest. */
  lemma ReassemblyIsParsing(stream: seq<uint8>, cuts: seq<seq<Outcome>>)
    requires SoundStream(stream)
    ensures var g := ReadAll(stream, cuts);
      && (!g.failed ==> Parse(stream[..g.consumed]) == Parsed(g.packets, g.reader.filled))
      && g.packets <= Parse(stream).packets
  {
    var g := ReadAll(stream, cuts);
    var ahead := stream[g.consumed..];
    if !g.failed {
      ReaderOkIncomplete(g.reader);
      ParseRecovers(g.packets, g.reader.filled);
    }
    ParseConcat(g.packets);
    ParseGrows(Concat(g.packets), g.pending + ahead);
    SplitAt(stream, g.consumed);
    Regroup(Concat(g.packets), g.pending, ahead);
  }

  /** Two cuttings that consumed as many bytes delivered the same packets. */
  lemma CutsDoNotMatter(stream: seq<uint8>, one: seq<seq<Outcome>>, other: seq<seq<Outcome>>)
    requires SoundStream(stream)
    ensures var a, b := ReadAll(stream, one), ReadAll(stream, other);
      !a.failed && !b.failed && a.consumed == b.consumed ==>
        a.packets == b.packets && a.reader.filled == b.reader.filled
  {
    hide ReadAll, Parse, SoundStream;
    ReassemblyIsParsing(stream, one);
    ReassemblyIsParsing(stream, other);
  }
}
