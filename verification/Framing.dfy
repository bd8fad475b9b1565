/** What a stream of packets means: every packet starts with its own total
    length, so a byte string splits into packets in exactly one way. */
module Framing {
  import opened Bytes

  const LENGTH_SIZE := 4
  const HEADER_SIZE := 8
  const FLAG_DISCARDABLE := 0x01

  /** A packet as every sender builds it: the header's length field is the size of
      the buffer, and the buffer holds at least a header. */
  predicate Framed(p: seq<uint8>) {
    HEADER_SIZE <= |p| < TWO_31 && Ntohl(p[..LENGTH_SIZE]) == |p|
  }

  predicate AllFramed(ps: seq<seq<uint8>>) {
    forall p :: p in ps ==> Framed(p)
  }

  /** The `flags & DX_PACKET_FLAG_DISCARDABLE` test on the header's last octet. */
  predicate Flagged(p: seq<uint8>) {
    HEADER_SIZE <= |p| && p[7] as int % 2 == FLAG_DISCARDABLE
  }

  /** A packet being received: its header length has not been reached yet. */
  predicate Incomplete(f: seq<uint8>) {
    |f| < LENGTH_SIZE || |f| < Ntohl(f[..LENGTH_SIZE])
  }

  /** If the next length field is there, a buffer can be sized by it. */
  predicate HeaderOk(f: seq<uint8>) {
    LENGTH_SIZE <= |f| ==> LENGTH_SIZE <= Ntohl(f[..LENGTH_SIZE]) < TWO_31
  }

  datatype Parsed = Parsed(packets: seq<seq<uint8>>, rest: seq<uint8>)

  /** The reference reading of a whole stream, with no buffers and no cuts. */
  function Parse(s: seq<uint8>): Parsed {
    if Incomplete(s) || Ntohl(s[..LENGTH_SIZE]) < LENGTH_SIZE then
      Parsed([], s)
    else
      var n := Ntohl(s[..LENGTH_SIZE]);
      var tail := Parse(s[n..]);
      Parsed([s[..n]] + tail.packets, tail.rest)
  }

  predicate Delimited(ps: seq<seq<uint8>>) {
    forall i :: 0 <= i < |ps| ==> LENGTH_SIZE <= |ps[i]| && Ntohl(ps[i][..LENGTH_SIZE]) == |ps[i]|
  }

  /** Parsing recovers any packet list from its concatenation, plus an unfinished tail. */
  lemma {:induction false} ParseRecovers(ps: seq<seq<uint8>>, f: seq<uint8>)
    requires Delimited(ps) && Incomplete(f)
    ensures Parse(Concat(ps) + f) == Parsed(ps, f)
  {
    var s := Concat(ps) + f;
    if ps == [] {
      assert s == f;
    } else {
      var p, tail := ps[0], Concat(ps[1..]) + f;
      assert s == p + tail;
      assert s[..LENGTH_SIZE] == p[..LENGTH_SIZE];
      assert s[|p|..] == tail && s[..|p|] == p;
      ParseRecovers(ps[1..], f);
      assert ps == [p] + ps[1..];
    }
  }

  /** More bytes only add packets: what was parsed from a prefix stays. */
  lemma {:induction false} ParseGrows(s: seq<uint8>, t: seq<uint8>)
    ensures Parse(s).packets <= Parse(s + t).packets
    decreases |s|
  {
    if !Incomplete(s) && LENGTH_SIZE <= Ntohl(s[..LENGTH_SIZE]) {
      var n := Ntohl(s[..LENGTH_SIZE]);
      assert (s + t)[..LENGTH_SIZE] == s[..LENGTH_SIZE];
      assert (s + t)[n..] == s[n..] + t && (s + t)[..n] == s[..n];
      ParseGrows(s[n..], t);
    }
  }

  lemma ParseConcat(ds: seq<seq<uint8>>)
    requires Delimited(ds)
    ensures Parse(Concat(ds)).packets == ds
  {
    ParseRecovers(ds, []);
    assert Concat(ds) + [] == Concat(ds);
  }

  /** Packets found in a prefix of a stream of packets are that stream's first packets. */
  lemma StreamPrefix(ds: seq<seq<uint8>>, d: seq<uint8>, ss: seq<seq<uint8>>, h: seq<uint8>)
    requires Delimited(ds) && Delimited(ss) && Incomplete(h)
    requires Concat(ds) + d <= Concat(ss) + h
    ensures ds <= ss
  {
    var whole, cut := Concat(ss) + h, Concat(ds);
    PrefixRest(cut, d, whole);
    ParseConcat(ds);
    ParseRecovers(ss, h);
    ParseGrows(cut, whole[|cut|..]);
  }

  /** A proper prefix of a framed packet is unfinished. */
  lemma CutIsIncomplete(p: seq<uint8>, k: nat)
    requires Framed(p) && k < |p|
    ensures Incomplete(p[..k]) && HeaderOk(p[..k])
  {
    if LENGTH_SIZE <= k {
      assert p[..k][..LENGTH_SIZE] == p[..LENGTH_SIZE];
    }
  }

  lemma FramedIsDelimited(ps: seq<seq<uint8>>)
    requires AllFramed(ps)
    ensures Delimited(ps)
  {
    forall i | 0 <= i < |ps|
      ensures LENGTH_SIZE <= |ps[i]| && Ntohl(ps[i][..LENGTH_SIZE]) == |ps[i]|
    {
      assert ps[i] in ps;
    }
  }

  /** Past the packets already read, a well-framed stream shows a usable header. */
  lemma NextHeaderOk(done: seq<seq<uint8>>, all: seq<seq<uint8>>, h: seq<uint8>, s: seq<uint8>)
    requires AllFramed(all) && HeaderOk(h)
    requires done <= all && Concat(done) + s == Concat(all) + h
    ensures HeaderOk(s)
  {
    var left := all[|done|..];
    assert all == done + left;
    ConcatAppend(done, left);
    assert Concat(done) + s == Concat(done) + (Concat(left) + h);
    assert s == (Concat(done) + s)[|Concat(done)|..];
    assert s == Concat(left) + h;
    if left == [] {
      assert s == h;
    } else {
      assert left[0] in all;
      assert s[..LENGTH_SIZE] == left[0][..LENGTH_SIZE];
    }
  }
}
