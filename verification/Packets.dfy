/** The packet builders: each allocates a buffer, writes its header and fields, and the
    length it writes into the header is the length of the buffer it queues. */
module Packets {
  import opened Bytes
  import opened Framing

  const TYPE_EVENT: uint8 := 5
  const TYPE_STREAM: uint8 := 8
  const DATA_NONE: uint8 := 0
  const DATA_PRIMITIVE: uint8 := 1
  const DATA_STRING: uint8 := 9
  const DATA_STREAM: uint8 := 41
  const CODE_CONNECT: uint8 := 0

  const PRIMITIVE_SIZE := 12
  const STRING_BASE := 12
  const STREAM_BASE := 28

  const PATH_SIZE := 128

  /** `strncpy` into a fixed field: cut at the field's size or padded with zeros. */
  function PathField(path: seq<uint8>): (f: seq<uint8>)
    ensures |f| == PATH_SIZE
  {
    if |path| >= PATH_SIZE then path[..PATH_SIZE] else path + seq(PATH_SIZE - |path|, _ => 0 as uint8)
  }

  /** Byte by byte: what fits of the path, then zeros. */
  lemma PathFieldBytes(path: seq<uint8>, i: nat)
    requires i < PATH_SIZE
    ensures PathField(path)[i] == if i < |path| then path[i] else 0
  {
  }

  /** The C string in a field: what precedes its first NUL. */
  function CString(f: seq<uint8>): seq<uint8> {
    if f == [] || f[0] == 0 then [] else [f[0]] + CString(f[1..])
  }

  /** A path that a fixed field can carry. */
  predicate PathOk(path: seq<uint8>) {
    |path| <= PATH_SIZE && 0 !in path
  }

  lemma {:induction false} CStringOf(path: seq<uint8>, pad: seq<uint8>)
    requires 0 !in path && (pad == [] || pad[0] == 0)
    ensures CString(path + pad) == path
  {
    if path == [] {
      assert path + pad == pad;
    } else {
      assert path[0] in path;
      CStringOf(path[1..], pad);
      assert (path + pad)[1..] == path[1..] + pad;
    }
  }

  /** A path survives the fixed field. */
  lemma PathRoundTrip(path: seq<uint8>)
    requires PathOk(path)
    ensures CString(PathField(path)) == path
  {
    var pad := PathField(path)[|path|..];
    CStringOf(path, pad);
    assert PathField(path) == path + pad;
  }

  /** The header fields at the front of a packet; the flags octet is separate. */
  predicate HasHeader(p: seq<uint8>, len: nat, kind: uint8, code: uint8, dataType: uint8) {
    HEADER_SIZE <= |p| && Ntohl(p[..4]) == len && p[4] == kind && p[5] == code && p[6] == dataType
  }

  /** Two states of a buffer that differ at most in `lo..hi`. */
  predicate Elsewhere(s: seq<uint8>, t: seq<uint8>, lo: nat, hi: nat) {
    |s| == |t| && forall i :: 0 <= i < |s| && (i < lo || hi <= i) ==> t[i] == s[i]
  }

  lemma SliceKept(s: seq<uint8>, t: seq<uint8>, lo: nat, hi: nat, x: nat, y: nat)
    requires Elsewhere(s, t, lo, hi) && x <= y <= |s| && (y <= lo || hi <= x)
    ensures t[x..y] == s[x..y]
  {
  }

  /** Store a 32-bit field in network order. */
  method Put32(a: array<uint8>, at: nat, value: nat)
    requires at + 4 <= a.Length && value < TWO_32
    modifies a
    ensures Ntohl(a[..][at..at + 4]) == value
    ensures Elsewhere(old(a[..]), a[..], at, at + 4)
  {
    var b := Htonl(value);
    a[at], a[at + 1], a[at + 2], a[at + 3] := b[0], b[1], b[2], b[3];
    assert a[..][at..at + 4] == b;
  }

  /** Copy bytes into a packet. */
  method PutBytes(a: array<uint8>, at: nat, bytes: seq<uint8>)
    requires at + |bytes| <= a.Length
    modifies a
    ensures a[..][at..at + |bytes|] == bytes
    ensures Elsewhere(old(a[..]), a[..], at, at + |bytes|)
  {
    forall i | 0 <= i < |bytes| {
      a[at + i] := bytes[i];
    }
  }

  /** `dx_packet_set_header`: everything but the flags octet. */
  method SetHeader(p: array<uint8>, len: nat, kind: uint8, code: uint8, dataType: uint8)
    requires HEADER_SIZE <= p.Length && len < TWO_32
    modifies p
    ensures HasHeader(p[..], len, kind, code, dataType)
    ensures Elsewhere(old(p[..]), p[..], 0, 7)
  {
    Put32(p, 0, len);
    ghost var s := p[..];
    p[4], p[5], p[6] := kind, code, dataType;
    SliceKept(s, p[..], 4, 7, 0, 4);
  }

  lemma HeaderKept(s: seq<uint8>, t: seq<uint8>, lo: nat, hi: nat, len: nat, kind: uint8, code: uint8, dataType: uint8)
    requires HasHeader(s, len, kind, code, dataType) && Elsewhere(s, t, lo, hi) && 7 <= lo
    ensures HasHeader(t, len, kind, code, dataType)
  {
    SliceKept(s, t, lo, hi, 0, 4);
  }

  /** `dx_packet_send_header`, up to the call of `dx_write`. */
  method NewHeader(kind: uint8, code: uint8) returns (p: array<uint8>)
    ensures fresh(p) && Framed(p[..]) && HasHeader(p[..], HEADER_SIZE, kind, code, DATA_NONE)
  {
    p := new uint8[HEADER_SIZE];
    SetHeader(p, HEADER_SIZE, kind, code, DATA_NONE);
  }

  /** `dx_packet_send_primitive_u32`, up to the call of `dx_write`. */
  method NewPrimitive32(kind: uint8, code: uint8, value: nat) returns (p: array<uint8>)
    requires value < TWO_32
    ensures fresh(p) && |p[..]| == PRIMITIVE_SIZE && Framed(p[..])
    ensures HasHeader(p[..], PRIMITIVE_SIZE, kind, code, DATA_PRIMITIVE)
    ensures Ntohl(p[..][8..12]) == value
  {
    p := new uint8[PRIMITIVE_SIZE];
    SetHeader(p, PRIMITIVE_SIZE, kind, code, DATA_PRIMITIVE);
    ghost var s := p[..];
    Put32(p, 8, value);
    HeaderKept(s, p[..], 8, 12, PRIMITIVE_SIZE, kind, code, DATA_PRIMITIVE);
  }

  /** `dx_packet_send_string`, up to the call of `dx_write`. */
  method NewString(kind: uint8, code: uint8, text: seq<uint8>) returns (p: array<uint8>)
    requires STRING_BASE + |text| < TWO_31
    ensures fresh(p) && |p[..]| == STRING_BASE + |text| && Framed(p[..])
    ensures HasHeader(p[..], STRING_BASE + |text|, kind, code, DATA_STRING)
    ensures Ntohl(p[..][8..12]) == |text| && p[..][12..] == text
  {
    var len := STRING_BASE + |text|;
    p := new uint8[len];
    SetHeader(p, len, kind, code, DATA_STRING);
    ghost var s := p[..];
    Put32(p, 8, |text|);
    ghost var t := p[..];
    PutBytes(p, 12, text);
    HeaderKept(s, t, 8, 12, len, kind, code, DATA_STRING);
    HeaderKept(t, p[..], 12, len, len, kind, code, DATA_STRING);
    SliceKept(t, p[..], 12, len, 8, 12);
  }

  /** Store a 16-bit field in network order. */
  method Put16(a: array<uint8>, at: nat, value: nat)
    requires at + 2 <= a.Length && value < 0x1_0000
    modifies a
    ensures Ntohs(a[..][at..at + 2]) == value
    ensures Elsewhere(old(a[..]), a[..], at, at + 2)
  {
    a[at], a[at + 1] := (value / 0x100) as uint8, (value % 0x100) as uint8;
  }

  /** Store a 64-bit field in network order. */
  method Put64(a: array<uint8>, at: nat, value: nat)
    requires at + 8 <= a.Length && value < TWO_32 * TWO_32
    modifies a
    ensures Ntohll(a[..][at..at + 8]) == value
    ensures Elsewhere(old(a[..]), a[..], at, at + 8)
  {
    Put32(a, at, value / TWO_32);
    ghost var s := a[..];
    Put32(a, at + 4, value % TWO_32);
    SliceKept(s, a[..], at + 4, at + 8, at, at + 4);
    ghost var field := a[..][at..at + 8];
    assert field[..4] == a[..][at..at + 4] && field[4..] == a[..][at + 4..at + 8];
  }

  /** The fields of a stream packet between header and payload. Its type field is 16 bits wide, and what
      a little-endian machine stores there of a 32-bit value in network order is the upper half. */
  predicate HasStreamFields(p: seq<uint8>, len: nat, enctype: nat, flags: nat, sequence: nat, ts: nat) {
    && STREAM_BASE <= |p|
    && Ntohl(p[8..12]) == len
    && Ntohs(p[12..14]) == enctype / 0x1_0000
    && Ntohs(p[14..16]) == flags % 0x1_0000
    && Ntohl(p[16..20]) == sequence
    && Ntohll(p[20..28]) == ts
  }

  lemma StreamFieldsKept(s: seq<uint8>, t: seq<uint8>, lo: nat, hi: nat,
                         len: nat, enctype: nat, flags: nat, sequence: nat, ts: nat)
    requires HasStreamFields(s, len, enctype, flags, sequence, ts) && Elsewhere(s, t, lo, hi)
    requires hi <= 8 || STREAM_BASE <= lo
    ensures HasStreamFields(t, len, enctype, flags, sequence, ts)
  {
    SliceKept(s, t, lo, hi, 8, 12);
    SliceKept(s, t, lo, hi, 12, 14);
    SliceKept(s, t, lo, hi, 14, 16);
    SliceKept(s, t, lo, hi, 16, 20);
    SliceKept(s, t, lo, hi, 20, 28);
  }

  method PutStreamFields(p: array<uint8>, len: nat, enctype: nat, flags: nat, sequence: nat, ts: nat)
    requires STREAM_BASE <= p.Length && len < TWO_32 && enctype < TWO_32 && sequence < TWO_32
    requires ts < TWO_32 * TWO_32
    modifies p
    ensures HasStreamFields(p[..], len, enctype, flags, sequence, ts)
    ensures Elsewhere(old(p[..]), p[..], 8, STREAM_BASE)
  {
    Put16(p, 12, enctype / 0x1_0000);
    ghost var s := p[..];
    Put32(p, 8, len);
    ghost var t := p[..];
    Put16(p, 14, flags % 0x1_0000);
    ghost var u := p[..];
    Put32(p, 16, sequence);
    ghost var v := p[..];
    Put64(p, 20, ts);
    SliceKept(s, t, 8, 12, 12, 14);
    SliceKept(t, u, 14, 16, 8, 12);
    SliceKept(t, u, 14, 16, 12, 14);
    SliceKept(u, v, 16, 20, 8, 12);
    SliceKept(u, v, 16, 20, 12, 14);
    SliceKept(u, v, 16, 20, 14, 16);
    SliceKept(v, p[..], 20, 28, 8, 12);
    SliceKept(v, p[..], 20, 28, 12, 14);
    SliceKept(v, p[..], 20, 28, 14, 16);
    SliceKept(v, p[..], 20, 28, 16, 20);
  }

  /** `dx_packet_send_stream`, up to the call of `dx_write`: the only builder that sets the
      discardable flag. `ts` is the clock. */
  method NewStream(code: uint8, enctype: nat, flags: nat, sequence: nat, payload: seq<uint8>, ts: nat)
    returns (p: array<uint8>)
    requires STREAM_BASE + |payload| < TWO_31 && enctype < TWO_32 && sequence < TWO_32 && ts < TWO_32 * TWO_32
    ensures fresh(p) && |p[..]| == STREAM_BASE + |payload| && Framed(p[..]) && Flagged(p[..])
    ensures HasHeader(p[..], STREAM_BASE + |payload|, TYPE_STREAM, code, DATA_STREAM)
    ensures HasStreamFields(p[..], |payload|, enctype, flags, sequence, ts)
    ensures p[..][STREAM_BASE..] == payload
  {
    hide HasStreamFields;
    var len := STREAM_BASE + |payload|;
    p := new uint8[len];
    SetHeader(p, len, TYPE_STREAM, code, DATA_STREAM);
    ghost var s := p[..];
    PutStreamFields(p, |payload|, enctype, flags, sequence, ts);
    ghost var t := p[..];
    HeaderKept(s, t, 8, STREAM_BASE, len, TYPE_STREAM, code, DATA_STREAM);
    p[7] := FLAG_DISCARDABLE as uint8;
    ghost var u := p[..];
    HeaderKept(t, u, 7, 8, len, TYPE_STREAM, code, DATA_STREAM);
    StreamFieldsKept(t, u, 7, 8, |payload|, enctype, flags, sequence, ts);
    PutBytes(p, STREAM_BASE, payload);
    HeaderKept(u, p[..], STREAM_BASE, len, len, TYPE_STREAM, code, DATA_STREAM);
    StreamFieldsKept(u, p[..], STREAM_BASE, len, |payload|, enctype, flags, sequence, ts);
  }
}
