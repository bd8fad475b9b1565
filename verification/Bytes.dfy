/** Octets, the 32-bit network byte order fields of every packet, and
    concatenation of byte strings. */
module Bytes {
  newtype uint8 = b: int | 0 <= b < 256

  const TWO_32: int := 0x1_0000_0000
  const TWO_31: int := 0x8000_0000

  datatype Option<+T> = None | Some(value: T)

  function Min(a: int, b: int): int {
    if a < b then a else b
  }

  /** The 32-bit value of four octets in network order (`ntohl`). */
  function Ntohl(s: seq<uint8>): (n: nat)
    requires |s| == 4
    ensures n < TWO_32
  {
    s[0] as int * 0x100_0000 + s[1] as int * 0x1_0000 + s[2] as int * 0x100 + s[3] as int
  }

  /** Four octets in network order; `Ntohl` reads back what was written. */
  function Htonl(n: nat): (s: seq<uint8>)
    requires n < TWO_32
    ensures |s| == 4 && Ntohl(s) == n
  {
    var upper := n / 0x100;
    var top := upper / 0x100;
    [(top / 0x100) as uint8, (top % 0x100) as uint8, (upper % 0x100) as uint8, (n % 0x100) as uint8]
  }

  /** The 16-bit and 64-bit values of octets in network order (`ntohs`, `ntohll`). */
  function Ntohs(s: seq<uint8>): nat
    requires |s| == 2
  {
    s[0] as int * 0x100 + s[1] as int
  }

  function Ntohll(s: seq<uint8>): nat
    requires |s| == 8
  {
    Ntohl(s[..4]) * TWO_32 + Ntohl(s[4..])
  }

  function Concat<T>(parts: seq<seq<T>>): seq<T> {
    if parts == [] then [] else parts[0] + Concat(parts[1..])
  }

  lemma {:induction false} ConcatAppend<T>(a: seq<seq<T>>, b: seq<seq<T>>)
    ensures Concat(a + b) == Concat(a) + Concat(b)
  {
    if a == [] {
      assert a + b == b;
    } else {
      ConcatAppend(a[1..], b);
      assert (a + b)[1..] == a[1..] + b && (a + b)[0] == a[0];
      assert Concat(a + b) == a[0] + (Concat(a[1..]) + Concat(b));
    }
  }

  lemma ConcatPush<T>(a: seq<seq<T>>, x: seq<T>)
    ensures Concat(a + [x]) == Concat(a) + x
  {
    ConcatAppend(a, [x]);
    assert [x][1..] == [];
  }

  // Three facts on slices, kept apart so that larger proofs need no extensionality.

  lemma SplitAt<T>(s: seq<T>, k: nat)
    requires k <= |s|
    ensures s[..k] + s[k..] == s
  {
  }

  lemma TakeMore<T>(s: seq<T>, k: nat, n: nat)
    requires k + n <= |s|
    ensures s[..k + n] == s[..k] + s[k..][..n]
    ensures s[k..][n..] == s[k + n..]
  {
  }

  lemma Regroup<T>(a: seq<T>, b: seq<T>, c: seq<T>)
    ensures a + b + c == a + (b + c)
  {
  }

  lemma PrefixRest<T>(a: seq<T>, b: seq<T>, whole: seq<T>)
    requires a + b <= whole
    ensures |a| <= |whole| && a + whole[|a|..] == whole
  {
    assert a == whole[..|a|];
  }
}
