/** What the operating system may answer to `read` and `write` on a non-blocking descriptor. */
module Kernel {
  import opened Bytes

  /** One system call's result: a count (0 included), -1 with EAGAIN, or -1 with another error, which
      may be EINPROGRESS. */
  datatype Outcome = Count(n: nat) | Again | Error(inProgress: bool)

  /** The value the call returns when `room` bytes could be moved. */
  function Moved(o: Outcome, room: nat): (r: int)
    ensures r <= room
    ensures r < 0 <==> !o.Count?
  {
    if o.Count? then Min(o.n, room) else -1
  }

  /** The next answer; a kernel with nothing more to say would block. */
  function Next(script: seq<Outcome>): Outcome {
    if script == [] then Again else script[0]
  }

  /** The k-th answer from now. */
  function Answer(script: seq<Outcome>, k: nat): Outcome {
    if k < |script| then script[k] else Again
  }

  /** An answer that moves a byte, room and bytes permitting. */
  predicate FindsByte(o: Outcome) {
    o.Count? && o.n > 0
  }

  /** What a non-blocking read may answer with `waiting` bytes there and the peer still open: EAGAIN
      if there is nothing, and otherwise any number of bytes but none. */
  predicate Honest(o: Outcome, waiting: nat) {
    if waiting == 0 then o.Again? else FindsByte(o)
  }

  function Rest(script: seq<Outcome>): (r: seq<Outcome>)
    ensures |r| <= |script|
  {
    if script == [] then [] else script[1..]
  }
}
