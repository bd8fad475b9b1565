/** The position/limit buffer and the descriptor it reads from. */
module Buffers {
  import opened Bytes
  import opened Kernel

  /** A connected, non-blocking descriptor. `writeAnswers` and `readAnswers` are the kernel's coming
      answers, `waiting` the bytes the peer's stream has for us, `written` all bytes taken. */
  class Socket {
    ghost var written: seq<uint8>
    var waiting: seq<uint8>
    var writeAnswers: seq<Outcome>
    var readAnswers: seq<Outcome>
    var again: bool

    /** `write(fd, a + from, to - from)` */
    method Write(a: array<uint8>, from: nat, to: nat) returns (n: int)
      requires from <= to <= a.Length
      modifies this
      ensures n == Moved(Next(old(writeAnswers)), to - from)
      ensures writeAnswers == Rest(old(writeAnswers)) && again == Next(old(writeAnswers)).Again?
      ensures written == if n > 0 then old(written) + a[from..from + n] else old(written)
      ensures waiting == old(waiting) && readAnswers == old(readAnswers)
    {
      n := Moved(Next(writeAnswers), to - from);
      again := Next(writeAnswers).Again?;
      writeAnswers := Rest(writeAnswers);
      if n > 0 {
        written := written + a[from..from + n];
      }
    }

    /** `read(fd, a + at, size)` */
    method Read(a: array<uint8>, at: nat, size: nat) returns (n: int)
      requires at + size <= a.Length
      modifies this, a
      ensures n == Moved(Next(old(readAnswers)), Min(size, |old(waiting)|))
      ensures readAnswers == Rest(old(readAnswers)) && writeAnswers == old(writeAnswers) && written == old(written)
      ensures n <= 0 ==> waiting == old(waiting) && a[..] == old(a[..])
      ensures n > 0 ==> waiting == old(waiting)[n..] && a[..at + n] == old(a[..at]) + old(waiting)[..n]
    {
      n := Moved(Next(readAnswers), Min(size, |waiting|));
      readAnswers := Rest(readAnswers);
      if n > 0 {
        forall i | 0 <= i < n {
          a[at + i] := waiting[i];
        }
        waiting := waiting[n..];
      }
    }
  }

  class Buffer {
    const data: array<uint8>
    const capacity: nat
    var position: nat
    var limit: nat
    /** The allocation's identity, for the accounting of ownership. */
    ghost const id: nat

    ghost predicate Valid()
      reads this
    {
      position <= limit <= capacity == data.Length
    }

    /** `dx_buffer_alloc` */
    constructor Alloc(capacity: nat)
      ensures Valid() && fresh(data) && this.capacity == capacity
      ensures position == 0 && limit == capacity
    {
      data := new uint8[capacity];
      this.capacity := capacity;
      position, limit := 0, capacity;
    }

    /** `dx_buffer_wrap` */
    constructor Wrap(buffer: array<uint8>, ghost id: nat)
      ensures Valid() && data == buffer && capacity == buffer.Length && this.id == id
      ensures position == 0 && limit == capacity
    {
      data, capacity := buffer, buffer.Length;
      position, limit := 0, buffer.Length;
      this.id := id;
    }

    /** `dx_buffer_clear` */
    method Clear()
      requires Valid()
      modifies this
      ensures Valid() && position == 0 && limit == capacity
    {
      position, limit := 0, capacity;
    }

    /** `dx_buffer_step_forward` */
    method StepForward(steps: nat)
      requires Valid() && position + steps <= limit
      modifies this`position
      ensures Valid() && position == old(position) + steps
    {
      position := position + steps;
    }

    /** `dx_buffer_setlimit` */
    method SetLimit(limit: nat)
      requires Valid() && position <= limit <= capacity
      modifies this`limit
      ensures Valid() && this.limit == limit
    {
      this.limit := limit;
    }

    /** `dx_buffer_put`, from the first `sz` bytes of an array. */
    method Put(src: array<uint8>, sz: nat) returns (copied: nat)
      requires Valid() && sz <= src.Length && src != data
      modifies this`position, data
      ensures Valid() && copied == Min(sz, limit - old(position))
      ensures position == old(position) + copied
      ensures data[..position] == old(data[..position]) + src[..copied]
    {
      copied := Min(sz, limit - position);
      forall i | 0 <= i < copied {
        data[position + i] := src[i];
      }
      position := position + copied;
    }

    /** `dx_buffer_nread_from`: one read of at most `sz` bytes at the position. */
    method NreadFrom(sz: nat, fd: Socket) returns (n: int)
      requires Valid() && position + sz <= limit
      modifies this`position, data, fd
      ensures Valid() && n == Moved(Next(old(fd.readAnswers)), Min(sz, |old(fd.waiting)|))
      ensures fd.readAnswers == Rest(old(fd.readAnswers))
      ensures fd.writeAnswers == old(fd.writeAnswers) && fd.written == old(fd.written)
      ensures n <= 0 ==> fd.waiting == old(fd.waiting) && position == old(position)
      ensures n <= 0 ==> data[..] == old(data[..])
      ensures n > 0 ==> fd.waiting == old(fd.waiting)[n..] && position == old(position) + n
      ensures n > 0 ==> data[..position] == old(data[..position]) + old(fd.waiting)[..n]
    {
      n := fd.Read(data, position, sz);
      if n <= 0 {
        return;
      }
      StepForward(n);
    }

    /** `dx_buffer_read_from`: one read of whatever remains up to the limit. */
    method ReadFrom(fd: Socket) returns (n: int)
      requires Valid()
      modifies this`position, data, fd
      ensures Valid() && n == Moved(Next(old(fd.readAnswers)), Min(limit - old(position), |old(fd.waiting)|))
      ensures fd.readAnswers == Rest(old(fd.readAnswers))
      ensures fd.writeAnswers == old(fd.writeAnswers) && fd.written == old(fd.written)
      ensures n <= 0 ==> fd.waiting == old(fd.waiting) && position == old(position)
      ensures n <= 0 ==> data[..] == old(data[..])
      ensures n > 0 ==> fd.waiting == old(fd.waiting)[n..] && position == old(position) + n
      ensures n > 0 ==> data[..position] == old(data[..position]) + old(fd.waiting)[..n]
    {
      n := NreadFrom(limit - position, fd);
    }
  }
}
