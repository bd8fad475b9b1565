/** The event context and the three transport routines that change it in place, each proved
    against its function on values in SendQueue and Reassembly. */
module PacketIo {
  import opened Bytes
  import opened Framing
  import opened Kernel
  import opened Buffers
  import opened LinkedList
  import opened Packets
  import SQ = SendQueue
  import RA = Reassembly
  import CN = Connection

  /** The send side: `plist_writing`, the interest set and the descriptor. */
  class Writer {
    const fd: Socket
    var plistWriting: List?<Buffer>
    var armed: bool

    /** The sender on values that this object implements, what calls may change, and the
        callers' byte arrays, which they do not. */
    ghost var model: SQ.Sender
    ghost var Repr: set<object>
    ghost var bufs: set<Buffer>
    ghost var payloads: set<array<uint8>>

    /** The list's default finder compares addresses. */
    static const SAME: (Buffer, Buffer) -> bool := (a, b) => a == b

    /** A queued buffer against its entry; only the head may have a position. */
    static ghost predicate Holds(b: Buffer, e: SQ.Entry, position: nat)
      reads b, b.data
    {
      b.Valid() && b.limit == b.capacity && b.data[..] == e.bytes && b.id == e.id && b.position == position
    }

    /** The list's buffers against the entries; `bufs` and `arrays` bound what they use. */
    static ghost predicate QueueHolds(nodes: seq<Node<Buffer>>, queue: seq<SQ.Entry>, position: nat,
                                      bufs: set<Buffer>, arrays: set<array<uint8>>)
      reads bufs, arrays
    {
      && |nodes| == |queue|
      && (forall i :: 0 <= i < |nodes| ==> Owned(nodes[i], bufs, arrays))
      && (forall i, j :: 0 <= i < j < |nodes| ==> nodes[i].data != nodes[j].data)
      && (forall i :: 0 <= i < |nodes| ==> Holds(nodes[i].data, queue[i], if i == 0 then position else 0))
    }

    static ghost predicate Owned(n: Node<Buffer>, bufs: set<Buffer>, arrays: set<array<uint8>>) {
      n.data in bufs && n.data.data in arrays
    }

    static lemma QueuePush(nodes: seq<Node<Buffer>>, queue: seq<SQ.Entry>, position: nat,
                           bufs: set<Buffer>, arrays: set<array<uint8>>, n: Node<Buffer>, e: SQ.Entry)
      requires QueueHolds(nodes, queue, position, bufs, arrays)
      requires Holds(n.data, e, 0) && n.data !in bufs && (nodes == [] ==> position == 0)
      ensures QueueHolds(nodes + [n], queue + [e], position, bufs + {n.data}, arrays + {n.data.data})
    {
      hide Holds;
      var bufs', arrays' := bufs + {n.data}, arrays + {n.data.data};
      forall i | 0 <= i < |nodes|
        ensures Owned(nodes[i], bufs', arrays') && nodes[i].data != n.data
      {
        assert Owned(nodes[i], bufs, arrays);
      }
    }

    /** The head apart from the rest: what a step of the poller touches, and what it does not. */
    static lemma QueuePop(nodes: seq<Node<Buffer>>, queue: seq<SQ.Entry>, position: nat,
                          bufs: set<Buffer>, arrays: set<array<uint8>>)
      requires QueueHolds(nodes, queue, position, bufs, arrays) && nodes != []
      ensures QueueHolds(nodes[1..], queue[1..], 0, bufs - {nodes[0].data}, arrays)
      ensures Owned(nodes[0], bufs, arrays) && Holds(nodes[0].data, queue[0], position)
    {
      hide Holds;
      assert Owned(nodes[0], bufs, arrays);
      forall i | 0 <= i < |nodes| - 1
        ensures Owned(nodes[1..][i], bufs - {nodes[0].data}, arrays) && Holds(nodes[1..][i].data, queue[1..][i], 0)
      {
        assert nodes[1..][i] == nodes[i + 1] && Owned(nodes[i + 1], bufs, arrays);
      }
    }

    static lemma QueueUnpop(nodes: seq<Node<Buffer>>, queue: seq<SQ.Entry>, position: nat,
                            bufs: set<Buffer>, arrays: set<array<uint8>>)
      requires nodes != [] && queue != []
      requires QueueHolds(nodes[1..], queue[1..], 0, bufs - {nodes[0].data}, arrays)
      requires Owned(nodes[0], bufs, arrays) && Holds(nodes[0].data, queue[0], position)
      ensures QueueHolds(nodes, queue, position, bufs, arrays)
    {
      hide Holds;
      forall i | 1 <= i < |nodes|
        ensures Owned(nodes[i], bufs, arrays) && Holds(nodes[i].data, queue[i], 0)
        ensures nodes[i].data != nodes[0].data
      {
        assert nodes[1..][i - 1] == nodes[i] && queue[1..][i - 1] == queue[i];
        assert Owned(nodes[1..][i - 1], bufs - {nodes[0].data}, arrays);
      }
      forall i, j | 0 <= i < j < |nodes|
        ensures nodes[i].data != nodes[j].data
      {
        assert i > 0 ==> nodes[1..][i - 1].data != nodes[1..][j - 1].data;
      }
    }

    /** The destroyer has been called once for each departed entry, in order. */
    static ghost predicate DestroyedAre(destroyed: seq<Buffer>, departed: seq<SQ.Departure>) {
      |destroyed| == |departed| && forall i :: 0 <= i < |destroyed| ==> destroyed[i].id == departed[i].entry.id
    }

    /** A list with consistent links that finds its elements by address. */
    static ghost predicate Linked(l: List<Buffer>)
      reads l, l.nodes
    {
      l.finder == SAME && l.Valid()
    }

    ghost predicate Valid()
      reads this, fd, Repr, payloads
      ensures Valid() ==> this in Repr && fd !in Repr
    {
      && this in Repr && fd !in Repr && bufs <= Repr && (forall a :: a in payloads ==> a !in Repr)
      && fd.written == model.wire && armed == model.armed
      && (plistWriting == null <==> !model.listed)
      && (plistWriting == null ==> model.queue == [])
      && (plistWriting != null && model.queue == [] ==> model.position == 0)
      && (plistWriting != null ==>
            && plistWriting in Repr
            && (forall n :: n in plistWriting.nodes ==> n in Repr)
            && Linked(plistWriting) && DestroyedAre(plistWriting.destroyed, model.departed)
            && QueueHolds(plistWriting.nodes, model.queue, model.position, bufs, payloads))
    }

    static lemma DestroyedPush(destroyed: seq<Buffer>, departed: seq<SQ.Departure>, b: Buffer, d: SQ.Departure)
      requires DestroyedAre(destroyed, departed) && b.id == d.entry.id
      ensures DestroyedAre(destroyed + [b], departed + [d])
    {
    }

    /** What the list says about the queue, for callers that need no more of it. */
    lemma QueueFacts()
      requires Valid()
      ensures plistWriting == null <==> !model.listed
      ensures plistWriting == null ==> model.queue == []
      ensures plistWriting != null ==> |plistWriting.nodes| == |model.queue|
      ensures QueueHolds([], [], 0, bufs, payloads)
      ensures plistWriting != null ==> (plistWriting.head == null <==> model.queue == [])
      ensures plistWriting != null && plistWriting.head != null ==> AtHead(plistWriting.head.data)
    {
    }

    constructor (fd: Socket)
      requires fd.written == []
      ensures Valid() && this.fd == fd && model == SQ.NEW_SENDER && Repr == {this} && payloads == {}
    {
      this.fd := fd;
      plistWriting, armed := null, true;
      model := SQ.NEW_SENDER;
      Repr, bufs, payloads := {this}, {}, {};
    }

    /** `dx_write`, once the descriptor's context is found. */
    method Write(buf: array<uint8>, ghost id: nat, discardable: bool, fdClosed: bool) returns (ret: int)
      requires Valid() && buf !in Repr && (plistWriting == null ==> model.departed == [] && model.position == 0)
      modifies Repr
      ensures Valid() && (model, ret) == SQ.Offer(old(model), SQ.Entry(id, buf[..], discardable), fdClosed)
      ensures payloads <= old(payloads) + {buf} && forall o :: o in Repr ==> o in old(Repr) || fresh(o)
    {
      hide QueueHolds, Holds, Valid;
      ghost var e := SQ.Entry(id, buf[..], discardable);
      QueueFacts();
      if plistWriting == null {
        if fdClosed {
          Refuse(e);
          return -1;
        }
        OpenList();
      }
      var sz := Pending();
      if discardable && sz > SQ.REFUSE_ABOVE {
        Refuse(e);
        return 0;
      }
      ListInRepr();
      ghost var n := Enqueue(buf, e);
      return 0;
    }

    lemma ListInRepr()
      requires Valid() && plistWriting != null
      ensures {this, plistWriting} <= Repr && forall n :: n in plistWriting.nodes ==> n in Repr
    {
    }

    /** The list is made for the first packet. */
    method OpenList()
      requires Valid() && plistWriting == null && model.departed == [] && model.position == 0
      modifies this
      ensures Valid() && plistWriting != null && fresh(plistWriting) && plistWriting.nodes == []
      ensures model == old(model).(listed := true) && payloads == old(payloads)
      ensures Repr == old(Repr) + {plistWriting}
    {
      hide Holds;
      plistWriting := new List<Buffer>(SAME);
      model := model.(listed := true);
      Repr := Repr + {plistWriting};
    }

    /** `dx_list_size` on the pending packets. */
    method Pending() returns (sz: nat)
      requires Valid() && plistWriting != null
      ensures sz == |model.queue|
    {
      QueueFacts();
      sz := plistWriting.Size();
    }

    /** Wrap the caller's bytes, append them to the list, and ask for EPOLLOUT. */
    method Enqueue(buf: array<uint8>, ghost e: SQ.Entry) returns (ghost n: Node<Buffer>)
      requires Valid() && plistWriting != null && buf !in Repr && e.bytes == buf[..]
      modifies this`armed, this`model, this`Repr, this`bufs, this`payloads, plistWriting, plistWriting.nodes
      ensures Valid() && model == SQ.Accept(old(model), e)
      ensures payloads == old(payloads) + {buf} && fresh(n) && fresh(n.data) && Repr == old(Repr) + {n.data, n}
    {
      hide QueueHolds, Holds, DestroyedAre, Linked;
      ghost var before := plistWriting.nodes;
      QueueFacts();
      n := Append(buf, e);
      armed := true;
      Record(before, n, e);
    }

    /** The account of a list that has just grown by `n`. */
    ghost method Record(before: seq<Node<Buffer>>, n: Node<Buffer>, e: SQ.Entry)
      requires this in Repr && fd !in Repr && bufs <= Repr && (forall a :: a in payloads ==> a !in Repr)
      requires fd.written == model.wire && armed && model.listed && (before == [] ==> model.position == 0)
      requires plistWriting != null && plistWriting in Repr && plistWriting.nodes == before + [n]
      requires Linked(plistWriting) && DestroyedAre(plistWriting.destroyed, model.departed)
      requires (forall m :: m in before ==> m in Repr) && n.data !in bufs && n.data.data !in Repr
      requires QueueHolds(before, model.queue, model.position, bufs, payloads) && Holds(n.data, e, 0)
      modifies this`model, this`Repr, this`bufs, this`payloads
      ensures Valid() && model == SQ.Accept(old(model), e)
      ensures payloads == old(payloads) + {n.data.data} && Repr == old(Repr) + {n.data, n}
    {
      hide QueueHolds, Holds, DestroyedAre, Linked;
      QueuePush(before, model.queue, model.position, bufs, payloads, n, e);
      model := SQ.Accept(model, e);
      Repr, bufs, payloads := Repr + {n.data, n}, bufs + {n.data}, payloads + {n.data.data};
    }

    /** The list grows by a fresh wrapped buffer; nothing it already held changes. */
    method Append(buf: array<uint8>, ghost e: SQ.Entry) returns (ghost n: Node<Buffer>)
      requires Valid() && plistWriting != null && e.bytes == buf[..]
      modifies plistWriting, plistWriting.nodes
      ensures Linked(plistWriting) && plistWriting.destroyed == old(plistWriting.destroyed)
      ensures plistWriting.nodes == old(plistWriting.nodes) + [n]
      ensures fresh(n) && fresh(n.data) && n.data.data == buf && Holds(n.data, e, 0)
      ensures QueueHolds(old(plistWriting.nodes), model.queue, model.position, bufs, payloads)
    {
      hide QueueHolds;
      var pbuf := new Buffer.Wrap(buf, e.id);
      plistWriting.Add(pbuf);
      n := plistWriting.nodes[|old(plistWriting.nodes)|];
      assert plistWriting.nodes == old(plistWriting.nodes) + [n];
    }

    /** The buffers freed so far are those of the departed entries, then those of `queue`. */
    static ghost predicate Freed(destroyed: seq<Buffer>, departed: seq<SQ.Departure>, queue: seq<SQ.Entry>) {
      && |destroyed| == |departed| + |queue|
      && (forall i :: 0 <= i < |departed| ==> destroyed[i].id == departed[i].entry.id)
      && (forall i :: 0 <= i < |queue| ==> destroyed[|departed| + i].id == queue[i].id)
    }

    static lemma FreedAll(nodes: seq<Node<Buffer>>, queue: seq<SQ.Entry>, position: nat, bufs: set<Buffer>,
                          arrays: set<array<uint8>>, destroyed: seq<Buffer>, departed: seq<SQ.Departure>)
      requires QueueHolds(nodes, queue, position, bufs, arrays) && DestroyedAre(destroyed, departed)
      ensures Freed(destroyed + List<Buffer>.Data(nodes), departed, queue)
    {
    }

    /** `dx_write` when no context is found: only the account of buffers changes. */
    ghost method Refuse(e: SQ.Entry)
      requires Valid()
      modifies this`model
      ensures Valid() && model == SQ.Refuse(old(model), e)
    {
      hide QueueHolds, DestroyedAre, Linked;
      model := SQ.Refuse(model, e);
    }

    lemma SameMatchesItself()
      requires Valid() && plistWriting != null
      ensures plistWriting.Valid() && forall n :: n in plistWriting.nodes ==> plistWriting.finder(n.data, n.data)
    {
    }

    /** `dx_list_close` on the list of pending buffers. */
    method CloseList()
      requires Valid() && plistWriting != null
      modifies plistWriting, plistWriting.nodes
      ensures Freed(plistWriting.destroyed, model.departed, model.queue)
    {
      FreedAll(plistWriting.nodes, model.queue, model.position, bufs, payloads,
               plistWriting.destroyed, model.departed);
      hide QueueHolds, Holds, DestroyedAre, Freed, Valid;
      SameMatchesItself();
      ghost var all := plistWriting.destroyed + plistWriting.Contents();
      plistWriting.Clear();
      assert plistWriting.destroyed == all;
    }

    /** The release of the list in the context's destroyer: every queued buffer is freed once. */
    method Teardown()
      requires Valid()
      modifies Repr
      ensures Valid() && plistWriting == null && Repr == old(Repr) && payloads == old(payloads)
      ensures model == SQ.Teardown(old(model))
      ensures old(plistWriting) != null ==> Freed(old(plistWriting).destroyed, old(model).departed, old(model).queue)
    {
      QueueFacts();
      hide QueueHolds, Holds, Freed, DestroyedAre, Linked;
      if plistWriting != null {
        CloseList();
      }
      plistWriting := null;
      armed := false;
      model := SQ.Teardown(model);
    }

    /** The buffer at the head of a nonempty list. */
    ghost predicate AtHead(pbuf: Buffer)
      reads this, plistWriting
    {
      plistWriting != null && plistWriting.nodes != [] && plistWriting.nodes[0].data == pbuf
    }

    ghost predicate RestHolds()
      reads this, plistWriting, bufs, payloads
      requires plistWriting != null && plistWriting.nodes != [] && model.queue != []
    {
      QueueHolds(plistWriting.nodes[1..], model.queue[1..], 0, bufs - {plistWriting.nodes[0].data}, payloads)
    }

    lemma SplitHead(pbuf: Buffer)
      requires Valid() && AtHead(pbuf)
      ensures model.queue != [] && Holds(pbuf, model.queue[0], model.position)
      ensures pbuf in bufs && pbuf.data in payloads && RestHolds() && pbuf.id == model.queue[0].id
    {
      QueuePop(plistWriting.nodes, model.queue, model.position, bufs, payloads);
    }

    /** The list half of `Valid`, but for what it says of the queued buffers. */
    ghost predicate ListOk()
      reads this, plistWriting, if plistWriting == null then [] else plistWriting.nodes
    {
      && plistWriting != null && model.listed && plistWriting in Repr
      && (forall n :: n in plistWriting.nodes ==> n in Repr)
      && Linked(plistWriting) && DestroyedAre(plistWriting.destroyed, model.departed)
    }

    /** One `write` of the head buffer's remaining bytes. */
    method WriteHead(pbuf: Buffer) returns (n: int)
      requires Valid() && AtHead(pbuf)
      modifies fd, pbuf, this`model
      ensures Valid() && AtHead(pbuf)
      ensures var room := |old(model.queue)[0].bytes| - old(model.position);
        && n == Moved(Next(old(fd.writeAnswers)), room)
        && model == (if n > 0 then SQ.Push(old(model), n) else old(model))
        && (pbuf.position == pbuf.limit <==> model.position == |model.queue[0].bytes|)
      ensures fd.writeAnswers == Rest(old(fd.writeAnswers)) && fd.again == Next(old(fd.writeAnswers)).Again?
    {
      SplitHead(pbuf);
      hide QueueHolds, DestroyedAre, Linked;
      n := MoveHead(pbuf);
      if n > 0 {
        model := SQ.Push(model, n);
      }
      Pushed(pbuf);
    }

    /** The buffer's and the descriptor's half of it. */
    method MoveHead(pbuf: Buffer) returns (n: int)
      requires pbuf.Valid()
      modifies fd, pbuf
      ensures pbuf.Valid() && pbuf.limit == old(pbuf.limit)
      ensures n == Moved(Next(old(fd.writeAnswers)), pbuf.limit - old(pbuf.position))
      ensures pbuf.position == old(pbuf.position) + (if n > 0 then n else 0)
      ensures fd.written == old(fd.written) + pbuf.data[old(pbuf.position)..pbuf.position]
      ensures fd.writeAnswers == Rest(old(fd.writeAnswers)) && fd.again == Next(old(fd.writeAnswers)).Again?
    {
      n := fd.Write(pbuf.data, pbuf.position, pbuf.limit);
      if n > 0 {
        pbuf.StepForward(n);
      }
    }

    /** The head has moved on; the rest of the queue has not. */
    lemma Pushed(pbuf: Buffer)
      requires this in Repr && fd !in Repr && bufs <= Repr && (forall a :: a in payloads ==> a !in Repr)
      requires fd.written == model.wire && armed == model.armed && ListOk() && AtHead(pbuf) && model.queue != []
      requires pbuf in bufs && pbuf.data in payloads && RestHolds() && Holds(pbuf, model.queue[0], model.position)
      ensures Valid()
    {
      hide QueueHolds, Holds, DestroyedAre, Linked;
      QueueUnpop(plistWriting.nodes, model.queue, model.position, bufs, payloads);
    }

    /** `send_buffer_done`: the head leaves the list and the destroyer frees it. */
    method RemoveHead(pbuf: Buffer, ghost d: SQ.Departure)
      requires Valid() && AtHead(pbuf) && model.queue != [] && d.entry == model.queue[0]
      modifies this`model, this`bufs, plistWriting, plistWriting.nodes
      ensures Valid() && model == SQ.Remove(old(model), d) && plistWriting == old(plistWriting)
      ensures plistWriting.nodes == old(plistWriting.nodes)[1..] && bufs <= old(bufs)
    {
      SplitHead(pbuf);
      ghost var before := plistWriting.nodes;
      DestroyedPush(plistWriting.destroyed, model.departed, pbuf, d);
      hide QueueHolds, Holds, DestroyedAre, Linked;
      CutHead(pbuf);
      Removed(before, pbuf, d);
    }

    /** The list's own half of it. */
    method CutHead(ghost pbuf: Buffer)
      requires plistWriting != null && Linked(plistWriting) && AtHead(pbuf)
      modifies plistWriting, plistWriting.nodes
      ensures Linked(plistWriting) && plistWriting.nodes == old(plistWriting.nodes)[1..]
      ensures plistWriting.destroyed == old(plistWriting.destroyed) + [pbuf]
    {
      plistWriting.RemoveHead();
    }

    /** The account of a list that has just lost its head. */
    ghost method Removed(before: seq<Node<Buffer>>, pbuf: Buffer, d: SQ.Departure)
      requires this in Repr && fd !in Repr && bufs <= Repr && (forall a :: a in payloads ==> a !in Repr)
      requires fd.written == model.wire && armed == model.armed && model.listed
      requires plistWriting != null && plistWriting in Repr && Linked(plistWriting)
      requires before != [] && before[0].data == pbuf && plistWriting.nodes == before[1..]
      requires (forall n :: n in before ==> n in Repr) && model.queue != [] && pbuf in bufs
      requires DestroyedAre(plistWriting.destroyed, model.departed + [d])
      requires QueueHolds(before[1..], model.queue[1..], 0, bufs - {pbuf}, payloads)
      modifies this`model, this`bufs
      ensures Valid() && model == SQ.Remove(old(model), d) && bufs <= old(bufs)
    {
      hide QueueHolds, Holds, DestroyedAre, Linked;
      bufs := bufs - {pbuf};
      model := SQ.Remove(model, d);
    }

    /** The test that lets the poller drop the head. */
    method HeadIsDroppable(pbuf: Buffer) returns (drop: bool)
      requires Valid() && AtHead(pbuf)
      ensures drop == SQ.Droppable(model)
    {
      SplitHead(pbuf);
      QueueFacts();
      hide QueueHolds, DestroyedAre, Linked;
      drop := false;
      var sz := plistWriting.Size();
      if pbuf.position == 0 && sz > SQ.DROP_ABOVE {
        drop := HEADER_SIZE <= pbuf.capacity && pbuf.data[7] as int % 2 == FLAG_DISCARDABLE;
      }
    }

    method Disarm()
      requires Valid()
      modifies this`armed, this`model
      ensures Valid() && model == SQ.Disarm(old(model))
    {
      hide QueueHolds, DestroyedAre, Linked;
      armed := false;
      model := SQ.Disarm(model);
    }

    /** `dx_write_by_poller` */
    method WriteByPoller() returns (ret: int)
      requires Valid()
      modifies Repr, fd
      ensures Valid() && SQ.HeadFits(old(model))
      ensures var p := SQ.Poll(old(model), old(fd.writeAnswers));
        && model == p.sender && ret == p.ret && fd.writeAnswers == p.script
        && (ret < 0 ==> fd.again == p.again)
      ensures Repr == old(Repr) && payloads == old(payloads)
    {
      QueueFacts();
      if plistWriting == null || plistWriting.head == null {
        Disarm();
        return 0;
      }
      ret := PollNodes(plistWriting.head.data);
    }

    /** The poller's loop, from the head of a nonempty list. */
    method PollNodes(head: Buffer) returns (ret: int)
      requires Valid() && AtHead(head)
      modifies Repr, fd
      ensures Valid() && old(model).queue != [] && SQ.HeadFits(old(model))
      ensures var p := SQ.PollLoop(old(model), old(fd.writeAnswers), 0);
        && model == p.sender && ret == p.ret && fd.writeAnswers == p.script
        && (ret < 0 ==> fd.again == p.again)
      ensures Repr == old(Repr) && payloads == old(payloads)
    {
      hide Valid, SQ.PollLoop;
      HeadFitsNow(head);
      var pbuf, more := head, true;
      ret := 0;
      ghost var goal := SQ.PollLoop(model, fd.writeAnswers, 0);
      while more
        invariant Valid() && Repr == old(Repr) && payloads == old(payloads)
        invariant more ==> AtHead(pbuf) && model.queue != [] && SQ.HeadFits(model)
        invariant more ==> SQ.PollLoop(model, fd.writeAnswers, ret) == goal
        invariant !more ==> model == goal.sender && ret == goal.ret && fd.writeAnswers == goal.script
        invariant !more ==> (ret < 0 ==> fd.again == goal.again)
        decreases more, |model.queue|
      {
        ret, more := PollHead(pbuf, ret);
        if more {
          pbuf := plistWriting.head.data;
        }
      }
    }

    /** One turn of the loop: `more` says that it goes on with the new head, `ret` bytes being moved. */
    method PollHead(pbuf: Buffer, twrite: int) returns (ret: int, more: bool)
      requires Valid() && AtHead(pbuf)
      modifies Repr, fd
      ensures Valid() && Repr == old(Repr) && payloads == old(payloads)
      ensures old(model).queue != [] && SQ.HeadFits(old(model))
      ensures var p := SQ.PollLoop(old(model), old(fd.writeAnswers), twrite);
        if more then
          && plistWriting != null && plistWriting.head != null && AtHead(plistWriting.head.data)
          && model.queue != [] && SQ.HeadFits(model) && |model.queue| < |old(model).queue|
          && SQ.PollLoop(model, fd.writeAnswers, ret) == p
        else
          && model == p.sender && ret == p.ret && fd.writeAnswers == p.script
          && (ret < 0 ==> fd.again == p.again)
    {
      hide Valid, SQ.PollLoop, Linked, RestHolds;
      HeadFitsNow(pbuf);
      SQ.UnfoldPoll(model, fd.writeAnswers, twrite);
      ret := twrite;
      var drop := HeadIsDroppable(pbuf);
      if drop {
        RemoveHead(pbuf, SQ.Dropped(model.queue[0], |model.queue| - 1));
      } else {
        var n := WriteHead(pbuf);
        if n <= 0 {
          return n, false;
        }
        ret := twrite + n;
        if pbuf.limit - pbuf.position != 0 {
          return n, false;
        }
        RemoveHead(pbuf, SQ.Sent(model.queue[0]));
      }
      more := NextHead();
    }

    /** What follows a removal: the next head, or none and no more EPOLLOUT. */
    method NextHead() returns (more: bool)
      requires Valid() && plistWriting != null
      modifies this`armed, this`model
      ensures Valid() && (more <==> old(model).queue != [])
      ensures model == if more then old(model) else SQ.Disarm(old(model))
      ensures more ==> plistWriting.head != null && AtHead(plistWriting.head.data) && SQ.HeadFits(model)
    {
      QueueFacts();
      hide Valid;
      more := plistWriting.head != null;
      if more {
        HeadFitsNow(plistWriting.head.data);
      } else {
        Disarm();
      }
    }

    lemma HeadFitsNow(pbuf: Buffer)
      requires Valid() && AtHead(pbuf)
      ensures model.queue != [] && SQ.HeadFits(model)
      ensures {this, pbuf, plistWriting} <= Repr && forall n :: n in plistWriting.nodes ==> n in Repr
    {
      SplitHead(pbuf);
    }
  }

  /** The receive side: `pbuf_reading` and the descriptor. */
  class PacketReader {
    const fd: Socket
    var pbufReading: Buffer?

    /** The reader on values that this object implements. */
    ghost var model: RA.Reader
    ghost var Repr: set<object>

    ghost predicate Valid()
      reads this, fd, Repr
      ensures Valid() ==> this in Repr && fd !in Repr
    {
      && this in Repr && fd !in Repr
      && (pbufReading == null ==> model == RA.NEW_READER)
      && (pbufReading != null ==>
            && pbufReading in Repr && pbufReading.data in Repr && pbufReading.Valid()
            && model == RA.Reader(true, pbufReading.data[..pbufReading.position],
                                  pbufReading.limit, pbufReading.capacity))
    }

    constructor (fd: Socket)
      ensures Valid() && this.fd == fd && model == RA.NEW_READER && Repr == {this}
    {
      this.fd := fd;
      pbufReading, model, Repr := null, RA.NEW_READER, {this};
    }

    /** The length field is complete: lower or raise the limit, or move to a larger buffer. */
    method SizeFor(len: nat)
      requires Valid() && pbufReading != null
      requires LENGTH_SIZE == pbufReading.position <= len && pbufReading.position <= pbufReading.capacity
      modifies this, pbufReading
      ensures Valid() && pbufReading != null && model == RA.Sized(old(model), len)
      ensures forall o :: o in Repr ==> o in old(Repr) || fresh(o)
    {
      var pbuf := pbufReading;
      if pbuf.capacity < len {
        pbufReading := new Buffer.Alloc(len);
        var _ := pbufReading.Put(pbuf.data, LENGTH_SIZE);
        Repr := Repr + {pbufReading, pbufReading.data};
      } else {
        pbuf.SetLimit(len);
      }
      model := RA.Sized(model, len);
    }

    /** The read for the rest of the packet. */
    method ReadBody(tread: nat, ghost stream: seq<uint8>) returns (ret: int, packet: Option<seq<uint8>>)
      requires Valid() && pbufReading != null
      requires tread <= |stream| && fd.waiting == stream[tread..]
      modifies this`model, pbufReading, pbufReading.data, fd
      ensures Valid() && |old(model).filled| <= old(model).limit
      ensures var v := RA.ReceiveBody(old(model), stream, old(fd.readAnswers), tread);
        && model == v.reader && ret == v.ret && packet == v.packet && v.taken <= |stream|
        && fd.waiting == stream[v.taken..]
      ensures fd.written == old(fd.written) && fd.writeAnswers == old(fd.writeAnswers)
    {
      var pbuf := pbufReading;
      packet := None;
      var nread := pbuf.ReadFrom(fd);
      if nread < 0 {
        pbuf.Clear();
        model := RA.Clear(model);
        return nread, None;
      }
      TakeMore(stream, tread, nread);
      assert stream[tread..][..nread] == stream[tread..tread + nread];
      var got := pbuf.data[..pbuf.position];
      assert got == model.filled + stream[tread..tread + nread];
      model := model.(filled := got);
      if pbuf.limit - pbuf.position == 0 {
        packet := Some(got);
        pbuf.Clear();
        model := RA.Clear(model);
      }
      ret := tread + nread;
    }

    /** `dx_receive_packet`. The peer's next length field must be able to size a buffer. */
    method ReceivePacket() returns (ret: int, packet: Option<seq<uint8>>)
      requires Valid() && RA.ReaderOk(model) && HeaderOk(model.filled + fd.waiting)
      modifies Repr, fd
      ensures Valid()
      ensures var v := RA.Receive(old(model), old(fd.waiting), old(fd.readAnswers));
        && model == v.reader && ret == v.ret && packet == v.packet && v.taken <= |old(fd.waiting)|
        && fd.waiting == old(fd.waiting)[v.taken..]
      ensures fd.written == old(fd.written) && fd.writeAnswers == old(fd.writeAnswers)
      ensures forall o :: o in Repr ==> o in old(Repr) || fresh(o)
    {
      hide RA.ReceiveBody;
      RA.ReceiveUnfolds(model, fd.waiting, fd.readAnswers);
      if pbufReading == null || pbufReading.position < LENGTH_SIZE {
        ret, packet := ReceiveFromStart();
      } else {
        hide RA.Receive, RA.ReaderOk, HeaderOk;
        ret, packet := ReadBody(0, fd.waiting);
      }
    }

    /** A call that has to read the length field, or the rest of it, first. */
    method ReceiveFromStart() returns (ret: int, packet: Option<seq<uint8>>)
      requires Valid() && RA.ReaderOk(model) && HeaderOk(model.filled + fd.waiting) && |model.filled| < LENGTH_SIZE
      modifies Repr, fd
      ensures Valid()
      ensures var v := RA.Receive(old(model), old(fd.waiting), old(fd.readAnswers));
        && model == v.reader && ret == v.ret && packet == v.packet && v.taken <= |old(fd.waiting)|
        && fd.waiting == old(fd.waiting)[v.taken..]
      ensures fd.written == old(fd.written) && fd.writeAnswers == old(fd.writeAnswers)
      ensures forall o :: o in Repr ==> o in old(Repr) || fresh(o)
    {
      hide RA.ReceiveBody;
      ghost var stream := fd.waiting;
      RA.ReceiveUnfolds(model, stream, fd.readAnswers);
      hide RA.Receive, HeaderOk;
      AllocateIfNone();
      var tread := ReadLength();
      if tread <= 0 {
        return tread, None;
      }
      if pbufReading.position < LENGTH_SIZE {
        return tread, None;
      }
      SizeFor(Ntohl(pbufReading.data[..LENGTH_SIZE]));
      ret, packet := ReadBody(tread, stream);
    }

    method AllocateIfNone()
      requires Valid() && RA.ReaderOk(model)
      modifies this
      ensures Valid() && pbufReading != null && model == RA.Allocated(old(model))
      ensures forall o :: o in Repr ==> o in old(Repr) || fresh(o)
    {
      if pbufReading == null {
        pbufReading := new Buffer.Alloc(HEADER_SIZE);
        model := RA.Reader(true, [], HEADER_SIZE, HEADER_SIZE);
        Repr := Repr + {pbufReading, pbufReading.data};
      }
    }

    /** The read for what is missing of the length field. */
    method ReadLength() returns (n: int)
      requires Valid() && pbufReading != null && pbufReading.position < LENGTH_SIZE <= pbufReading.limit
      modifies this`model, pbufReading, pbufReading.data, fd
      ensures Valid()
      ensures n == Moved(Next(old(fd.readAnswers)), Min(LENGTH_SIZE - |old(model).filled|, |old(fd.waiting)|))
      ensures n <= 0 ==> model == old(model) && fd.waiting == old(fd.waiting)
      ensures n > 0 ==> model == old(model).(filled := old(model).filled + old(fd.waiting)[..n])
      ensures n > 0 ==> fd.waiting == old(fd.waiting)[n..]
      ensures fd.readAnswers == Rest(old(fd.readAnswers))
      ensures fd.written == old(fd.written) && fd.writeAnswers == old(fd.writeAnswers)
    {
      n := pbufReading.NreadFrom(LENGTH_SIZE - pbufReading.position, fd);
      model := model.(filled := pbufReading.data[..pbufReading.position]);
    }
  }

  /** One event context with its descriptor: the handlers that server and client share. */
  class EventContext {
    /** The descriptor's number, by which contexts are looked up, and what it connects to. */
    const number: int
    const fd: Socket
    const writer: Writer
    const reader: PacketReader
    var alive: bool

    /** The endpoint on values that this context implements. */
    ghost var model: CN.Endpoint

    ghost predicate Valid()
      reads this, fd, writer, reader, writer.Repr, writer.payloads, reader.Repr
    {
      && writer.fd == fd && reader.fd == fd && writer.Valid() && reader.Valid()
      && this !in writer.Repr && this !in reader.Repr && writer.Repr !! reader.Repr
      && (forall a :: a in writer.payloads ==> a !in reader.Repr)
      && alive == model.alive
      && model.sender == writer.model
      && (alive ==> model.reader == reader.model)
      && (alive && writer.plistWriting == null ==> writer.model.departed == [] && writer.model.position == 0)
    }

    constructor (number: int, fd: Socket)
      requires fd.written == []
      ensures Valid() && this.number == number && this.fd == fd && model == CN.NEW_ENDPOINT
      ensures fresh(writer) && fresh(reader) && writer.Repr == {writer} && reader.Repr == {reader}
      ensures writer.payloads == {} && alive
    {
      this.number, this.fd := number, fd;
      var w := new Writer(fd);
      var r := new PacketReader(fd);
      writer, reader, alive, model := w, r, true, CN.NEW_ENDPOINT;
    }

    /** `dx_write` on this context's descriptor; a deleted context is not found. */
    method Write(buf: array<uint8>, ghost id: nat, discardable: bool, fdClosed: bool) returns (ret: int)
      requires Valid() && buf !in writer.Repr && buf !in reader.Repr
      modifies this, writer.Repr
      ensures Valid()
      ensures (model, ret) == CN.Write(old(model), SQ.Entry(id, buf[..], discardable), fdClosed)
    {
      hide Writer.QueueHolds, Writer.DestroyedAre, Writer.Linked;
      if !alive {
        writer.Refuse(SQ.Entry(id, buf[..], discardable));
        ret := -1;
      } else {
        ret := writer.Write(buf, id, discardable, fdClosed);
      }
      model := model.(sender := writer.model);
    }

    /** The first writable event: nothing was queued yet, so CONNECT is. */
    method SendConnect(ghost id: nat, fdClosed: bool) returns (ghost connect: SQ.Entry)
      requires Valid() && alive && writer.plistWriting == null
      modifies this, writer.Repr
      ensures Valid() && SQ.HeadFits(old(model).sender) && CN.IsConnect(connect)
      ensures (model, 0) == CN.Writable(old(model), connect, fdClosed, [])
    {
      hide Writer.QueueHolds, Writer.DestroyedAre, Writer.Linked;
      var event := NewPrimitive32(TYPE_EVENT, CODE_CONNECT, 0);
      connect := SQ.Entry(id, event[..], false);
      writer.Disarm();
      var _ := writer.Write(event, id, false, fdClosed);
      model := model.(
        sender := writer.model,
        connects := if writer.model.listed then model.connects + [|model.sender.accepted|] else model.connects);
    }

    /** `dx_server_writable_handler`, `dx_client_writable_handler`. */
    method WritableHandler(ghost id: nat, fdClosed: bool) returns (ret: int, ghost connect: SQ.Entry)
      requires Valid() && alive
      modifies this, fd, writer.Repr
      ensures Valid() && SQ.HeadFits(old(model).sender)
      ensures !old(model).sender.listed ==> CN.IsConnect(connect)
      ensures (model, ret) == CN.Writable(old(model), connect, fdClosed, old(fd.writeAnswers))
    {
      hide Writer.QueueHolds, Writer.DestroyedAre, Writer.Linked, SQ.Poll;
      if writer.plistWriting == null {
        connect := SendConnect(id, fdClosed);
        return 0, connect;
      }
      connect := SQ.Entry(id, [], false);
      ret := writer.WriteByPoller();
      SQ.PollGrows(old(model).sender, old(fd.writeAnswers));
      model := model.(sender := writer.model);
      if ret < 0 && !fd.again {
        Delete();
        ret := -2;
      }
    }

    /** `dx_del_event_context` and the context's destroyer. */
    method Delete()
      requires Valid() && alive
      modifies this, writer.Repr
      ensures Valid() && model == CN.Delete(old(model))
    {
      hide Writer.QueueHolds;
      writer.Teardown();
      alive := false;
      model := CN.Delete(model);
    }

    /** `dx_server_readable_handler`, `dx_client_readable_handler`; the user handler's calls are
        the model's `handled`. The peer's next length field must be able to size a buffer. */
    method ReadableHandler()
      requires Valid() && alive
      requires RA.ReaderOk(model.reader) && HeaderOk(model.reader.filled + fd.waiting)
      modifies this, fd, writer.Repr, reader.Repr
      ensures Valid() && model == CN.Readable(old(model), old(fd.waiting), old(fd.readAnswers))
    {
      hide Writer.QueueHolds, Writer.DestroyedAre, Writer.Linked, RA.Receive, RA.ReaderOk, HeaderOk;
      ghost var stream, script := fd.waiting, fd.readAnswers;
      ghost var v := RA.Receive(model.reader, stream, script);
      var ret, packet := reader.ReceivePacket();
      model := CN.Taken(model, stream, v);
      if ret <= 0 {
        model := model.(handled := model.handled + [CN.Disconnect]);
        Delete();
      } else if packet.Some? {
        model := model.(handled := model.handled + [CN.Packet(packet.value)]);
      }
    }
  }
}
