/** A connection end to end: the writable and readable handlers shared by server and
    client, and two endpoints joined by the two byte streams of a socket. */
module Connection {
  import opened Bytes
  import opened Framing
  import opened Kernel
  import opened Packets
  import opened SendQueue
  import opened Reassembly

  /** What the user's event handler is called with. */
  datatype Delivery = Packet(bytes: seq<uint8>) | Disconnect

  /** One event context. `received` is every byte read, `packets` and `pending` its division
      into delivered packets and the rest, `handled` the user handler's calls in order, and
      `connects` the places of library-made CONNECT packets among the accepted entries. */
  datatype Endpoint = Endpoint(
    alive: bool,
    sender: Sender,
    reader: Reader,
    received: seq<uint8>,
    packets: seq<seq<uint8>>,
    pending: seq<uint8>,
    handled: seq<Delivery>,
    connects: seq<nat>)

  const NEW_ENDPOINT := Endpoint(true, NEW_SENDER, NEW_READER, [], [], [], [], [])

  /** The packet of `dx_packet_send_event_u32(fd, DX_EVT_CONNECT, 0)`; its flags are whatever
      the allocation held. */
  predicate IsConnect(e: Entry) {
    && Framed(e.bytes) && !e.discardable && |e.bytes| == PRIMITIVE_SIZE
    && HasHeader(e.bytes, PRIMITIVE_SIZE, TYPE_EVENT, CODE_CONNECT, DATA_PRIMITIVE)
    && Ntohl(e.bytes[8..12]) == 0
  }

  // ---------- the handlers

  /** Deleting a context frees its buffers; later calls on the descriptor find none. */
  function Delete(ep: Endpoint): Endpoint {
    ep.(alive := false, sender := Teardown(ep.sender), reader := NEW_READER)
  }

  /** `dx_write` on the endpoint's descriptor. */
  function Write(ep: Endpoint, e: Entry, fdClosed: bool): (Endpoint, int) {
    if !ep.alive then
      (ep.(sender := Refuse(ep.sender, e)), -1)
    else
      var (s, ret) := Offer(ep.sender, e, fdClosed);
      (ep.(sender := s), ret)
  }

  /** `dx_server_writable_handler` and `dx_client_writable_handler`. */
  function Writable(ep: Endpoint, connect: Entry, fdClosed: bool, script: seq<Outcome>): (Endpoint, int)
    requires HeadFits(ep.sender)
  {
    if !ep.sender.listed then
      var (s, _) := Offer(Disarm(ep.sender), connect, fdClosed);
      (ep.(sender := s,
           connects := if s.listed then ep.connects + [|ep.sender.accepted|] else ep.connects), 0)
    else
      var p := Poll(ep.sender, script);
      if p.ret < 0 && !p.again then
        (Delete(ep.(sender := p.sender)), -2)
      else
        (ep.(sender := p.sender), p.ret)
  }

  /** `dx_server_readable_handler` and `dx_client_readable_handler`, `stream` being what waits. */
  function Readable(ep: Endpoint, stream: seq<uint8>, script: seq<Outcome>): Endpoint
    requires ReaderOk(ep.reader) && HeaderOk(ep.reader.filled + stream)
  {
    ReceiveExplained(ep.reader, stream, script);
    var v := Receive(ep.reader, stream, script);
    var read := Taken(ep, stream, v);
    if v.ret <= 0 then
      Delete(read.(handled := ep.handled + [Disconnect]))
    else if v.packet.Some? then
      read.(handled := ep.handled + [Packet(v.packet.value)])
    else
      read
  }

  // ---------- invariants of one endpoint

  function Calls(packets: seq<seq<uint8>>): seq<Delivery> {
    if packets == [] then [] else Calls(packets[..|packets| - 1]) + [Packet(packets[|packets| - 1])]
  }

  predicate SenderOk(ep: Endpoint) {
    && Inv(ep.sender)
    && (ep.alive ==> ep.sender.abandoned == [])
    && (!ep.alive ==> ep.sender.queue == [] && !ep.sender.listed)
  }

  predicate FramedEntries(es: seq<Entry>) {
    forall i :: 0 <= i < |es| ==> Framed(es[i].bytes)
  }

  /** At most one CONNECT, and nothing was accepted before it. */
  predicate ConnectFirst(ep: Endpoint) {
    && (ep.alive && !ep.sender.listed ==> ep.sender.accepted == [] && ep.connects == [])
    && (ep.connects == [] || (ep.connects == [0] && ep.sender.accepted != [] && IsConnect(ep.sender.accepted[0])))
  }

  /** At most one DISCONNECT, and nothing after it. */
  predicate DisconnectLast(ep: Endpoint) {
    || ep.handled == Calls(ep.packets)
    || (!ep.alive && ep.handled == Calls(ep.packets) + [Disconnect])
  }

  predicate InputOk(ep: Endpoint) {
    && ReaderOk(ep.reader) && Delimited(ep.packets)
    && ep.received == Concat(ep.packets) + ep.pending
    && (ep.alive ==> ep.pending == ep.reader.filled)
  }

  predicate EndpointOk(ep: Endpoint) {
    && SenderOk(ep) && FramedEntries(ep.sender.accepted)
    && ConnectFirst(ep) && DisconnectLast(ep) && InputOk(ep)
  }

  lemma HeadFitsOf(ep: Endpoint)
    requires EndpointOk(ep)
    ensures HeadFits(ep.sender) && Inv(ep.sender)
  {
    assert Shape(ep.sender) by {
      WireHasShape(ep.sender);
    }
  }

  lemma DeleteKeeps(ep: Endpoint)
    requires SenderOk(ep) && ep.alive
    ensures SenderOk(Delete(ep))
    ensures multiset(Delete(ep).sender.freed) == multiset(Delete(ep).sender.offered)
  {
    TeardownKeeps(ep.sender);
  }

  /** Acceptance appends: earlier entries, the first one included, stay where they are. */
  lemma AcceptedPush(ep: Endpoint, e: Entry, s: Sender)
    requires FramedEntries(ep.sender.accepted) && ConnectFirst(ep) && Framed(e.bytes)
    requires s == Accept(ep.sender, e)
    ensures FramedEntries(s.accepted) && ConnectFirst(ep.(sender := s))
  {
    assert ep.sender.accepted != [] ==> s.accepted[0] == ep.sender.accepted[0];
  }

  lemma WriteKeeps(ep: Endpoint, e: Entry, fdClosed: bool)
    requires EndpointOk(ep) && Framed(e.bytes)
    ensures EndpointOk(Write(ep, e, fdClosed).0)
    ensures Write(ep, e, fdClosed).0.sender.wire == ep.sender.wire
    ensures Write(ep, e, fdClosed).0.received == ep.received
  {
    if !ep.alive {
      RefuseKeeps(ep.sender, e);
    } else {
      OfferKeeps(ep.sender, e, fdClosed);
      if Write(ep, e, fdClosed).0.sender == Accept(ep.sender, e) {
        AcceptedPush(ep, e, Accept(ep.sender, e));
      }
    }
  }

  lemma DisarmKeeps(s: Sender)
    requires Inv(s) && !s.listed
    ensures Inv(Disarm(s))
  {
    assert Backlog(Disarm(s)) == Backlog(s);
  }

  lemma ConnectKeeps(ep: Endpoint, connect: Entry, fdClosed: bool, script: seq<Outcome>)
    requires EndpointOk(ep) && ep.alive && !ep.sender.listed && IsConnect(connect)
    ensures EndpointOk(Writable(ep, connect, fdClosed, script).0)
    ensures Writable(ep, connect, fdClosed, script).0.sender.wire == ep.sender.wire
  {
    var quiet := Disarm(ep.sender);
    hide Inv, ReaderOk, Delimited, Concat, Calls, Framed;
    DisarmKeeps(ep.sender);
    OfferKeeps(quiet, connect, fdClosed);
    assert ep.sender.accepted == [];
    if Offer(quiet, connect, fdClosed).0 == Accept(quiet, connect) {
      assert Accept(quiet, connect).accepted == [connect];
    }
  }

  lemma PolledKeeps(ep: Endpoint, connect: Entry, fdClosed: bool, script: seq<Outcome>)
    requires EndpointOk(ep) && ep.alive && ep.sender.listed
    ensures HeadFits(ep.sender) && EndpointOk(Writable(ep, connect, fdClosed, script).0)
    ensures ep.sender.wire <= Writable(ep, connect, fdClosed, script).0.sender.wire
    ensures Writable(ep, connect, fdClosed, script).0.received == ep.received
  {
    HeadFitsOf(ep);
    hide Inv, Poll, FramedEntries, IsConnect, ReaderOk, Delimited, Concat, Calls;
    PollKeeps(ep.sender, script);
    PollGrows(ep.sender, script);
    DeleteKeeps(ep.(sender := Poll(ep.sender, script).sender));
  }

  lemma WritableKeeps(ep: Endpoint, connect: Entry, fdClosed: bool, script: seq<Outcome>)
    requires EndpointOk(ep) && ep.alive && IsConnect(connect)
    ensures HeadFits(ep.sender) && EndpointOk(Writable(ep, connect, fdClosed, script).0)
    ensures ep.sender.wire <= Writable(ep, connect, fdClosed, script).0.sender.wire
    ensures Writable(ep, connect, fdClosed, script).0.received == ep.received
  {
    if !ep.sender.listed {
      ConnectKeeps(ep, connect, fdClosed, script);
    } else {
      PolledKeeps(ep, connect, fdClosed, script);
    }
  }

  lemma CallsPush(packets: seq<seq<uint8>>, p: seq<uint8>)
    ensures Calls(packets + [p]) == Calls(packets) + [Packet(p)]
  {
    assert (packets + [p])[..|packets|] == packets;
  }

  /** The reading half of `Readable`, before the handler is called. */
  function Taken(ep: Endpoint, stream: seq<uint8>, v: Received): Endpoint
    requires v.taken <= |stream|
  {
    ep.(reader := v.reader,
        received := ep.received + stream[..v.taken],
        packets := Delivered(ep.packets, v.packet),
        pending := Pending(ep.pending, stream, v))
  }

  lemma TakenKeeps(ep: Endpoint, stream: seq<uint8>, script: seq<Outcome>)
    requires InputOk(ep) && ep.alive && HeaderOk(ep.reader.filled + stream)
    ensures var v := Receive(ep.reader, stream, script);
      && v.taken <= |stream|
      && InputOk(Taken(ep, stream, v).(alive := v.ret > 0))
  {
    ReceiveExplained(ep.reader, stream, script);
    ReceiveAccounts(ep.packets, ep.reader, stream, script);
    hide Receive, Delimited;
  }

  lemma ReadableKeeps(ep: Endpoint, stream: seq<uint8>, script: seq<Outcome>)
    requires EndpointOk(ep) && ep.alive && HeaderOk(ep.reader.filled + stream)
    ensures EndpointOk(Readable(ep, stream, script))
    ensures Readable(ep, stream, script).sender.wire == ep.sender.wire
    ensures var v := Receive(ep.reader, stream, script);
      v.taken <= |stream| && Readable(ep, stream, script).received == ep.received + stream[..v.taken]
  {
    hide Receive, Inv, FramedEntries, HeaderOk, Delimited;
    ReceiveExplained(ep.reader, stream, script);
    TakenKeeps(ep, stream, script);
    var v := Receive(ep.reader, stream, script);
    if v.packet.Some? {
      CallsPush(ep.packets, v.packet.value);
    }
    DeleteKeeps(ep);
  }

  // ---------- two endpoints and the streams between them

  datatype Side = Left | Right

  datatype System = System(left: Endpoint, right: Endpoint)

  function Peer(side: Side): Side {
    if side == Left then Right else Left
  }

  function At(sys: System, side: Side): Endpoint {
    if side == Left then sys.left else sys.right
  }

  /** An API call, a handler run, or the removal of a context, on one side. */
  datatype Action =
    | DoWrite(entry: Entry, fdClosed: bool)
    | DoWritable(connect: Entry, fdClosed: bool, script: seq<Outcome>)
    | DoReadable(script: seq<Outcome>)
    | DoDelete

  datatype Event = Event(side: Side, action: Action)

  /** Senders build packets whose length field is their size. */
  predicate Proper(a: Action) {
    && (a.DoWrite? ==> Framed(a.entry.bytes))
    && (a.DoWritable? ==> IsConnect(a.connect))
  }

  predicate AllProper(events: seq<Event>) {
    forall i :: 0 <= i < |events| ==> Proper(events[i].action)
  }

  /** One endpoint reads what the other wrote, from the beginning and in order. */
  predicate Reads(to: Endpoint, from: Endpoint) {
    |to.received| <= |from.sender.wire| && to.received == from.sender.wire[..|to.received|]
  }

  predicate SystemOk(sys: System) {
    EndpointOk(sys.left) && EndpointOk(sys.right) && Reads(sys.left, sys.right) && Reads(sys.right, sys.left)
  }

  lemma {:induction false} SentIsFramed(ds: seq<Departure>, rest: seq<Entry>)
    requires FramedEntries(Entries(ds) + rest)
    ensures AllFramed(SentPackets(ds)) && FramedEntries(rest)
  {
    if ds != [] {
      var init, last := ds[..|ds| - 1], ds[|ds| - 1];
      Regroup(Entries(init), [last.entry], rest);
      SentIsFramed(init, [last.entry] + rest);
      assert ([last.entry] + rest)[0] == last.entry && ([last.entry] + rest)[1..] == rest;
    } else {
      assert Entries(ds) + rest == rest;
    }
  }

  /** What a well-kept sender put on the wire: framed packets, then an unfinished one. */
  lemma WireIsFramed(from: Endpoint)
    requires EndpointOk(from)
    ensures AllFramed(SentPackets(from.sender.departed))
    ensures Incomplete(Started(from.sender)) && HeaderOk(Started(from.sender))
  {
    SentIsFramed(from.sender.departed, Backlog(from.sender));
    if Backlog(from.sender) != [] {
      CutIsIncomplete(Backlog(from.sender)[0].bytes, from.sender.position);
    }
  }

  lemma PacketsArePrefix(to: Endpoint, from: Endpoint)
    requires EndpointOk(to) && EndpointOk(from) && Reads(to, from)
    ensures to.packets <= SentPackets(from.sender.departed)
  {
    WireIsFramed(from);
    FramedIsDelimited(SentPackets(from.sender.departed));
    StreamPrefix(to.packets, to.pending, SentPackets(from.sender.departed), Started(from.sender));
  }

  function Waiting(to: Endpoint, from: Endpoint): seq<uint8>
    requires Reads(to, from)
  {
    from.sender.wire[|to.received|..]
  }

  /** What is buffered and what waits continue the delivered packets to the whole wire. */
  lemma ReadsContinue(to: Endpoint, from: Endpoint)
    requires EndpointOk(to) && EndpointOk(from) && Reads(to, from) && to.alive
    ensures ReaderOk(to.reader)
    ensures Concat(to.packets) + (to.reader.filled + Waiting(to, from))
         == Concat(SentPackets(from.sender.departed)) + Started(from.sender)
  {
    SplitAt(from.sender.wire, |to.received|);
    Regroup(Concat(to.packets), to.pending, Waiting(to, from));
  }

  lemma WaitingHeaderOk(to: Endpoint, from: Endpoint)
    requires EndpointOk(to) && EndpointOk(from) && Reads(to, from) && to.alive
    ensures ReaderOk(to.reader) && HeaderOk(to.reader.filled + Waiting(to, from))
  {
    hide EndpointOk;
    PacketsArePrefix(to, from);
    WireIsFramed(from);
    ReadsContinue(to, from);
    NextHeaderOk(to.packets, SentPackets(from.sender.departed), Started(from.sender),
                 to.reader.filled + Waiting(to, from));
  }

  /** One action at `me`, whose peer is `peer`. A deleted context runs no handler. */
  function Act(me: Endpoint, peer: Endpoint, a: Action): Endpoint
    requires EndpointOk(me) && EndpointOk(peer) && Reads(me, peer)
  {
    match a
    case DoWrite(e, fdClosed) => Write(me, e, fdClosed).0
    case DoWritable(connect, fdClosed, script) =>
      if !me.alive then me else Writable(me, connect, fdClosed, script).0
    case DoReadable(script) =>
      if !me.alive then me
      else
        WaitingHeaderOk(me, peer);
        Readable(me, Waiting(me, peer), script)
    case DoDelete => if !me.alive then me else Delete(me)
  }

  lemma ReadingStaysInStep(me: Endpoint, peer: Endpoint, me': Endpoint, k: nat)
    requires Reads(me, peer) && k <= |Waiting(me, peer)|
    requires me'.received == me.received + Waiting(me, peer)[..k]
    ensures Reads(me', peer)
  {
    TakeMore(peer.sender.wire, |me.received|, k);
  }

  lemma RemovalKeeps(ep: Endpoint)
    requires EndpointOk(ep) && ep.alive
    ensures EndpointOk(Delete(ep)) && Delete(ep).sender.wire == ep.sender.wire && Delete(ep).received == ep.received
  {
    hide SenderOk, FramedEntries, IsConnect, Calls, Delimited, Concat;
    DeleteKeeps(ep);
  }

  lemma ReadActKeeps(me: Endpoint, peer: Endpoint, script: seq<Outcome>)
    requires EndpointOk(me) && EndpointOk(peer) && Reads(me, peer) && me.alive
    ensures var next := Act(me, peer, DoReadable(script));
      EndpointOk(next) && Reads(next, peer) && next.sender.wire == me.sender.wire
  {
    hide EndpointOk, Receive, Readable, ReaderOk, HeaderOk;
    WaitingHeaderOk(me, peer);
    ReadableKeeps(me, Waiting(me, peer), script);
    ReadingStaysInStep(me, peer, Readable(me, Waiting(me, peer), script),
                       Receive(me.reader, Waiting(me, peer), script).taken);
  }

  lemma ActKeeps(me: Endpoint, peer: Endpoint, a: Action)
    requires EndpointOk(me) && EndpointOk(peer) && Reads(me, peer) && Proper(a)
    ensures EndpointOk(Act(me, peer, a))
    ensures Reads(Act(me, peer, a), peer)
    ensures me.sender.wire <= Act(me, peer, a).sender.wire
  {
    hide EndpointOk, Readable, Writable, Write, Delete;
    match a {
      case DoWrite(e, fdClosed) => WriteKeeps(me, e, fdClosed);
      case DoWritable(connect, fdClosed, script) =>
        if me.alive {
          WritableKeeps(me, connect, fdClosed, script);
        }
      case DoReadable(script) =>
        if me.alive {
          ReadActKeeps(me, peer, script);
        }
      case DoDelete =>
        if me.alive {
          RemovalKeeps(me);
        }
    }
  }

  lemma ReadsLonger(to: Endpoint, from: Endpoint, from': Endpoint)
    requires Reads(to, from) && from.sender.wire <= from'.sender.wire
    ensures Reads(to, from')
  {
    assert from.sender.wire == from'.sender.wire[..|from.sender.wire|];
  }

  function Step(sys: System, ev: Event): System
    requires SystemOk(sys)
  {
    match ev.side
    case Left => sys.(left := Act(sys.left, sys.right, ev.action))
    case Right => sys.(right := Act(sys.right, sys.left, ev.action))
  }

  lemma StepKeeps(sys: System, ev: Event)
    requires SystemOk(sys) && Proper(ev.action)
    ensures SystemOk(Step(sys, ev))
  {
    var sys' := Step(sys, ev);
    match ev.side {
      case Left =>
        ActKeeps(sys.left, sys.right, ev.action);
        ReadsLonger(sys.right, sys.left, sys'.left);
      case Right =>
        ActKeeps(sys.right, sys.left, ev.action);
        ReadsLonger(sys.left, sys.right, sys'.right);
    }
  }

  const NEW_SYSTEM := System(NEW_ENDPOINT, NEW_ENDPOINT)

  lemma NewSystemOk()
    ensures SystemOk(NEW_SYSTEM)
  {
  }

  /** Any interleaving of calls and handler runs on both sides, with any kernel answers. */
  function Run(sys: System, events: seq<Event>): (end: System)
    requires SystemOk(sys) && AllProper(events)
    ensures SystemOk(end)
    decreases events
  {
    hide EndpointOk, Step, IsConnect, Framed;
    if events == [] then sys
    else
      StepKeeps(sys, events[0]);
      Run(Step(sys, events[0]), events[1..])
  }

  // ---------- the theorems

  /** `to`'s handler has seen, in order and byte for byte, a prefix of what `from`'s
      `dx_write` accepted minus what its poller dropped. */
  predicate DeliveredFrom(to: Endpoint, from: Endpoint) {
    && to.packets <= SentPackets(from.sender.departed)
    && from.sender.accepted == Entries(from.sender.departed) + Backlog(from.sender)
    && (to.handled == Calls(to.packets) || to.handled == Calls(to.packets) + [Disconnect])
  }

  lemma DeliveredInOrder(to: Endpoint, from: Endpoint)
    requires EndpointOk(to) && EndpointOk(from) && Reads(to, from)
    ensures DeliveredFrom(to, from)
  {
    PacketsArePrefix(to, from);
  }

  /** End to end, in both directions, in every run, including runs that end in an error. */
  lemma EndToEnd(events: seq<Event>)
    requires AllProper(events)
    ensures SystemOk(NEW_SYSTEM)
    ensures DeliveredFrom(Run(NEW_SYSTEM, events).right, Run(NEW_SYSTEM, events).left)
    ensures DeliveredFrom(Run(NEW_SYSTEM, events).left, Run(NEW_SYSTEM, events).right)
  {
    hide EndpointOk, Run, DeliveredFrom;
    NewSystemOk();
    var sys := Run(NEW_SYSTEM, events);
    DeliveredInOrder(sys.right, sys.left);
    DeliveredInOrder(sys.left, sys.right);
  }

  /** Everything `from` accepted has left its queue and been read by a live peer. */
  predicate Drained(to: Endpoint, from: Endpoint) {
    to.alive && Backlog(from.sender) == [] && |to.received| == |from.sender.wire|
  }

  lemma DrainedIsComplete(to: Endpoint, from: Endpoint)
    requires EndpointOk(to) && EndpointOk(from) && Reads(to, from) && Drained(to, from)
    ensures to.handled == Calls(SentPackets(from.sender.departed))
    ensures from.sender.accepted == Entries(from.sender.departed)
  {
    var sent := SentPackets(from.sender.departed);
    WireIsFramed(from);
    FramedIsDelimited(sent);
    assert Concat(to.packets) + to.pending == Concat(sent) + [];
    ParseRecovers(sent, []);
    ReaderOkIncomplete(to.reader);
    ParseRecovers(to.packets, to.pending);
  }

  // ---------- what ends a connection

  /** What ends a live context, told by its state and the kernel's answers: removal, an error as the
      answer to the first write the kernel does not complete, or a read that does not find its bytes. */
  predicate Fatal(me: Endpoint, peer: Endpoint, a: Action)
    requires EndpointOk(me) && EndpointOk(peer) && Reads(me, peer)
  {
    match a
    case DoWrite(_, _) => false
    case DoWritable(_, _, script) =>
      HeadFitsOf(me);
      me.sender.listed && HitsError(me.sender, script)
    case DoReadable(script) => !ReadFinds(me.reader, Waiting(me, peer), script)
    case DoDelete => true
  }

  lemma ReadOutcome(ep: Endpoint, stream: seq<uint8>, script: seq<Outcome>)
    requires ReaderOk(ep.reader) && HeaderOk(ep.reader.filled + stream) && ep.alive
    ensures var next := Readable(ep, stream, script);
      if ReadFinds(ep.reader, stream, script) then
        next.alive && (next.handled == ep.handled || exists p :: next.handled == ep.handled + [Packet(p)])
      else
        !next.alive && next.handled == ep.handled + [Disconnect]
  {
    WhenReceiveSucceeds(ep.reader, stream, script);
    hide Receive, ReadFinds, ReaderOk, HeaderOk;
  }

  lemma WriteOutcome(ep: Endpoint, connect: Entry, fdClosed: bool, script: seq<Outcome>)
    requires Inv(ep.sender) && HeadFits(ep.sender) && ep.alive
    ensures var next := Writable(ep, connect, fdClosed, script).0;
      && (next.alive <==> !(ep.sender.listed && HitsError(ep.sender, script)))
      && next.handled == ep.handled
  {
    hide Inv, Poll, HitsError, Offer;
    if ep.sender.listed {
      PollFailsExactlyOnError(ep.sender, script);
    }
  }

  /** What the writable handler returns, told by the sizes of the packets to write and the answers. */
  lemma WritableReturns(ep: Endpoint, connect: Entry, fdClosed: bool, script: seq<Outcome>)
    requires EndpointOk(ep)
    ensures HeadFits(ep.sender)
    ensures var ret := Writable(ep, connect, fdClosed, script).1;
      var rooms := Rooms(ep.sender.queue, ep.sender.position);
      var k := Completed(rooms, script);
      ret == if !ep.sender.listed then 0
             else if k == |rooms| then Total(rooms)
             else if Answer(script, k).Error? then -2
             else Moved(Answer(script, k), rooms[k])
  {
    HeadFitsOf(ep);
    hide EndpointOk, Rooms;
    if ep.sender.listed {
      ReturnsOf(ep.sender, script);
    }
  }

  lemma ReturnsOf(s: Sender, script: seq<Outcome>)
    requires Inv(s) && s.listed
    ensures HeadFits(s)
    ensures var p, rooms := Poll(s, script), Rooms(s.queue, s.position);
      var k := Completed(rooms, script);
      && (p.ret < 0 && !p.again <==> k < |rooms| && Answer(script, k).Error?)
      && p.ret == if k == |rooms| then Total(rooms) else Moved(Answer(script, k), rooms[k])
  {
    PollFailsExactlyOnError(s, script);
    if s.queue != [] {
      PollAccounts(s, script, 0);
    }
  }

  lemma OnlyFatalActionsKill(me: Endpoint, peer: Endpoint, a: Action)
    requires EndpointOk(me) && EndpointOk(peer) && Reads(me, peer) && me.alive
    ensures Act(me, peer, a).alive <==> !Fatal(me, peer, a)
    ensures Act(me, peer, a).handled == me.handled
        || (a.DoReadable? && !Fatal(me, peer, a) && exists p :: Act(me, peer, a).handled == me.handled + [Packet(p)])
        || (a.DoReadable? && Fatal(me, peer, a) && Act(me, peer, a).handled == me.handled + [Disconnect])
    ensures a.DoReadable? && Fatal(me, peer, a) ==> Act(me, peer, a).handled == me.handled + [Disconnect]
  {
    hide EndpointOk, Readable, Writable, Inv, ReaderOk, HeaderOk, ReadFinds, HitsError;
    HeadFitsOf(me);
    match a {
      case DoReadable(script) =>
        WaitingHeaderOk(me, peer);
        ReadOutcome(me, Waiting(me, peer), script);
      case DoWritable(connect, fdClosed, script) => WriteOutcome(me, connect, fdClosed, script);
      case _ =>
    }
  }

  /** In no state of this run does a fatal action meet a live `side`: every read it makes finds its
      bytes, no write of it runs into an error, and it is not removed. */
  predicate NeverFatal(sys: System, events: seq<Event>, side: Side)
    requires SystemOk(sys) && AllProper(events)
    decreases |events|
  {
    hide EndpointOk, Act, Fatal;
    events == [] ||
      (StepKeeps(sys, events[0]);
       && (events[0].side == side ==> !Fatal(At(sys, side), At(sys, Peer(side)), events[0].action))
       && NeverFatal(Step(sys, events[0]), events[1..], side))
  }

  /** An endpoint lives through exactly the runs in which nothing fatal happens to it. */
  lemma {:induction false} LivesExactlyWhenNeverFatal(sys: System, events: seq<Event>, side: Side)
    requires SystemOk(sys) && AllProper(events) && At(sys, side).alive
    ensures At(Run(sys, events), side).alive <==> NeverFatal(sys, events, side)
    decreases |events|
  {
    hide EndpointOk, Fatal, Act;
    if events != [] {
      var ev, next := events[0], Step(sys, events[0]);
      StepKeeps(sys, ev);
      if ev.side == side {
        OnlyFatalActionsKill(At(sys, side), At(sys, Peer(side)), ev.action);
      }
      if At(next, side).alive {
        LivesExactlyWhenNeverFatal(next, events[1..], side);
      } else {
        DeadIsSilent(next, events[1..], side);
      }
    }
  }

  // ---------- completeness

  /** In any run in which every read of one side finds its bytes and nothing else ends it, once the
      other side's queue and the stream between them are empty, its handler has seen every packet
      accepted on the other side but the dropped ones. */
  lemma DrainedDeliversAll(events: seq<Event>, side: Side)
    requires AllProper(events) && SystemOk(NEW_SYSTEM) && NeverFatal(NEW_SYSTEM, events, side)
    requires var sys := Run(NEW_SYSTEM, events);
      && Backlog(At(sys, Peer(side)).sender) == []
      && |At(sys, side).received| == |At(sys, Peer(side)).sender.wire|
    ensures var to, from := At(Run(NEW_SYSTEM, events), side), At(Run(NEW_SYSTEM, events), Peer(side));
      && to.handled == Calls(SentPackets(from.sender.departed))
      && from.sender.accepted == Entries(from.sender.departed)
  {
    hide EndpointOk, Run, NeverFatal;
    LivesExactlyWhenNeverFatal(NEW_SYSTEM, events, side);
    var sys := Run(NEW_SYSTEM, events);
    DrainedIsComplete(At(sys, side), At(sys, Peer(side)));
  }

  lemma WholePacketsAreLong(all: seq<seq<uint8>>, done: seq<seq<uint8>>, rest: seq<uint8>)
    requires AllFramed(all) && done <= all && Concat(done) + rest == Concat(all)
    ensures rest == [] || HEADER_SIZE <= |rest|
  {
    var left := all[|done|..];
    assert all == done + left;
    ConcatAppend(done, left);
    assert |rest| == |Concat(left)|;
    if left != [] {
      assert left[0] in all;
    }
  }

  /** With only whole packets on the wire, a reader that has something waiting has a whole header. */
  lemma WholePacketsWait(to: Endpoint, from: Endpoint)
    requires EndpointOk(to) && EndpointOk(from) && Reads(to, from) && to.alive
    requires Started(from.sender) == [] && Waiting(to, from) != []
    ensures HEADER_SIZE <= |to.reader.filled| + |Waiting(to, from)|
  {
    hide EndpointOk;
    PacketsArePrefix(to, from);
    WireIsFramed(from);
    ReadsContinue(to, from);
    assert Concat(SentPackets(from.sender.departed)) + [] == Concat(SentPackets(from.sender.departed));
    WholePacketsAreLong(SentPackets(from.sender.departed), to.packets, to.reader.filled + Waiting(to, from));
  }

  /** On every honest non-blocking kernel: with only whole packets on the wire and something waiting,
      no read fails, after a length field or anywhere else. */
  lemma HonestReadSurvives(to: Endpoint, from: Endpoint, script: seq<Outcome>)
    requires EndpointOk(to) && EndpointOk(from) && Reads(to, from) && to.alive
    requires Started(from.sender) == [] && Waiting(to, from) != []
    requires HonestCall(to.reader, Waiting(to, from), script)
    ensures ReaderOk(to.reader) && HeaderOk(to.reader.filled + Waiting(to, from))
    ensures var v := Receive(to.reader, Waiting(to, from), script); v.ret > 0 && v.taken > 0
  {
    hide EndpointOk, Receive, ReaderOk, HonestCall;
    WaitingHeaderOk(to, from);
    WholePacketsWait(to, from);
    HonestReceive(to.reader, Waiting(to, from), script);
    WhenReceiveSucceeds(to.reader, Waiting(to, from), script);
  }

  /** Readable events of one side, with these answers. */
  function Pulls(side: Side, scripts: seq<seq<Outcome>>): (events: seq<Event>)
    ensures |events| == |scripts| && AllProper(events)
  {
    if scripts == [] then [] else [Event(side, DoReadable(scripts[0]))] + Pulls(side, scripts[1..])
  }

  /** Readable events as an honest kernel raises them: only while something waits, each call answered
      honestly. */
  predicate HonestPulls(sys: System, side: Side, scripts: seq<seq<Outcome>>)
    requires SystemOk(sys)
    decreases |scripts|
  {
    scripts == [] ||
      (var me, peer := At(sys, side), At(sys, Peer(side));
       StepKeeps(sys, Event(side, DoReadable(scripts[0])));
       && Waiting(me, peer) != []
       && HonestCall(me.reader, Waiting(me, peer), scripts[0])
       && HonestPulls(Step(sys, Event(side, DoReadable(scripts[0]))), side, scripts[1..]))
  }

  lemma HonestStep(sys: System, side: Side, script: seq<Outcome>)
    requires SystemOk(sys) && At(sys, side).alive && Started(At(sys, Peer(side)).sender) == []
    requires var me, peer := At(sys, side), At(sys, Peer(side));
      Waiting(me, peer) != [] && HonestCall(me.reader, Waiting(me, peer), script)
    ensures var next := Step(sys, Event(side, DoReadable(script)));
      && SystemOk(next) && At(next, Peer(side)) == At(sys, Peer(side)) && At(next, side).alive
      && |At(next, side).received| > |At(sys, side).received|
  {
    hide EndpointOk, Receive, ReaderOk, HeaderOk, HonestCall;
    StepKeeps(sys, Event(side, DoReadable(script)));
    HonestReadSurvives(At(sys, side), At(sys, Peer(side)), script);
    ReadableKeeps(At(sys, side), Waiting(At(sys, side), At(sys, Peer(side))), script);
  }

  /** However an honest kernel cuts its reads, none of them fails while only whole packets are on
      the wire, and each takes a byte: as many reads as bytes wait at the latest empty the stream. */
  lemma {:induction false} HonestPullsSurvive(sys: System, side: Side, scripts: seq<seq<Outcome>>)
    requires SystemOk(sys) && At(sys, side).alive && Started(At(sys, Peer(side)).sender) == []
    requires HonestPulls(sys, side, scripts)
    ensures var end := Run(sys, Pulls(side, scripts));
      && At(end, side).alive && At(end, Peer(side)) == At(sys, Peer(side))
      && |At(sys, side).received| + |scripts| <= |At(end, side).received|
    decreases |scripts|
  {
    hide EndpointOk, Step;
    if scripts != [] {
      var events := Pulls(side, scripts);
      assert events[0] == Event(side, DoReadable(scripts[0])) && events[1..] == Pulls(side, scripts[1..]);
      HonestStep(sys, side, scripts[0]);
      HonestPullsSurvive(Step(sys, events[0]), side, scripts[1..]);
    }
  }

  /** Two reads that take whatever waits. */
  const EAGER: seq<Outcome> := [Count(TWO_31), Count(TWO_31)]

  /** The pipe can always drain: once the other side's queue is empty, an honest kernel has reads for a
      live endpoint that bring every remaining packet to its handler. */
  lemma {:induction false} AlwaysDrainable(sys: System, side: Side) returns (scripts: seq<seq<Outcome>>)
    requires SystemOk(sys) && At(sys, side).alive && Backlog(At(sys, Peer(side)).sender) == []
    ensures HonestPulls(sys, side, scripts)
    ensures var end := Run(sys, Pulls(side, scripts)); Drained(At(end, side), At(end, Peer(side)))
    decreases |At(sys, Peer(side)).sender.wire| - |At(sys, side).received|
  {
    hide EndpointOk, Step;
    var me, peer := At(sys, side), At(sys, Peer(side));
    if Waiting(me, peer) == [] {
      scripts := [];
    } else {
      WholePacketsWait(me, peer);
      HonestStep(sys, side, EAGER);
      var rest := AlwaysDrainable(Step(sys, Event(side, DoReadable(EAGER))), side);
      scripts := [EAGER] + rest;
      assert scripts[1..] == rest;
      var events := Pulls(side, scripts);
      assert events[0] == Event(side, DoReadable(EAGER)) && events[1..] == Pulls(side, rest);
    }
  }

  /** Connection life cycle, in every run: a library-made CONNECT is accepted at most once and
      then first; DISCONNECT is handled at most once and then last; EPOLLOUT is armed exactly
      while the queue of a started live connection is nonempty. */
  predicate LifeCycle(ep: Endpoint) {
    && (ep.connects == [] || (ep.connects == [0] && ep.sender.accepted != [] && IsConnect(ep.sender.accepted[0])))
    && (forall i :: 0 <= i < |ep.handled| - 1 ==> ep.handled[i].Packet?)
    && (ep.alive ==> Disconnect !in ep.handled)
    && (ep.sender.queue != [] ==> ep.sender.armed)
    && (ep.sender.listed && ep.sender.armed ==> ep.sender.queue != [])
  }

  lemma {:induction false} CallsArePackets(packets: seq<seq<uint8>>)
    ensures forall i :: 0 <= i < |Calls(packets)| ==> Calls(packets)[i].Packet?
  {
    if packets != [] {
      CallsArePackets(packets[..|packets| - 1]);
    }
  }

  lemma LifeCycleOf(ep: Endpoint)
    requires EndpointOk(ep)
    ensures LifeCycle(ep)
  {
    hide Wire, Order, Ownership, InputOk, FramedEntries, LegalDrops, Bounded, NonEmpty, IsConnect, Calls;
    CallsArePackets(ep.packets);
    assert Shape(ep.sender) by {
      WireHasShape(ep.sender);
    }
  }

  lemma LifeCycleHolds(events: seq<Event>, side: Side)
    requires AllProper(events)
    ensures SystemOk(NEW_SYSTEM)
    ensures LifeCycle(At(Run(NEW_SYSTEM, events), side))
  {
    hide EndpointOk, Inv, Run, LifeCycle;
    InvOf(events, side);
    LifeCycleOf(At(Run(NEW_SYSTEM, events), side));
  }

  /** Nothing visible happened at an endpoint except that offered buffers were freed. */
  predicate Silent(ep: Endpoint, later: Endpoint) {
    && !later.alive && later.handled == ep.handled && later.sender.wire == ep.sender.wire
    && multiset(later.sender.freed) == multiset(later.sender.offered)
  }

  lemma DeadIsFreed(ep: Endpoint)
    requires EndpointOk(ep) && !ep.alive
    ensures multiset(ep.sender.freed) == multiset(ep.sender.offered)
  {
  }

  lemma DeadStep(sys: System, ev: Event, side: Side)
    requires SystemOk(sys) && Proper(ev.action) && !At(sys, side).alive
    ensures SystemOk(Step(sys, ev)) && Silent(At(sys, side), At(Step(sys, ev), side))
  {
    hide EndpointOk;
    StepKeeps(sys, ev);
    DeadIsFreed(At(Step(sys, ev), side));
  }

  /** A context that is gone stays gone: its user handler is never called again, nothing more
      goes on its wire, and a buffer offered to it is freed at once. */
  lemma {:induction false} DeadIsSilent(sys: System, events: seq<Event>, side: Side)
    requires SystemOk(sys) && AllProper(events) && !At(sys, side).alive
    ensures Silent(At(sys, side), At(Run(sys, events), side))
    decreases events
  {
    hide Step, EndpointOk;
    if events == [] {
      DeadIsFreed(At(sys, side));
    } else {
      DeadStep(sys, events[0], side);
      DeadIsSilent(Step(sys, events[0]), events[1..], side);
    }
  }

  /** The first writable event of a connection on which nothing was queued queues CONNECT, unless
      the descriptor is closed, and asks to be called again exactly then. */
  lemma FirstWritableConnects(me: Endpoint, peer: Endpoint, connect: Entry, fdClosed: bool, script: seq<Outcome>)
    requires EndpointOk(me) && EndpointOk(peer) && Reads(me, peer)
    requires me.alive && !me.sender.listed && IsConnect(connect)
    ensures var ep := Act(me, peer, DoWritable(connect, fdClosed, script));
      && ep.alive && ep.sender.armed == !fdClosed
      && ep.sender.queue == (if fdClosed then [] else [connect])
      && ep.connects == (if fdClosed then [] else [0])
  {
    hide Wire, Order, InputOk, DisconnectLast, FramedEntries, LegalDrops, Bounded, NonEmpty, Ownership;
    assert Shape(me.sender) by {
      WireHasShape(me.sender);
    }
  }

  lemma InvOf(events: seq<Event>, side: Side)
    requires AllProper(events)
    ensures SystemOk(NEW_SYSTEM)
    ensures EndpointOk(At(Run(NEW_SYSTEM, events), side)) && Inv(At(Run(NEW_SYSTEM, events), side).sender)
  {
    hide EndpointOk, Run;
    NewSystemOk();
    HeadFitsOf(At(Run(NEW_SYSTEM, events), side));
  }

  /** A buffer offered once is, at every moment of a run, either queued once or freed once;
      when the context is gone it has been freed. */
  lemma OneOwner(events: seq<Event>, side: Side, e: Entry)
    requires AllProper(events)
    ensures SystemOk(NEW_SYSTEM)
    ensures var ep := At(Run(NEW_SYSTEM, events), side);
      multiset(ep.sender.offered)[e] == 1 ==>
        && multiset(ep.sender.queue)[e] + multiset(ep.sender.freed)[e] == 1
        && (!ep.alive ==> multiset(ep.sender.freed)[e] == 1)
  {
    hide Run, Wire, Order, InputOk, ConnectFirst, DisconnectLast, FramedEntries;
    InvOf(events, side);
  }

  /** Over every run: legal drops only, nothing protected lost, at most eleven discardable. */
  lemma DiscardPolicy(events: seq<Event>, side: Side)
    requires AllProper(events)
    ensures SystemOk(NEW_SYSTEM)
    ensures var s := At(Run(NEW_SYSTEM, events), side).sender;
      && (forall i :: 0 <= i < |s.departed| && s.departed[i].Dropped? ==>
            var d := s.departed[i];
            8 <= |d.entry.bytes| && d.entry.bytes[7] as int % 2 == 1 && d.behind >= 3)
      && ProtectedOf(s.accepted) == ProtectedOf(SentEntries(s.departed)) + ProtectedOf(Backlog(s))
      && CountDiscardable(s.queue) <= 11
  {
    hide EndpointOk, Run;
    InvOf(events, side);
    NothingProtectedIsLost(At(Run(NEW_SYSTEM, events), side).sender);
    AtMostElevenDiscardable(At(Run(NEW_SYSTEM, events), side).sender);
  }

  /** What is on the wire, in every run: whole packets, each with its own length in its header,
      and then the first `position` bytes of the oldest unsent one, which is never complete. */
  lemma SenderFraming(events: seq<Event>, side: Side)
    requires AllProper(events)
    ensures SystemOk(NEW_SYSTEM)
    ensures var s := At(Run(NEW_SYSTEM, events), side).sender;
      && AllFramed(SentPackets(s.departed))
      && s.wire == Concat(SentPackets(s.departed)) + Started(s)
      && (Backlog(s) != [] ==> s.position < |Backlog(s)[0].bytes| && Started(s) == Backlog(s)[0].bytes[..s.position])
      && (Backlog(s) == [] ==> Started(s) == [])
  {
    hide Run;
    InvOf(events, side);
    WireIsFramed(At(Run(NEW_SYSTEM, events), side));
  }

  // ---------- what a write does, in every run

  /** In every reachable state, `dx_write` of any framed packet: on a live connection that has a list or whose
      descriptor is open, the packet is appended and EPOLLOUT armed, unless it is discardable and more than ten
      packets wait; otherwise it is freed, with -1 exactly if there is no such connection. Nothing else of what
      was queued, sent or dropped changes. */
  lemma WriteQueuesOrFrees(before: seq<Event>, side: Side, e: Entry, fdClosed: bool)
    requires AllProper(before) && Framed(e.bytes)
    ensures SystemOk(NEW_SYSTEM)
    ensures var ep := At(Run(NEW_SYSTEM, before), side);
      var s, ret := ep.sender, Write(ep, e, fdClosed).1;
      var t := At(Step(Run(NEW_SYSTEM, before), Event(side, DoWrite(e, fdClosed))), side).sender;
      var usable := ep.alive && (s.listed || !fdClosed);
      && t.wire == s.wire && t.departed == s.departed && t.position == s.position && t.offered == s.offered + [e]
      && if usable && (e.discardable ==> |s.queue| <= 10) then
           && t.queue == s.queue + [e] && t.accepted == s.accepted + [e] && t.freed == s.freed
           && t.listed && t.armed && ret == 0
         else
           && t.queue == s.queue && t.accepted == s.accepted && t.freed == s.freed + [e]
           && t.listed == s.listed && t.armed == s.armed && ret == if usable then 0 else -1
  {
    NewSystemOk();
    hide EndpointOk, Run, Write;
    StepKeeps(Run(NEW_SYSTEM, before), Event(side, DoWrite(e, fdClosed)));
    WriteOf(At(Run(NEW_SYSTEM, before), side), e, fdClosed);
  }

  lemma WriteOf(ep: Endpoint, e: Entry, fdClosed: bool)
    requires EndpointOk(ep)
    ensures var s, t, ret := ep.sender, Write(ep, e, fdClosed).0.sender, Write(ep, e, fdClosed).1;
      var usable := ep.alive && (s.listed || !fdClosed);
      && t.wire == s.wire && t.departed == s.departed && t.position == s.position && t.offered == s.offered + [e]
      && if usable && (e.discardable ==> |s.queue| <= 10) then
           && t.queue == s.queue + [e] && t.accepted == s.accepted + [e] && t.freed == s.freed
           && t.listed && t.armed && ret == 0
         else
           && t.queue == s.queue && t.accepted == s.accepted && t.freed == s.freed + [e]
           && t.listed == s.listed && t.armed == s.armed && ret == if usable then 0 else -1
  {
    UnlistedIsEmpty(ep);
    hide EndpointOk;
  }

  lemma UnlistedIsEmpty(ep: Endpoint)
    requires EndpointOk(ep)
    ensures !ep.sender.listed ==> ep.sender.queue == []
  {
    assert Shape(ep.sender) by {
      WireHasShape(ep.sender);
    }
  }

  /** A stream packet without payload or further fields, as its builder flags it and passes it on. */
  const STREAMED := Entry(2, [0, 0, 0, 8, TYPE_STREAM, 0, DATA_STREAM, 1], true)

  function Writes(side: Side, n: nat): (events: seq<Event>)
    ensures |events| == n && AllProper(events)
  {
    if n == 0 then []
    else
      assert STREAMED.bytes[..LENGTH_SIZE] == [0, 0, 0, 8];
      [Event(side, DoWrite(STREAMED, false))] + Writes(side, n - 1)
  }

  lemma {:induction false} WritesQueue(sys: System, side: Side, n: nat)
    requires SystemOk(sys) && At(sys, side).alive
    requires |At(sys, side).sender.queue| + n <= 11
    requires forall i :: 0 <= i < |At(sys, side).sender.queue| ==> At(sys, side).sender.queue[i] == STREAMED
    ensures var end := At(Run(sys, Writes(side, n)), side);
      && end.alive && |end.sender.queue| == |At(sys, side).sender.queue| + n
      && end.sender.freed == At(sys, side).sender.freed
      && forall i :: 0 <= i < |end.sender.queue| ==> end.sender.queue[i] == STREAMED
    decreases n
  {
    hide EndpointOk;
    if n > 0 {
      var w := Event(side, DoWrite(STREAMED, false));
      assert STREAMED.bytes[..LENGTH_SIZE] == [0, 0, 0, 8];
      StepKeeps(sys, w);
      var next := Step(sys, w);
      UnlistedIsEmpty(At(sys, side));
      assert At(next, side).sender == Accept(At(sys, side).sender, STREAMED);
      hide Step;
      WritesQueue(next, side, n - 1);
      RunUnfolds(sys, w, Writes(side, n - 1));
    }
  }

  lemma {:induction false} AllDiscardable(es: seq<Entry>)
    requires forall i :: 0 <= i < |es| ==> es[i].discardable
    ensures CountDiscardable(es) == |es|
  {
    if es != [] {
      AllDiscardable(es[1..]);
    }
  }

  /** The bound is attained: on a new connection eleven stream packets are queued, and the twelfth is freed. */
  lemma TwelfthIsRefused(side: Side)
    ensures SystemOk(NEW_SYSTEM)
    ensures var s := At(Run(NEW_SYSTEM, Writes(side, 11)), side).sender;
      |s.queue| == 11 == CountDiscardable(s.queue) && s.freed == []
    ensures var t := At(Step(Run(NEW_SYSTEM, Writes(side, 11)), Event(side, DoWrite(STREAMED, false))), side).sender;
      |t.queue| == 11 && t.freed == [STREAMED]
  {
    NewSystemOk();
    hide EndpointOk, Run, Step, Writes;
    WritesQueue(NEW_SYSTEM, side, 11);
    AllDiscardable(At(Run(NEW_SYSTEM, Writes(side, 11)), side).sender.queue);
    assert STREAMED.bytes[..LENGTH_SIZE] == [0, 0, 0, 8];
    WriteQueuesOrFrees(Writes(side, 11), side, STREAMED, false);
  }

  // ---------- what was accepted stays accepted

  lemma WritableGrows(ep: Endpoint, connect: Entry, fdClosed: bool, script: seq<Outcome>)
    requires HeadFits(ep.sender)
    ensures ep.sender.accepted <= Writable(ep, connect, fdClosed, script).0.sender.accepted
  {
    hide Poll;
    PollGrows(ep.sender, script);
  }

  lemma ActGrows(me: Endpoint, peer: Endpoint, a: Action)
    requires EndpointOk(me) && EndpointOk(peer) && Reads(me, peer)
    ensures me.sender.accepted <= Act(me, peer, a).sender.accepted
  {
    hide EndpointOk, Receive, Writable, Inv, ReaderOk, HeaderOk;
    HeadFitsOf(me);
    match a {
      case DoReadable(script) =>
        if me.alive {
          WaitingHeaderOk(me, peer);
        }
      case DoWritable(connect, fdClosed, script) => WritableGrows(me, connect, fdClosed, script);
      case _ =>
    }
  }

  lemma {:induction false} RunGrows(sys: System, events: seq<Event>, side: Side)
    requires SystemOk(sys) && AllProper(events)
    ensures At(sys, side).sender.accepted <= At(Run(sys, events), side).sender.accepted
    decreases |events|
  {
    hide EndpointOk, Act;
    if events != [] {
      StepKeeps(sys, events[0]);
      if events[0].side == side {
        ActGrows(At(sys, side), At(sys, Peer(side)), events[0].action);
      }
      RunGrows(Step(sys, events[0]), events[1..], side);
    }
  }

  /** A non-discardable write on a connection that something was queued on before. */
  lemma WriteStep(sys: System, side: Side, e: Entry, fdClosed: bool)
    requires SystemOk(sys) && Framed(e.bytes) && !e.discardable
    requires At(sys, side).alive && At(sys, side).sender.listed
    ensures var next := Step(sys, Event(side, DoWrite(e, fdClosed)));
      && SystemOk(next) && At(next, side).alive && At(next, side).sender == Accept(At(sys, side).sender, e)
      && e in At(next, side).sender.accepted
    ensures Write(At(sys, side), e, fdClosed).1 == 0
  {
    hide EndpointOk;
    StepKeeps(sys, Event(side, DoWrite(e, fdClosed)));
  }

  lemma {:induction false} ProtectedIn(es: seq<Entry>, e: Entry)
    ensures e in ProtectedOf(es) <==> e in es && Protected(e)
  {
    if es != [] {
      ProtectedIn(es[1..], e);
      assert es == [es[0]] + es[1..];
    }
  }

  /** In every run: `dx_write` of a packet with argument and header flag both clear, on a connection
      that something was queued on before, is accepted; and whatever happens then, while the connection
      lives the packet has been sent or is still queued. */
  lemma ProtectedWriteIsKept(before: seq<Event>, side: Side, e: Entry, fdClosed: bool, after: seq<Event>)
    requires AllProper(before) && AllProper(after) && Framed(e.bytes) && Protected(e)
    requires SystemOk(NEW_SYSTEM)
    requires At(Run(NEW_SYSTEM, before), side).alive && At(Run(NEW_SYSTEM, before), side).sender.listed
    ensures Write(At(Run(NEW_SYSTEM, before), side), e, fdClosed).1 == 0
    ensures SystemOk(Step(Run(NEW_SYSTEM, before), Event(side, DoWrite(e, fdClosed))))
    ensures var end := At(Run(Step(Run(NEW_SYSTEM, before), Event(side, DoWrite(e, fdClosed))), after), side);
      end.alive ==> e in SentEntries(end.sender.departed) || e in end.sender.queue
  {
    hide EndpointOk, Run, Inv, ProtectedOf, SentEntries, Flagged, Framed, Act;
    var sys, ev := Run(NEW_SYSTEM, before), Event(side, DoWrite(e, fdClosed));
    StepKeeps(sys, ev);
    var next := Step(sys, ev);
    var end := At(Run(next, after), side);
    WriteStep(sys, side, e, fdClosed);
    RunGrows(next, after, side);
    ProtectedIn(end.sender.accepted, e);
    HeadFitsOf(end);
    NothingProtectedIsLost(end.sender);
    ProtectedIn(SentEntries(end.sender.departed), e);
    ProtectedIn(Backlog(end.sender), e);
    if end.alive {
      LiveHasNoAbandoned(end);
    }
  }

  lemma {:induction false} SentBytesIn(ds: seq<Departure>, e: Entry)
    requires e in SentEntries(ds)
    ensures e.bytes in SentPackets(ds)
  {
    var init, last := ds[..|ds| - 1], ds[|ds| - 1];
    if e in SentEntries(init) {
      SentBytesIn(init, e);
    } else {
      assert last.Sent? && last.entry == e;
    }
  }

  lemma {:induction false} CallsIn(packets: seq<seq<uint8>>, p: seq<uint8>)
    requires p in packets
    ensures Packet(p) in Calls(packets)
  {
    if p != packets[|packets| - 1] {
      CallsIn(packets[..|packets| - 1], p);
    }
  }

  /** ... and once everything is through, the peer's handler has been called with it. */
  lemma ProtectedWriteIsHandled(before: seq<Event>, side: Side, e: Entry, fdClosed: bool, after: seq<Event>)
    requires AllProper(before) && AllProper(after) && Framed(e.bytes) && Protected(e)
    requires SystemOk(NEW_SYSTEM)
    requires At(Run(NEW_SYSTEM, before), side).alive && At(Run(NEW_SYSTEM, before), side).sender.listed
    ensures SystemOk(Step(Run(NEW_SYSTEM, before), Event(side, DoWrite(e, fdClosed))))
    ensures var end := Run(Step(Run(NEW_SYSTEM, before), Event(side, DoWrite(e, fdClosed))), after);
      At(end, side).alive && Drained(At(end, Peer(side)), At(end, side)) ==>
        Packet(e.bytes) in At(end, Peer(side)).handled
  {
    hide EndpointOk, Run, Step, Protected, Framed;
    ProtectedWriteIsKept(before, side, e, fdClosed, after);
    var end := Run(Step(Run(NEW_SYSTEM, before), Event(side, DoWrite(e, fdClosed))), after);
    var from := At(end, side);
    if from.alive && Drained(At(end, Peer(side)), from) {
      DrainedIsComplete(At(end, Peer(side)), from);
      SentBytesIn(from.sender.departed, e);
      CallsIn(SentPackets(from.sender.departed), e.bytes);
    }
  }

  lemma LiveHasNoAbandoned(ep: Endpoint)
    requires EndpointOk(ep) && ep.alive
    ensures ep.sender.abandoned == []
  {
  }

  // ---------- CONNECT on the wire

  /** An unflagged packet accepted first is the first on the wire and the first handled. */
  lemma UnflaggedLeads(to: Endpoint, from: Endpoint)
    requires EndpointOk(to) && EndpointOk(from) && Reads(to, from)
    requires from.sender.accepted != [] && !Flagged(from.sender.accepted[0].bytes)
    ensures Leads(from.sender.wire, from.sender.accepted[0].bytes)
    ensures to.packets != [] ==> to.packets[0] == from.sender.accepted[0].bytes
  {
    hide EndpointOk, Inv, SentPackets, Leads;
    HeadFitsOf(from);
    UnflaggedGoesFirst(from.sender);
    PacketsArePrefix(to, from);
  }

  /** In every continuation, `side`'s wire carries `p` first. */
  ghost predicate AlwaysLeads(sys: System, side: Side, p: seq<uint8>)
    requires SystemOk(sys)
  {
    forall events :: AllProper(events) ==> Leads(At(Run(sys, events), side).sender.wire, p)
  }

  /** An ordinary packet of eight bytes, neither discardable nor flagged. */
  const ORDINARY := Entry(1, [0, 0, 0, 8, 0, 0, 0, 0], false)

  /** Three ordinary writes, then one writable event with these answers. */
  function Overtake(side: Side, connect: Entry, script: seq<Outcome>): seq<Event> {
    [Event(side, DoWrite(ORDINARY, false)), Event(side, DoWrite(ORDINARY, false)),
     Event(side, DoWrite(ORDINARY, false)), Event(side, DoWritable(connect, false, script))]
  }

  lemma OvertakeIsProper(side: Side, connect: Entry, script: seq<Outcome>)
    requires IsConnect(connect)
    ensures AllProper(Overtake(side, connect, script))
  {
    assert ORDINARY.bytes[..LENGTH_SIZE] == [0, 0, 0, 8];
  }

  lemma RunUnfolds(sys: System, ev: Event, rest: seq<Event>)
    requires SystemOk(sys) && Proper(ev.action) && AllProper(rest)
    ensures AllProper([ev] + rest) && SystemOk(Step(sys, ev))
    ensures Run(sys, [ev] + rest) == Run(Step(sys, ev), rest)
  {
    hide EndpointOk, Act, IsConnect, Framed;
    StepKeeps(sys, ev);
    var events := [ev] + rest;
    assert events[1..] == rest && events[0] == ev;
  }

  /** A poll that does not fail, as a step. */
  lemma PollStep(sys: System, side: Side, connect: Entry, script: seq<Outcome>)
    requires SystemOk(sys) && IsConnect(connect) && At(sys, side).alive && At(sys, side).sender.listed
    ensures HeadFits(At(sys, side).sender)
    ensures var p := Poll(At(sys, side).sender, script);
      var events := [Event(side, DoWritable(connect, false, script))];
      AllProper(events) && (p.ret >= 0 || p.again ==> At(Run(sys, events), side).sender == p.sender)
  {
    hide EndpointOk, Poll;
    var ev := Event(side, DoWritable(connect, false, script));
    HeadFitsOf(At(sys, side));
    RunUnfolds(sys, ev, []);
    assert [ev] + [] == [ev];
  }

  /** What the four events come to, if their poll does not fail. */
  lemma OvertakeRuns(sys: System, side: Side, connect: Entry, script: seq<Outcome>)
    requires SystemOk(sys) && IsConnect(connect) && At(sys, side).alive && At(sys, side).sender.listed
    ensures AllProper(Overtake(side, connect, script))
    ensures var s := Accept(Accept(Accept(At(sys, side).sender, ORDINARY), ORDINARY), ORDINARY);
      && HeadFits(s)
      && (Poll(s, script).ret >= 0 || Poll(s, script).again ==>
            At(Run(sys, Overtake(side, connect, script)), side).sender == Poll(s, script).sender)
  {
    hide EndpointOk, Poll, Step, Run, IsConnect;
    OvertakeIsProper(side, connect, script);
    var w, p := Event(side, DoWrite(ORDINARY, false)), Event(side, DoWritable(connect, false, script));
    WriteStep(sys, side, ORDINARY, false);
    var one := Step(sys, w);
    WriteStep(one, side, ORDINARY, false);
    var two := Step(one, w);
    WriteStep(two, side, ORDINARY, false);
    var three := Step(two, w);
    PollStep(three, side, connect, script);
    RunUnfolds(two, w, [p]);
    RunUnfolds(one, w, [w, p]);
    RunUnfolds(sys, w, [w, w, p]);
    assert [w] + [p] == [w, p] && [w] + [w, p] == [w, w, p] && [w] + [w, w, p] == Overtake(side, connect, script);
  }

  lemma FreshSender(ep: Endpoint)
    requires EndpointOk(ep) && ep.alive && !ep.sender.listed
    ensures var s := ep.sender;
      s.queue == [] && s.accepted == [] && s.position == 0 && s.departed == [] && s.wire == []
  {
    var s := ep.sender;
    assert Backlog(s) == [];
    if s.departed != [] {
      FirstEntry(s.departed);
    }
  }

  /** The event in which a connection queues its CONNECT. */
  lemma ConnectAct(me: Endpoint, peer: Endpoint, connect: Entry, script: seq<Outcome>)
    requires EndpointOk(me) && EndpointOk(peer) && Reads(me, peer)
    requires IsConnect(connect) && me.alive && !me.sender.listed
    ensures var next := Act(me, peer, DoWritable(connect, false, script));
      && next.alive
      && var s := next.sender;
        s.listed && s.queue == [connect] == s.accepted && s.position == 0 && s.departed == [] && s.wire == []
  {
    hide EndpointOk, Inv, IsConnect, Poll;
    FreshSender(me);
    HeadFitsOf(me);
  }

  lemma ConnectStep(sys: System, side: Side, connect: Entry, script: seq<Outcome>)
    requires SystemOk(sys) && IsConnect(connect) && At(sys, side).alive && !At(sys, side).sender.listed
    ensures var next := Step(sys, Event(side, DoWritable(connect, false, script)));
      && SystemOk(next) && At(next, side).alive
      && var s := At(next, side).sender;
        s.listed && s.queue == [connect] == s.accepted && s.position == 0 && s.departed == [] && s.wire == []
  {
    hide EndpointOk, Act, IsConnect;
    StepKeeps(sys, Event(side, DoWritable(connect, false, script)));
    ConnectAct(At(sys, side), At(sys, Peer(side)), connect, script);
  }

  /** A CONNECT whose allocation happened to hold the flag. */
  const FLAGGED_CONNECT :=
    Entry(0, [0, 0, 0, 12, TYPE_EVENT, CODE_CONNECT, DATA_PRIMITIVE, 1, 0, 0, 0, 0], false)

  lemma FlaggedConnectIsOne()
    ensures IsConnect(FLAGGED_CONNECT) && Flagged(FLAGGED_CONNECT.bytes)
  {
    var bytes := FLAGGED_CONNECT.bytes;
    assert bytes[..4] == [0, 0, 0, 12] && bytes[8..12] == [0, 0, 0, 0];
  }

  /** An input that fails: on a new connection whose CONNECT happens to have the flag, three ordinary
      writes and one writable event that the kernel makes wait, and CONNECT is gone. */
  lemma FlaggedConnectIsDropped(side: Side)
    ensures var events := [Event(side, DoWritable(FLAGGED_CONNECT, false, []))]
                          + Overtake(side, FLAGGED_CONNECT, [Again]);
      && SystemOk(NEW_SYSTEM) && AllProper(events)
      && At(Run(NEW_SYSTEM, events), side).sender.departed == [Dropped(FLAGGED_CONNECT, 3)]
  {
    hide EndpointOk, Run, Step, Poll, IsConnect, Flagged, Framed;
    FlaggedConnectIsOne();
    NewSystemOk();
    var connect := FLAGGED_CONNECT;
    var ev := Event(side, DoWritable(connect, false, []));
    ConnectStep(NEW_SYSTEM, side, connect, []);
    var sys := Step(NEW_SYSTEM, ev);
    OvertakeRuns(sys, side, connect, [Again]);
    RunUnfolds(NEW_SYSTEM, ev, Overtake(side, connect, [Again]));
    FlaggedHeadGivesWay(At(sys, side).sender, connect, ORDINARY);
  }

  /** A CONNECT that a connection queues is carried first by its wire in every continuation if and only
      if the flag in its header, which nothing initialises, is clear. */
  lemma ConnectLeads(sys: System, side: Side, connect: Entry, script: seq<Outcome>)
    requires SystemOk(sys) && IsConnect(connect) && At(sys, side).alive && !At(sys, side).sender.listed
    ensures SystemOk(Step(sys, Event(side, DoWritable(connect, false, script))))
    ensures AlwaysLeads(Step(sys, Event(side, DoWritable(connect, false, script))), side, connect.bytes)
        <==> connect.bytes[7] as int % 2 == 0
  {
    hide EndpointOk, Run, Step, Poll, IsConnect, Flagged;
    ConnectStep(sys, side, connect, script);
    FlagOctet(connect);
    var next := Step(sys, Event(side, DoWritable(connect, false, script)));
    if Flagged(connect.bytes) {
      OvertakeRuns(next, side, connect, [Count(8), Again]);
      FlaggedHeadGivesWay(At(next, side).sender, connect, ORDINARY);
      LengthsDiffer(connect);
    } else {
      forall events | AllProper(events)
        ensures Leads(At(Run(next, events), side).sender.wire, connect.bytes)
      {
        RunGrows(next, events, side);
        var end := Run(next, events);
        UnflaggedLeads(At(end, Peer(side)), At(end, side));
      }
    }
  }

  lemma FlagOctet(connect: Entry)
    requires IsConnect(connect)
    ensures Flagged(connect.bytes) <==> connect.bytes[7] as int % 2 == 1
  {
  }

  lemma LengthsDiffer(connect: Entry)
    requires IsConnect(connect)
    ensures !Leads(ORDINARY.bytes, connect.bytes)
  {
    assert connect.bytes[3] == connect.bytes[..4][3] == 12;
  }
}
