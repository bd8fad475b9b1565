/** The sending half of a connection as a state machine on values: `dx_write`
    offers buffers, the poller moves their bytes to the wire or drops them.
    PacketIo's methods are proved against these functions. */
module SendQueue {
  import opened Bytes
  import opened Framing
  import opened Kernel

  const REFUSE_ABOVE := 10
  const DROP_ABOVE := 3

  /** A buffer handed to `dx_write`: its identity, its bytes, and the `discardable` argument. */
  datatype Entry = Entry(id: nat, bytes: seq<uint8>, discardable: bool)

  /** How an entry left the head of the queue. */
  datatype Departure =
    | Sent(entry: Entry)
    | Dropped(entry: Entry, behind: nat)

  /** `listed` and `armed` are `plist_writing != NULL` and EPOLLOUT; `position` is the head
      buffer's. The other fields are history: `abandoned` is what teardown found queued. */
  datatype Sender = Sender(
    listed: bool,
    armed: bool,
    queue: seq<Entry>,
    position: nat,
    wire: seq<uint8>,
    departed: seq<Departure>,
    accepted: seq<Entry>,
    abandoned: seq<Entry>,
    offered: seq<Entry>,
    freed: seq<Entry>)

  const NEW_SENDER := Sender(false, true, [], 0, [], [], [], [], [], [])

  // ---------- the operations

  /** `dx_write` without a context for the descriptor: the buffer is only freed. */
  function Refuse(s: Sender, e: Entry): Sender {
    s.(offered := s.offered + [e], freed := s.freed + [e])
  }

  function Accept(s: Sender, e: Entry): Sender {
    s.(listed := true, armed := true, queue := s.queue + [e],
       accepted := s.accepted + [e], offered := s.offered + [e])
  }

  /** `dx_write` with a context: the new state and the returned value. */
  function Offer(s: Sender, e: Entry, fdClosed: bool): (Sender, int) {
    if !s.listed && fdClosed then
      (Refuse(s, e), -1)
    else if e.discardable && |s.queue| > REFUSE_ABOVE then
      (Refuse(s, e), 0)
    else
      (Accept(s, e), 0)
  }

  /** The head leaves the queue and is freed. */
  function Remove(s: Sender, d: Departure): Sender
    requires s.queue != []
  {
    s.(queue := s.queue[1..], position := 0, departed := s.departed + [d], freed := s.freed + [s.queue[0]])
  }

  predicate Droppable(s: Sender) {
    s.queue != [] && s.position == 0 && |s.queue| > DROP_ABOVE && Flagged(s.queue[0].bytes)
  }

  function Drop(s: Sender): Sender
    requires s.queue != []
  {
    Remove(s, Dropped(s.queue[0], |s.queue| - 1))
  }

  /** `n` more bytes of the head reach the wire. */
  function Push(s: Sender, n: nat): Sender
    requires s.queue != [] && s.position + n <= |s.queue[0].bytes|
  {
    s.(position := s.position + n, wire := s.wire + s.queue[0].bytes[s.position..s.position + n])
  }

  function Finish(s: Sender): Sender
    requires s.queue != []
  {
    Remove(s, Sent(s.queue[0]))
  }

  function Disarm(s: Sender): Sender {
    s.(armed := false)
  }

  datatype Polled = Polled(sender: Sender, ret: int, again: bool, script: seq<Outcome>)

  predicate HeadFits(s: Sender) {
    s.queue == [] || s.position <= |s.queue[0].bytes|
  }

  /** The loop of `dx_write_by_poller` from a nonempty queue; `total` is `twrite`. */
  function PollLoop(s: Sender, script: seq<Outcome>, total: int): Polled
    requires s.queue != [] && HeadFits(s)
    decreases |s.queue|, 0
  {
    if Droppable(s) then
      AfterRemove(Drop(s), script, total)
    else
      var room := |s.queue[0].bytes| - s.position;
      var n := Moved(Next(script), room);
      if n <= 0 then
        Polled(s, n, Next(script).Again?, Rest(script))
      else if n < room then
        Polled(Push(s, n), n, false, Rest(script))
      else
        AfterRemove(Finish(Push(s, n)), Rest(script), total + n)
  }

  function AfterRemove(s: Sender, script: seq<Outcome>, total: int): Polled
    requires HeadFits(s)
    decreases |s.queue|, 1
  {
    if s.queue == [] then Polled(Disarm(s), total, false, script) else PollLoop(s, script, total)
  }

  /** One turn of the loop. */
  lemma UnfoldPoll(s: Sender, script: seq<Outcome>, total: int)
    requires s.queue != [] && HeadFits(s)
    ensures PollLoop(s, script, total) ==
      if Droppable(s) then AfterRemove(Drop(s), script, total)
      else
        var room := |s.queue[0].bytes| - s.position;
        var n := Moved(Next(script), room);
        if n <= 0 then Polled(s, n, Next(script).Again?, Rest(script))
        else if n < room then Polled(Push(s, n), n, false, Rest(script))
        else AfterRemove(Finish(Push(s, n)), Rest(script), total + n)
  {
  }

  /** One call of `dx_write_by_poller`. */
  function Poll(s: Sender, script: seq<Outcome>): Polled
    requires HeadFits(s)
  {
    if s.queue == [] then Polled(Disarm(s), 0, false, script) else PollLoop(s, script, 0)
  }

  /** The context's destroyer closes the list: every queued buffer is freed. */
  function Teardown(s: Sender): Sender {
    s.(listed := false, armed := false, queue := [], abandoned := s.queue, freed := s.freed + s.queue)
  }

  // ---------- what the history says

  function Entries(ds: seq<Departure>): seq<Entry> {
    if ds == [] then [] else Entries(ds[..|ds| - 1]) + [ds[|ds| - 1].entry]
  }

  /** The packets that were sent, in order: the departures minus the drops. */
  function SentPackets(ds: seq<Departure>): seq<seq<uint8>> {
    if ds == [] then []
    else
      var last := ds[|ds| - 1];
      SentPackets(ds[..|ds| - 1]) + if last.Sent? then [last.entry.bytes] else []
  }

  /** Entries that nothing may lose: neither the argument nor the header flag is set. */
  predicate Protected(e: Entry) {
    !e.discardable && !Flagged(e.bytes)
  }

  function ProtectedOf(es: seq<Entry>): seq<Entry> {
    if es == [] then [] else (if Protected(es[0]) then [es[0]] else []) + ProtectedOf(es[1..])
  }

  function SentEntries(ds: seq<Departure>): seq<Entry> {
    if ds == [] then []
    else
      var last := ds[|ds| - 1];
      SentEntries(ds[..|ds| - 1]) + if last.Sent? then [last.entry] else []
  }

  function CountDiscardable(es: seq<Entry>): nat {
    if es == [] then 0 else (if es[0].discardable then 1 else 0) + CountDiscardable(es[1..])
  }

  /** Everything accepted and not departed, whether still queued or freed by teardown. */
  function Backlog(s: Sender): seq<Entry> {
    s.abandoned + s.queue
  }

  /** The part of the oldest unsent entry that is already on the wire. */
  function Started(s: Sender): seq<uint8> {
    if Backlog(s) == [] || |Backlog(s)[0].bytes| < s.position then []
    else Backlog(s)[0].bytes[..s.position]
  }

  // ---------- invariants

  /** The head is never used up, and EPOLLOUT is armed exactly while something waits. */
  predicate Shape(s: Sender) {
    && (s.queue == [] && s.abandoned == [] ==> s.position == 0)
    && (s.queue != [] ==> s.position < |s.queue[0].bytes|)
    && (s.abandoned != [] ==> s.position < |s.abandoned[0].bytes|)
    && (!s.listed ==> s.queue == [])
    && (s.listed ==> s.abandoned == [] && (s.armed <==> s.queue != []))
  }

  predicate NonEmpty(es: seq<Entry>) {
    forall i :: 0 <= i < |es| ==> 0 < |es[i].bytes|
  }

  /** The wire carries whole sent packets, then exactly the started part of the head. */
  predicate Wire(s: Sender) {
    Shape(s) && s.wire == Concat(SentPackets(s.departed)) + Started(s)
  }

  lemma WireHasShape(s: Sender)
    requires Wire(s)
    ensures Shape(s)
  {
  }

  /** Nothing is reordered, duplicated or forgotten. */
  predicate Order(s: Sender) {
    s.accepted == Entries(s.departed) + Backlog(s)
  }

  /** Only a flagged packet with at least three behind it was ever dropped. */
  predicate LegalDrops(ds: seq<Departure>) {
    forall i :: 0 <= i < |ds| && ds[i].Dropped? ==> Flagged(ds[i].entry.bytes) && ds[i].behind >= DROP_ABOVE
  }

  /** A discardable entry never sits past the eleventh place. */
  predicate Bounded(es: seq<Entry>) {
    forall i :: 0 <= i < |es| && es[i].discardable ==> i <= REFUSE_ABOVE
  }

  /** Each offered buffer is queued once or freed once. */
  predicate Ownership(s: Sender) {
    multiset(s.offered) == multiset(s.freed) + multiset(s.queue)
  }

  predicate Inv(s: Sender) {
    Wire(s) && NonEmpty(s.queue) && Order(s) && LegalDrops(s.departed) && Bounded(s.queue) && Ownership(s)
  }

  // ---------- every operation keeps them

  lemma RefuseKeeps(s: Sender, e: Entry)
    requires Inv(s)
    ensures Inv(Refuse(s, e))
  {
    hide Concat, SentPackets, Entries;
    assert multiset(s.offered + [e]) == multiset(s.offered) + multiset{e};
    assert multiset(s.freed + [e]) == multiset(s.freed) + multiset{e};
  }

  lemma AcceptOrder(s: Sender, e: Entry)
    requires Order(s) && s.abandoned == []
    ensures Order(Accept(s, e))
  {
    assert Backlog(s) == s.queue && Backlog(Accept(s, e)) == s.queue + [e];
    assert Entries(s.departed) + (s.queue + [e]) == Entries(s.departed) + s.queue + [e];
  }

  lemma AcceptOwnership(s: Sender, e: Entry)
    requires Ownership(s)
    ensures Ownership(Accept(s, e))
  {
    assert multiset(s.offered + [e]) == multiset(s.offered) + multiset{e};
    assert multiset(s.queue + [e]) == multiset(s.queue) + multiset{e};
  }

  lemma AcceptWire(s: Sender, e: Entry)
    requires Wire(s) && 0 < |e.bytes| && s.abandoned == []
    ensures Wire(Accept(s, e))
  {
    assert Backlog(s) == s.queue && Backlog(Accept(s, e)) == s.queue + [e];
    assert Started(Accept(s, e)) == Started(s);
  }

  lemma AcceptKeeps(s: Sender, e: Entry)
    requires Inv(s) && 0 < |e.bytes| && s.abandoned == []
    requires e.discardable ==> |s.queue| <= REFUSE_ABOVE
    ensures Inv(Accept(s, e))
  {
    AcceptOrder(s, e);
    AcceptOwnership(s, e);
    AcceptWire(s, e);
    hide Wire, Order, Ownership;
  }

  lemma OfferKeeps(s: Sender, e: Entry, fdClosed: bool)
    requires Inv(s) && 0 < |e.bytes| && s.abandoned == []
    ensures Inv(Offer(s, e, fdClosed).0)
  {
    if (!s.listed && fdClosed) || (e.discardable && |s.queue| > REFUSE_ABOVE) {
      RefuseKeeps(s, e);
    } else {
      AcceptKeeps(s, e);
    }
  }

  lemma JoinParts(w: seq<uint8>, b: seq<uint8>, p: nat, q: nat)
    requires p <= q <= |b|
    ensures w + b[..p] + b[p..q] == w + b[..q]
  {
    assert b[..q] == b[..p] + b[p..q];
  }

  /** `Push` advances the wire and the head together. */
  lemma PushWire(s: Sender, n: nat)
    requires Wire(s) && s.listed && s.queue != []
    requires s.position + n <= |s.queue[0].bytes|
    ensures Push(s, n).wire == Concat(SentPackets(s.departed)) + s.queue[0].bytes[..s.position + n]
  {
    hide Concat, SentPackets;
    assert Backlog(s) == s.queue;
    JoinParts(Concat(SentPackets(s.departed)), s.queue[0].bytes, s.position, s.position + n);
  }

  lemma PushKeeps(s: Sender, n: nat)
    requires Inv(s) && s.queue != [] && s.listed
    requires s.position + n < |s.queue[0].bytes|
    ensures Inv(Push(s, n))
  {
    PushWire(s, n);
    assert Backlog(s) == s.queue && Backlog(Push(s, n)) == s.queue;
  }

  lemma DepartureAppended(ds: seq<Departure>, d: Departure)
    ensures Entries(ds + [d]) == Entries(ds) + [d.entry]
    ensures SentPackets(ds + [d]) == SentPackets(ds) + if d.Sent? then [d.entry.bytes] else []
    ensures SentEntries(ds + [d]) == SentEntries(ds) + if d.Sent? then [d.entry] else []
  {
    assert (ds + [d])[..|ds|] == ds;
  }

  /** The bookkeeping common to a finished and a dropped head. */
  predicate Kept(s: Sender) {
    s.abandoned == [] && NonEmpty(s.queue) && Order(s) && LegalDrops(s.departed) && Bounded(s.queue) && Ownership(s)
  }

  lemma RemoveOrder(s: Sender, d: Departure)
    requires Order(s) && s.abandoned == [] && s.queue != [] && d.entry == s.queue[0]
    ensures Order(Remove(s, d))
  {
    DepartureAppended(s.departed, d);
    var e, rest := s.queue[0], s.queue[1..];
    assert Backlog(s) == s.queue && Backlog(Remove(s, d)) == rest;
    assert Entries(s.departed) + s.queue == Entries(s.departed) + [e] + rest;
  }

  lemma RemoveOwnership(s: Sender, d: Departure)
    requires Ownership(s) && s.queue != []
    ensures Ownership(Remove(s, d))
  {
    var e, rest := s.queue[0], s.queue[1..];
    assert s.queue == [e] + rest;
    assert multiset(s.queue) == multiset{e} + multiset(rest);
    assert multiset(s.freed + [e]) == multiset(s.freed) + multiset{e};
  }

  lemma RemoveKeeps(s: Sender, d: Departure)
    requires Kept(s) && s.queue != [] && d.entry == s.queue[0]
    requires d.Dropped? ==> Flagged(d.entry.bytes) && d.behind >= DROP_ABOVE
    ensures Kept(Remove(s, d))
  {
    RemoveOrder(s, d);
    RemoveOwnership(s, d);
  }

  /** An invariant state but for the arming of a queue that just became empty. */
  predicate Between(s: Sender) {
    && s.listed && s.armed && s.position == 0 && Kept(s)
    && s.wire == Concat(SentPackets(s.departed))
  }

  lemma BetweenIsInv(s: Sender)
    requires Between(s)
    ensures Inv(if s.queue == [] then Disarm(s) else s)
  {
    assert Backlog(s) == s.queue;
    assert Started(s) == [];
  }

  lemma DropKeeps(s: Sender)
    requires Inv(s) && s.listed && Droppable(s)
    ensures Between(Drop(s))
  {
    hide Concat, SentPackets, Entries, Order, Ownership, LegalDrops, Bounded, NonEmpty, Flagged;
    var d := Dropped(s.queue[0], |s.queue| - 1);
    RemoveKeeps(s, d);
    DepartureAppended(s.departed, d);
    assert SentPackets(s.departed + [d]) == SentPackets(s.departed);
    assert Started(s) == [];
  }

  lemma FinishWire(s: Sender, n: nat)
    requires Wire(s) && s.listed && s.queue != []
    requires s.position + n == |s.queue[0].bytes|
    ensures Finish(Push(s, n)).wire == Concat(SentPackets(Finish(Push(s, n)).departed))
  {
    hide Concat, SentPackets, Entries, Wire;
    var b := s.queue[0].bytes;
    PushWire(s, n);
    DepartureAppended(s.departed, Sent(s.queue[0]));
    ConcatPush(SentPackets(s.departed), b);
    assert b[..|b|] == b;
  }

  lemma FinishKeeps(s: Sender, n: nat)
    requires Inv(s) && s.listed && s.queue != []
    requires s.position + n == |s.queue[0].bytes|
    ensures Between(Finish(Push(s, n)))
  {
    FinishWire(s, n);
    assert Kept(Push(s, n)) by {
      assert Backlog(Push(s, n)) == Backlog(s);
    }
    RemoveKeeps(Push(s, n), Sent(s.queue[0]));
  }

  /** Any call of the poller, whatever the kernel answers, keeps every invariant. */
  lemma {:induction false} PollLoopKeeps(s: Sender, script: seq<Outcome>, total: int)
    requires Inv(s) && s.listed && s.queue != []
    ensures Inv(PollLoop(s, script, total).sender)
    ensures PollLoop(s, script, total).sender.listed
    decreases |s.queue|, 0
  {
    hide PollLoop, AfterRemove, Flagged, Wire, Order, Ownership, LegalDrops, Bounded, Between;
    assert Shape(s) by {
      WireHasShape(s);
    }
    UnfoldPoll(s, script, total);
    if Droppable(s) {
      DropKeeps(s);
      AfterRemoveKeeps(Drop(s), script, total);
    } else {
      var room := |s.queue[0].bytes| - s.position;
      var n := Moved(Next(script), room);
      if n == room {
        FinishKeeps(s, n);
        AfterRemoveKeeps(Finish(Push(s, n)), Rest(script), total + n);
      } else if 0 < n {
        PushKeeps(s, n);
      }
    }
  }

  lemma {:induction false} AfterRemoveKeeps(s: Sender, script: seq<Outcome>, total: int)
    requires Between(s)
    ensures Inv(AfterRemove(s, script, total).sender)
    ensures AfterRemove(s, script, total).sender.listed
    decreases |s.queue|, 1
  {
    BetweenIsInv(s);
    if s.queue != [] {
      PollLoopKeeps(s, script, total);
    }
  }

  lemma PollKeeps(s: Sender, script: seq<Outcome>)
    requires Inv(s) && s.listed
    ensures Inv(Poll(s, script).sender) && Poll(s, script).sender.listed
  {
    if s.queue != [] {
      PollLoopKeeps(s, script, 0);
    } else {
      assert Disarm(s) == s;
    }
  }

  lemma TeardownKeeps(s: Sender)
    requires Inv(s) && s.abandoned == []
    ensures Inv(Teardown(s))
    ensures multiset(Teardown(s).freed) == multiset(Teardown(s).offered)
  {
    var t := Teardown(s);
    assert Backlog(t) == s.queue && Backlog(s) == s.queue;
    assert multiset(t.freed) == multiset(s.freed) + multiset(s.queue);
  }

  // ---------- what the invariants give

  lemma {:induction false} CountAtMost(es: seq<Entry>, bound: nat)
    requires forall i :: 0 <= i < |es| && es[i].discardable ==> i < bound
    ensures CountDiscardable(es) <= bound
  {
    if es != [] && bound > 0 {
      CountAtMost(es[1..], bound - 1);
    } else if es != [] {
      CountAtMost(es[1..], 0);
    }
  }

  /** However many packets are queued, at most eleven were accepted as discardable. */
  lemma AtMostElevenDiscardable(s: Sender)
    requires Inv(s)
    ensures CountDiscardable(s.queue) <= 11
  {
    CountAtMost(s.queue, REFUSE_ABOVE + 1);
  }

  lemma {:induction false} ProtectedAppend(a: seq<Entry>, b: seq<Entry>)
    ensures ProtectedOf(a + b) == ProtectedOf(a) + ProtectedOf(b)
  {
    if a == [] {
      assert a + b == b;
    } else {
      ProtectedAppend(a[1..], b);
      assert (a + b)[1..] == a[1..] + b && (a + b)[0] == a[0];
      Regroup(if Protected(a[0]) then [a[0]] else [], ProtectedOf(a[1..]), ProtectedOf(b));
    }
  }

  lemma {:induction false} DropsSpareProtected(ds: seq<Departure>)
    requires LegalDrops(ds)
    ensures ProtectedOf(Entries(ds)) == ProtectedOf(SentEntries(ds))
  {
    if ds != [] {
      var init, last := ds[..|ds| - 1], ds[|ds| - 1];
      DropsSpareProtected(init);
      ProtectedAppend(Entries(init), [last.entry]);
      ProtectedAppend(SentEntries(init), if last.Sent? then [last.entry] else []);
    }
  }

  /** No packet with both flags clear is lost: those accepted are, in order and with
      repetitions, those sent followed by those not yet sent. */
  lemma NothingProtectedIsLost(s: Sender)
    requires Inv(s)
    ensures ProtectedOf(s.accepted) == ProtectedOf(SentEntries(s.departed)) + ProtectedOf(Backlog(s))
  {
    ProtectedAppend(Entries(s.departed), Backlog(s));
    DropsSpareProtected(s.departed);
  }

  /** The wire only grows. */
  lemma {:induction false} PollLoopGrows(s: Sender, script: seq<Outcome>, total: int)
    requires s.queue != [] && HeadFits(s)
    ensures s.wire <= PollLoop(s, script, total).sender.wire
    ensures PollLoop(s, script, total).sender.accepted == s.accepted
    ensures PollLoop(s, script, total).sender.abandoned == s.abandoned
    ensures PollLoop(s, script, total).sender.listed == s.listed
    decreases |s.queue|
  {
    var room := |s.queue[0].bytes| - s.position;
    var n := Moved(Next(script), room);
    if Droppable(s) {
      if Drop(s).queue != [] {
        PollLoopGrows(Drop(s), script, total);
      }
    } else if n == room && n > 0 {
      var t := Finish(Push(s, n));
      assert s.wire <= t.wire;
      if t.queue != [] {
        PollLoopGrows(t, Rest(script), total + n);
      }
    }
  }

  lemma PollGrows(s: Sender, script: seq<Outcome>)
    requires HeadFits(s)
    ensures s.wire <= Poll(s, script).sender.wire
    ensures Poll(s, script).sender.accepted == s.accepted
    ensures Poll(s, script).sender.abandoned == s.abandoned
    ensures Poll(s, script).sender.listed == s.listed
  {
    if s.queue != [] {
      PollLoopGrows(s, script, 0);
    }
  }

  // ---------- the writes of one call

  /** The sizes of the writes one call of the poller makes, as long as each completes: what is
      left of the head, then every later packet that is not dropped when its turn comes. */
  function Rooms(queue: seq<Entry>, position: nat): seq<nat>
    requires queue == [] || position <= |queue[0].bytes|
  {
    if queue == [] then []
    else if position == 0 && |queue| >= 4 && 8 <= |queue[0].bytes| && queue[0].bytes[7] as int % 2 == 1 then
      Rooms(queue[1..], 0)
    else [|queue[0].bytes| - position] + Rooms(queue[1..], 0)
  }

  /** How many of these writes the kernel completes. */
  function Completed(rooms: seq<nat>, script: seq<Outcome>): (k: nat)
    ensures k <= |rooms|
  {
    if rooms == [] || Moved(Next(script), rooms[0]) < rooms[0] then 0
    else 1 + Completed(rooms[1..], Rest(script))
  }

  function Total(rooms: seq<nat>): nat {
    if rooms == [] then 0 else rooms[0] + Total(rooms[1..])
  }

  /** The kernel's answer to the first write it does not complete is an error. */
  predicate HitsError(s: Sender, script: seq<Outcome>)
    requires HeadFits(s)
  {
    var rooms := Rooms(s.queue, s.position);
    var k := Completed(rooms, script);
    k < |rooms| && Answer(script, k).Error?
  }

  /** What is left of the answers after `k` of them. */
  function Unused(script: seq<Outcome>, k: nat): seq<Outcome> {
    if k <= |script| then script[k..] else []
  }

  /** What one call came to, told by the kernel's answers alone; `before` bytes were on the wire, and
      `total` had been moved. With every write completed, all of them were moved and the queue is empty;
      otherwise the result is that of the write that stopped the call, no head being left that should
      be dropped. */
  predicate Accounts(rooms: seq<nat>, script: seq<Outcome>, total: int, before: int, p: Polled) {
    var k := Completed(rooms, script);
    && p.script == Unused(script, if k == |rooms| then k else k + 1)
    && if k == |rooms| then
      p.sender.queue == [] && p.ret == total + Total(rooms) && |p.sender.wire| == before + Total(rooms)
    else
      && p.ret == Moved(Answer(script, k), rooms[k])
      && p.again == Answer(script, k).Again?
      && |p.sender.wire| == before + Total(rooms[..k]) + (if p.ret > 0 then p.ret else 0)
      && p.sender.queue != [] && !Droppable(p.sender)
  }

  lemma AccountsPush(room: nat, rooms: seq<nat>, script: seq<Outcome>, total: int, before: int, p: Polled)
    requires Moved(Next(script), room) == room > 0
    requires Accounts(rooms, Rest(script), total + room, before + room, p)
    ensures Accounts([room] + rooms, script, total, before, p)
  {
    var all, k := [room] + rooms, Completed(rooms, Rest(script));
    assert all[1..] == rooms && Completed(all, script) == k + 1;
    assert Answer(script, k + 1) == Answer(Rest(script), k);
    if k < |rooms| {
      assert all[..k + 1][1..] == rooms[..k];
    }
  }

  /** The last packet has left, dropped or finished. */
  lemma AccountsEnd(t: Sender, script: seq<Outcome>, total: int)
    requires t.queue == []
    ensures Accounts([], script, total, |t.wire|, AfterRemove(t, script, total))
  {
  }

  lemma AccountsStop(s: Sender, rooms: seq<nat>, script: seq<Outcome>, total: int)
    requires s.queue != [] && s.position < |s.queue[0].bytes| && !Droppable(s)
    requires Moved(Next(script), |s.queue[0].bytes| - s.position) < |s.queue[0].bytes| - s.position
    ensures Accounts([|s.queue[0].bytes| - s.position] + rooms, script, total, |s.wire|, PollLoop(s, script, total))
  {
    assert ([|s.queue[0].bytes| - s.position] + rooms)[..0] == [];
  }

  lemma {:induction false} PollAccounts(s: Sender, script: seq<Outcome>, total: int)
    requires s.queue != [] && s.position < |s.queue[0].bytes| && NonEmpty(s.queue)
    ensures Accounts(Rooms(s.queue, s.position), script, total, |s.wire|, PollLoop(s, script, total))
    decreases |s.queue|, 0
  {
    hide Accounts, PollLoop, AfterRemove;
    UnfoldPoll(s, script, total);
    if Droppable(s) {
      AccountsAfter(Drop(s), script, total);
    } else {
      var room := |s.queue[0].bytes| - s.position;
      var n := Moved(Next(script), room);
      var rooms := Rooms(s.queue[1..], 0);
      if n < room {
        AccountsStop(s, rooms, script, total);
      } else {
        AccountsAfter(Finish(Push(s, room)), Rest(script), total + room);
        AccountsPush(room, rooms, script, total, |s.wire|, PollLoop(s, script, total));
      }
    }
  }

  lemma {:induction false} AccountsAfter(t: Sender, script: seq<Outcome>, total: int)
    requires NonEmpty(t.queue) && t.position == 0
    ensures HeadFits(t)
    ensures Accounts(Rooms(t.queue, 0), script, total, |t.wire|, AfterRemove(t, script, total))
    decreases |t.queue|, 1
  {
    hide Accounts, PollLoop;
    if t.queue == [] {
      AccountsEnd(t, script, total);
    } else {
      PollAccounts(t, script, total);
    }
  }

  /** A call fails for good exactly when the kernel's answers run into an error. */
  lemma PollFailsExactlyOnError(s: Sender, script: seq<Outcome>)
    requires Inv(s) && s.listed
    ensures Poll(s, script).ret < 0 && !Poll(s, script).again <==> HitsError(s, script)
  {
    if s.queue != [] {
      PollAccounts(s, script, 0);
      RoomsPositive(s.queue, s.position);
    }
  }

  lemma {:induction false} RoomsPositive(queue: seq<Entry>, position: nat)
    requires NonEmpty(queue) && (queue != [] ==> position < |queue[0].bytes|)
    ensures forall i :: 0 <= i < |Rooms(queue, position)| ==> Rooms(queue, position)[i] > 0
    decreases |queue|
  {
    if queue != [] {
      RoomsPositive(queue[1..], 0);
    }
  }

  /** A flagged head with three others behind it leaves unsent, and the next one goes out instead. */
  lemma FlaggedHeadGivesWay(s: Sender, head: Entry, other: Entry)
    requires s.queue == [head] && s.position == 0 && Flagged(head.bytes) && |other.bytes| == 8
    ensures var t := Accept(Accept(Accept(s, other), other), other);
      && HeadFits(t)
      && Poll(t, [Again]).sender.departed == s.departed + [Dropped(head, 3)] && Poll(t, [Again]).again
      && Poll(t, [Count(8), Again]).sender.wire == s.wire + other.bytes && Poll(t, [Count(8), Again]).again
  {
    hide Flagged;
    var t := Accept(Accept(Accept(s, other), other), other);
    var u := Drop(t);
    assert t.queue == [head, other, other, other] && u.queue == [other, other, other];
    UnfoldPoll(t, [Again], 0);
    UnfoldPoll(u, [Again], 0);
    UnfoldPoll(t, [Count(8), Again], 0);
    UnfoldPoll(u, [Count(8), Again], 0);
    assert [Count(8), Again][1..] == [Again];
    var v := Finish(Push(u, 8));
    assert v.queue == [other, other] && other.bytes[0..8] == other.bytes;
    UnfoldPoll(v, [Again], 8);
  }

  // ---------- what goes first

  lemma {:induction false} FirstSent(ds: seq<Departure>)
    requires ds != [] && ds[0].Sent?
    ensures SentPackets(ds) != [] && SentPackets(ds)[0] == ds[0].entry.bytes
  {
    if |ds| > 1 {
      FirstSent(ds[..|ds| - 1]);
    }
  }

  lemma {:induction false} FirstEntry(ds: seq<Departure>)
    requires ds != []
    ensures Entries(ds) != [] && Entries(ds)[0] == ds[0].entry
  {
    if |ds| > 1 {
      FirstEntry(ds[..|ds| - 1]);
    }
  }

  /** The wire carries this packet first, as far as it carries anything. */
  predicate Leads(wire: seq<uint8>, p: seq<uint8>) {
    wire <= p || p <= wire
  }

  lemma LeadsConcat(ps: seq<seq<uint8>>, rest: seq<uint8>)
    requires ps != []
    ensures Leads(Concat(ps) + rest, ps[0])
  {
    assert Concat(ps) == ps[0] + Concat(ps[1..]);
  }

  lemma NothingDeparted(s: Sender)
    requires Order(s) && s.departed == [] && s.accepted != []
    ensures Backlog(s) != [] && Backlog(s)[0] == s.accepted[0] && SentPackets(s.departed) == []
  {
    assert s.accepted == Backlog(s);
  }

  lemma OldestDeparted(s: Sender)
    requires Order(s) && LegalDrops(s.departed) && s.departed != []
    requires s.accepted != [] && !Flagged(s.accepted[0].bytes)
    ensures SentPackets(s.departed) != [] && SentPackets(s.departed)[0] == s.accepted[0].bytes
  {
    hide Flagged;
    FirstEntry(s.departed);
    assert s.accepted[0] == s.departed[0].entry;
    FirstSent(s.departed);
  }

  /** An unflagged packet accepted first cannot be dropped, so the wire starts with it. */
  lemma UnflaggedGoesFirst(s: Sender)
    requires Inv(s) && s.accepted != [] && !Flagged(s.accepted[0].bytes)
    ensures Leads(s.wire, s.accepted[0].bytes)
    ensures SentPackets(s.departed) != [] ==> SentPackets(s.departed)[0] == s.accepted[0].bytes
  {
    hide Flagged, NonEmpty, Bounded, Ownership, Order, LegalDrops, SentPackets, Leads, Backlog;
    if s.departed == [] {
      NothingDeparted(s);
      WireOfHead(s);
    } else {
      OldestDeparted(s);
      LeadsConcat(SentPackets(s.departed), Started(s));
    }
  }

  lemma WireOfHead(s: Sender)
    requires Wire(s) && SentPackets(s.departed) == [] && Backlog(s) != []
    ensures Leads(s.wire, Backlog(s)[0].bytes)
  {
  }

  // ---------- progress

  /** A kernel that takes whatever it is given, `k` times. */
  predicate Generous(script: seq<Outcome>, k: nat, room: nat) {
    k <= |script| && forall i :: 0 <= i < k ==> script[i].Count? && script[i].n >= room
  }

  /** Given room for every queued buffer, one poller call empties the queue, disarms,
      and returns the number of bytes it moved. */
  lemma {:induction false} GenerousPollEmpties(s: Sender, script: seq<Outcome>, total: int, room: nat)
    requires s.queue != [] && s.position < |s.queue[0].bytes| && NonEmpty(s.queue)
    requires forall i :: 0 <= i < |s.queue| ==> |s.queue[i].bytes| <= room
    requires Generous(script, |s.queue|, room)
    ensures var p := PollLoop(s, script, total);
      p.sender.queue == [] && !p.sender.armed && p.ret == total + |p.sender.wire| - |s.wire|
    decreases |s.queue|
  {
    var left := |s.queue[0].bytes| - s.position;
    if Droppable(s) {
      GenerousPollEmpties(Drop(s), script, total, room);
    } else {
      var t := Finish(Push(s, left));
      if t.queue != [] {
        GenerousPollEmpties(t, script[1..], total + left, room);
      }
    }
  }
}
