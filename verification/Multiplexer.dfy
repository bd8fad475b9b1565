/** The list of event contexts, looked up by descriptor. */
module Multiplexer {
  import opened LinkedList
  import opened Buffers
  import opened PacketIo
  import CN = Connection

  class Multiplexer {
    const contexts: List<EventContext>

    /** `dx_event_context_compare`: contexts are told apart by descriptor. */
    static const SAME_FD: (EventContext, EventContext) -> bool :=
      (a: EventContext, b: EventContext) => a.number == b.number

    ghost predicate Valid()
      reads this, contexts, contexts.nodes
    {
      contexts.finder == SAME_FD && contexts.Valid()
    }

    /** At most one registered context per descriptor. */
    static ghost predicate Distinct(s: seq<EventContext>) {
      forall i, j :: 0 <= i < j < |s| ==> s[i].number != s[j].number
    }

    constructor ()
      ensures Valid() && fresh(contexts) && contexts.Contents() == [] == contexts.destroyed && contexts.nodes == []
    {
      contexts := new List<EventContext>(SAME_FD);
    }

    /** `dx_add_event_context` */
    method Add(context: EventContext)
      requires Valid()
      modifies contexts, contexts.nodes
      ensures Valid() && contexts.Contents() == old(contexts.Contents()) + [context]
      ensures contexts.destroyed == old(contexts.destroyed)
      ensures |contexts.nodes| == |old(contexts.nodes)| + 1
      ensures contexts.nodes[..|old(contexts.nodes)|] == old(contexts.nodes)
      ensures fresh(contexts.nodes[|old(contexts.nodes)|])
    {
      contexts.Add(context);
    }

    /** The first registered context on this one's descriptor. */
    ghost function First(context: EventContext): EventContext
      requires context in contexts.Contents()
      reads this, contexts
    {
      var s := contexts.Contents();
      assert exists i :: 0 <= i < |s| && s[i] == context;
      s[FirstMatch(s, SAME_FD, context)]
    }

    static lemma SameDescriptor(s: seq<EventContext>, a: EventContext, b: EventContext)
      requires a.number == b.number
      ensures FirstMatch(s, SAME_FD, a) == FirstMatch(s, SAME_FD, b)
    {
      FirstMatchIs(s, SAME_FD, a, FirstMatch(s, SAME_FD, b));
    }

    /** A context that is still served. */
    static ghost predicate Served(c: EventContext)
      reads c, c.fd, c.writer, c.reader, c.writer.Repr, c.writer.payloads, c.reader.Repr
    {
      c.Valid() && c.alive
    }

    static ghost predicate Destroyed(c: EventContext)
      reads c, c.fd, c.writer, c.reader, c.writer.Repr, c.writer.payloads, c.reader.Repr
    {
      c.Valid() && !c.alive
    }

    /** `dx_event_context_destroyer` */
    static method Destroy(c: EventContext)
      requires Served(c)
      modifies c, c.writer.Repr
      ensures Destroyed(c) && c.model == CN.Delete(old(c.model))
    {
      c.Delete();
    }

    /** The list of contexts is no part of this one. */
    ghost predicate Apart(context: EventContext)
      reads contexts, context, context.writer, context.reader
    {
      && contexts !in context.writer.Repr && contexts !in context.reader.Repr
      && forall n :: n in contexts.nodes ==> n !in context.writer.Repr && n !in context.reader.Repr
    }

    /** `dx_get_event_context`: the first context on the descriptor, or none. */
    method Get(number: int) returns (context: EventContext?)
      requires Valid()
      ensures context == null ==> forall c :: c in contexts.Contents() ==> c.number != number
      ensures context != null ==>
        context.number == number && context in contexts.Contents() && First(context) == context
    {
      var pnode := contexts.head;
      ghost var k := 0;
      while pnode != null && pnode.data.number != number
        invariant 0 <= k <= |contexts.nodes|
        invariant pnode == if k < |contexts.nodes| then contexts.nodes[k] else null
        invariant forall i :: 0 <= i < k ==> contexts.nodes[i].data.number != number
        decreases |contexts.nodes| - k
      {
        pnode := pnode.next;
        k := k + 1;
      }
      context := if pnode == null then null else pnode.data;
      if pnode != null {
        ghost var s := contexts.Contents();
        assert s[k] == pnode.data;
        FirstMatchIs(s, SAME_FD, pnode.data, k);
      }
    }

    /** `dx_del_event_context`: the first context on the given one's descriptor leaves the list, every other
        staying in order, and its destroyer is run. */
    method Delete(context: EventContext)
      requires Valid() && context in contexts.Contents()
      requires Served(First(context)) && Apart(First(context))
      modifies contexts, contexts.nodes, First(context), First(context).writer.Repr
      ensures Valid()
      ensures var k := FirstMatch(old(contexts.Contents()), SAME_FD, context);
        && k < |old(contexts.Contents())|
        && contexts.Contents() == Without(old(contexts.Contents()), k)
        && contexts.destroyed == old(contexts.destroyed) + [old(contexts.Contents())[k]]
      ensures Destroyed(old(First(context))) && old(First(context)).model == CN.Delete(old(First(context).model))
    {
      hide Served, Destroyed, FirstMatch;
      var victim := Get(context.number);
      SameDescriptor(contexts.Contents(), victim, context);
      Unlist(context);
      Destroy(victim);
    }

    /** The list's half of it. */
    method Unlist(context: EventContext)
      requires Valid() && context in contexts.Contents()
      modifies contexts, contexts.nodes
      ensures Valid() && forall n :: n in contexts.nodes ==> n in old(contexts.nodes)
      ensures var k := FirstMatch(old(contexts.Contents()), SAME_FD, context);
        && k < |old(contexts.Contents())|
        && contexts.Contents() == Without(old(contexts.Contents()), k)
        && contexts.destroyed == old(contexts.destroyed) + [old(contexts.Contents())[k]]
    {
      ghost var s := contexts.Contents();
      assert exists i :: 0 <= i < |s| && s[i] == context;
      var _ := contexts.Remove(context);
    }

    /** What goes is the given context exactly if no other on its descriptor was added before it. */
    static lemma DeletesTheRightOne(s: seq<EventContext>, i: nat)
      requires i < |s| && forall j :: 0 <= j < i ==> s[j] != s[i]
      ensures var k := FirstMatch(s, SAME_FD, s[i]);
        k < |s| && (s[k] == s[i] <==> forall j :: 0 <= j < i ==> s[j].number != s[i].number)
    {
      hide FirstMatch;
      var k := FirstMatch(s, SAME_FD, s[i]);
      assert SAME_FD(s[i], s[i]);
      if k < i {
        assert SAME_FD(s[k], s[i]);
      }
    }

    /** An input that fails: two contexts are added for one descriptor and the second is deleted; the first is
        destroyed, and the second stays registered and alive. */
    static method DeletesAnother(number: int, one: Socket, other: Socket)
      returns (m: Multiplexer, first: EventContext, second: EventContext)
      requires one.written == [] == other.written
      ensures m.Valid() && m.contexts.Contents() == [second] && m.contexts.destroyed == [first] && first != second
      ensures Destroyed(first) && first.model == CN.Delete(CN.NEW_ENDPOINT)
      ensures Served(second) && second.model == CN.NEW_ENDPOINT
    {
      hide Served, Destroyed, Multiplexer.Valid, FirstMatch;
      m, first, second := TwoOnOne(number, one, other);
      OldestFirst(first, second);
      assert m.First(second) == first;
      forall i | 0 <= i < |m.contexts.nodes|
        ensures fresh(m.contexts.nodes[i])
      {
        assert m.contexts.nodes[i] in m.contexts.nodes;
      }
      m.Delete(second);
      assert m.contexts.Contents() == Without([first, second], 0) == [second];
    }

    static lemma OldestFirst(a: EventContext, b: EventContext)
      requires a.number == b.number
      ensures FirstMatch([a, b], SAME_FD, b) == 0
    {
      FirstMatchIs([a, b], SAME_FD, b, 0);
    }

    /** Two contexts for one descriptor number. */
    static method TwoOnOne(number: int, one: Socket, other: Socket)
      returns (m: Multiplexer, first: EventContext, second: EventContext)
      requires one.written == [] == other.written
      ensures fresh(m) && fresh(m.contexts) && m.Valid() && forall n :: n in m.contexts.nodes ==> fresh(n)
      ensures m.contexts.Contents() == [first, second] && m.contexts.destroyed == []
      ensures Served(first) && first.number == number && first.model == CN.NEW_ENDPOINT && first.writer.payloads == {}
      ensures Served(second) && second.number == number && second.model == CN.NEW_ENDPOINT
      ensures second.writer.payloads == {}
      ensures fresh(first) && fresh(first.writer) && first.writer.Repr == {first.writer}
      ensures first.reader.Repr == {first.reader} && second.reader.Repr == {second.reader}
      ensures second.writer.Repr == {second.writer} && first.fd == one && second.fd == other
      ensures first != second && first.writer != second.writer && first.reader != second.reader
      ensures m.Apart(first)
    {
      hide Served, Multiplexer.Valid;
      m := new Multiplexer();
      first := Connected(number, one);
      m.Add(first);
      second := Connected(number, other);
      m.Add(second);
      assert m.contexts.Contents() == [first, second];
    }

    static method Connected(number: int, fd: Socket) returns (c: EventContext)
      requires fd.written == []
      ensures Served(c) && c.number == number && c.model == CN.NEW_ENDPOINT && fresh(c) && c.fd == fd
      ensures fresh(c.writer) && fresh(c.reader) && c.writer.Repr == {c.writer} && c.reader.Repr == {c.reader}
      ensures c.writer.payloads == {}
    {
      c := new EventContext(number, fd);
    }

    /** With at most one context per descriptor, the descriptor is not found again. */
    static lemma NotFoundAgain(s: seq<EventContext>, i: nat)
      requires i < |s| && Distinct(s)
      ensures FirstMatch(s, SAME_FD, s[i]) == i
      ensures forall j :: 0 <= j < |s| - 1 ==> Without(s, i)[j].number != s[i].number
    {
      hide FirstMatch;
      FirstMatchIs(s, SAME_FD, s[i], i);
    }

    /** `dx_clear_event_context`: every context is destroyed once, in order. */
    method Clear()
      requires Valid()
      modifies contexts, contexts.nodes
      ensures Valid() && contexts.nodes == []
      ensures contexts.destroyed == old(contexts.destroyed) + old(contexts.Contents())
    {
      contexts.Clear();
    }
  }
}
