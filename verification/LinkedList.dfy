/** The doubly linked list under every queue of the library, as a refinement of a sequence. */
module LinkedList {

  /** The place of the first element the finder matches with `x`; the length if there is none. */
  function FirstMatch<T>(s: seq<T>, finder: (T, T) -> bool, x: T): (k: nat)
    ensures k <= |s|
    ensures forall i :: 0 <= i < k ==> !finder(s[i], x)
    ensures k < |s| ==> finder(s[k], x)
  {
    if s == [] || finder(s[0], x) then 0 else 1 + FirstMatch(s[1..], finder, x)
  }

  lemma FirstMatchIs<T>(s: seq<T>, finder: (T, T) -> bool, x: T, k: nat)
    requires k <= |s| && (k < |s| ==> finder(s[k], x))
    requires forall i :: 0 <= i < k ==> !finder(s[i], x)
    ensures FirstMatch(s, finder, x) == k
  {
  }

  /** A sequence without its k-th element. */
  function Without<T>(s: seq<T>, k: nat): seq<T>
    requires k < |s|
  {
    s[..k] + s[k + 1..]
  }

  class Node<T> {
    var prev: Node?<T>
    var next: Node?<T>
    const data: T

    constructor (data: T, prev: Node?<T>)
      ensures this.data == data && this.prev == prev && next == null
    {
      this.data, this.prev, this.next := data, prev, null;
    }
  }

  class List<T> {
    var head: Node?<T>
    var tail: Node?<T>
    const finder: (T, T) -> bool

    /** The nodes from head to tail, and every element the destroyer was called with. */
    ghost var nodes: seq<Node<T>>
    ghost var destroyed: seq<T>

    ghost predicate Valid()
      reads this, nodes
    {
      && (forall i, j :: 0 <= i < j < |nodes| ==> nodes[i] != nodes[j])
      && (nodes == [] ==> head == null && tail == null)
      && (nodes != [] ==> head == nodes[0] && tail == nodes[|nodes| - 1])
      && (nodes != [] ==> nodes[0].prev == null && nodes[|nodes| - 1].next == null)
      && (forall i {:trigger nodes[i].prev} :: 1 <= i < |nodes| ==> nodes[i].prev == nodes[i - 1])
      && (forall i {:trigger nodes[i].next} :: 0 <= i < |nodes| - 1 ==> nodes[i].next == nodes[i + 1])
    }

    /** The elements in order: what the list means. */
    ghost function Contents(): (s: seq<T>)
      reads this
      ensures |s| == |nodes|
    {
      Data(nodes)
    }

    static ghost function Data(ns: seq<Node<T>>): (s: seq<T>)
      ensures |s| == |ns|
      ensures forall i :: 0 <= i < |s| ==> s[i] == ns[i].data
    {
      seq(|ns|, i requires 0 <= i < |ns| => ns[i].data)
    }

    constructor (finder: (T, T) -> bool)
      ensures Valid() && Contents() == [] && destroyed == [] && this.finder == finder
      ensures nodes == []
    {
      this.finder := finder;
      head, tail := null, null;
      nodes, destroyed := [], [];
    }

    /** `dx_list_size` */
    method Size() returns (sz: nat)
      requires Valid()
      ensures sz == |Contents()|
    {
      sz := 0;
      var pnode := head;
      while pnode != null
        invariant sz <= |nodes|
        invariant pnode == if sz < |nodes| then nodes[sz] else null
        decreases |nodes| - sz
      {
        sz := sz + 1;
        pnode := pnode.next;
      }
    }

    /** `dx_list_add` */
    method Add(data: T)
      requires Valid()
      modifies this, nodes
      ensures Valid()
      ensures Contents() == old(Contents()) + [data] && destroyed == old(destroyed)
      ensures |nodes| == |old(nodes)| + 1 && nodes[..|old(nodes)|] == old(nodes)
      ensures fresh(nodes[|old(nodes)|]) && nodes[|old(nodes)|].data == data
    {
      var pnode := new Node(data, tail);
      if pnode.prev != null {
        pnode.prev.next := pnode;
      } else {
        head := pnode;
      }
      tail := pnode;
      nodes := nodes + [pnode];
    }

    static lemma DataWithout(ns: seq<Node<T>>, k: nat)
      requires k < |ns|
      ensures Data(Without(ns, k)) == Without(Data(ns), k)
    {
    }

    /** `dx_list_remove`: the first match goes, and goes to the destroyer. */
    method Remove(data: T) returns (ret: int)
      requires Valid()
      modifies this, nodes
      ensures Valid()
      ensures var k := FirstMatch(old(Contents()), finder, data);
        if k == |old(nodes)| then
          ret == -1 && nodes == old(nodes) && destroyed == old(destroyed)
        else
          && ret == 0
          && nodes == Without(old(nodes), k)
          && Contents() == Without(old(Contents()), k)
          && destroyed == old(destroyed) + [old(Contents())[k]]
    {
      hide FirstMatch;
      ghost var k: nat;
      var pnode;
      pnode, k := Find(data);
      if pnode == null {
        return -1;
      }
      DataWithout(nodes, k);
      Unlink(pnode, k);
      destroyed := destroyed + [pnode.data];
      return 0;
    }

    /** The search of `dx_list_remove`. */
    method Find(data: T) returns (pnode: Node?<T>, ghost k: nat)
      requires Valid()
      ensures k == FirstMatch(Contents(), finder, data)
      ensures pnode == if k < |nodes| then nodes[k] else null
    {
      pnode, k := head, 0;
      while pnode != null && !finder(pnode.data, data)
        invariant 0 <= k <= |nodes|
        invariant pnode == if k < |nodes| then nodes[k] else null
        invariant forall i :: 0 <= i < k ==> !finder(nodes[i].data, data)
        decreases |nodes| - k
      {
        pnode := pnode.next;
        k := k + 1;
      }
      FirstMatchIs(Contents(), finder, data, k);
    }

    /** The pointer surgery of `dx_list_remove`. */
    method Unlink(pnode: Node<T>, ghost k: nat)
      requires Valid() && k < |nodes| && pnode == nodes[k]
      modifies this, nodes
      ensures Valid() && destroyed == old(destroyed)
      ensures nodes == Without(old(nodes), k)
    {
      if pnode.prev == null {
        head := pnode.next;
      } else {
        pnode.prev.next := pnode.next;
      }
      if pnode.next == null {
        tail := pnode.prev;
      } else {
        pnode.next.prev := pnode.prev;
      }
      nodes := nodes[..k] + nodes[k + 1..];
    }

    /** Removing the head's data removes the head, if the finder matches it with itself. */
    method RemoveHead()
      requires Valid() && nodes != [] && finder(nodes[0].data, nodes[0].data)
      modifies this, nodes
      ensures Valid() && nodes == old(nodes)[1..]
      ensures destroyed == old(destroyed) + [old(nodes)[0].data]
    {
      FirstMatchIs(Contents(), finder, head.data, 0);
      var _ := Remove(head.data);
    }

    /** `dx_list_clear`: every element is destroyed once, in order. The source asks that the
        finder match an element with itself. */
    method Clear()
      requires Valid() && forall n :: n in nodes ==> finder(n.data, n.data)
      modifies this, nodes
      ensures Valid() && nodes == [] && head == null && tail == null
      ensures destroyed == old(destroyed) + old(Contents())
    {
      ghost var was, s := nodes, Data(nodes);
      ghost var k := 0;
      while head != null
        invariant Valid() && k <= |was| && nodes == was[k..]
        invariant destroyed == old(destroyed) + s[..k]
        decreases |was| - k
      {
        assert nodes[0] == was[k];
        RemoveHead();
        assert s[..k + 1] == s[..k] + [s[k]];
        k := k + 1;
      }
    }
  }
}
