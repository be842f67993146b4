/** The kernel module's doubly linked list (`list.c`): a circle of nodes through an empty
    head.  The ghost sequence is the list's elements in order. */
module KernelList {
  class Node {
    var list: List?
    var next: Node?
    var prev: Node?

    /** `list_node_init`. */
    constructor ()
      ensures list == null && next == null && prev == null
    {
      list, next, prev := null, null, null;
    }
  }

  /** Where the pointers of a circle's nodes lead: each to the nodes beside it, and the ends
      meet. */
  ghost predicate CircleOf(cyc: seq<Node>, nexts: seq<Node?>, prevs: seq<Node?>) {
    && cyc != [] && |nexts| == |prevs| == |cyc|
    && (forall i, j | 0 <= i < j < |cyc| :: cyc[i] != cyc[j])
    && (forall i {:trigger nexts[i]} | 0 <= i < |cyc| :: nexts[i] == cyc[if i + 1 == |cyc| then 0 else i + 1])
    && (forall i {:trigger prevs[i]} | 0 <= i < |cyc| :: prevs[i] == cyc[if i == 0 then |cyc| - 1 else i - 1])
  }

  ghost function Nexts(cyc: seq<Node>): (s: seq<Node?>)
    reads cyc
    ensures |s| == |cyc| && forall i | 0 <= i < |cyc| :: s[i] == cyc[i].next
  {
    seq(|cyc|, i requires 0 <= i < |cyc| reads cyc => cyc[i].next)
  }

  ghost function Prevs(cyc: seq<Node>): (s: seq<Node?>)
    reads cyc
    ensures |s| == |cyc| && forall i | 0 <= i < |cyc| :: s[i] == cyc[i].prev
  {
    seq(|cyc|, i requires 0 <= i < |cyc| reads cyc => cyc[i].prev)
  }

  ghost predicate Circle(cyc: seq<Node>)
    reads cyc
  {
    CircleOf(cyc, Nexts(cyc), Prevs(cyc))
  }

  function Without<T>(s: seq<T>, i: nat): (r: seq<T>)
    requires i < |s|
    ensures |r| == |s| - 1 && forall k | 0 <= k < |r| :: r[k] == if k < i then s[k] else s[k + 1]
  {
    s[..i] + s[i + 1..]
  }

  lemma WithoutTail(head: Node, nodes: seq<Node>, i: nat)
    requires 0 < i <= |nodes|
    ensures [head] + Without(nodes, i - 1) == Without([head] + nodes, i)
  {}

  /** The place after place i of n in a circle. */
  function After(n: nat, i: nat): nat
    requires i < n
  {
    if i + 1 == n then 0 else i + 1
  }

  /** Joining the neighbours of node i and leaving it out makes a circle of the rest. */
  lemma Unlinked(cyc: seq<Node>, nexts: seq<Node?>, prevs: seq<Node?>, i: nat)
    requires CircleOf(cyc, nexts, prevs) && 0 < i < |cyc|
    ensures var a := After(|cyc|, i);
      CircleOf(Without(cyc, i), Without(nexts[i - 1 := cyc[a]], i), Without(prevs[a := cyc[i - 1]], i))
  {
    var a := After(|cyc|, i);
    var c, n, p := Without(cyc, i), Without(nexts[i - 1 := cyc[a]], i), Without(prevs[a := cyc[i - 1]], i);
    forall k | 0 <= k < |c| ensures n[k] == c[if k + 1 == |c| then 0 else k + 1] {
      var w := if k < i then k else k + 1;
      assert nexts[w] == cyc[if w + 1 == |cyc| then 0 else w + 1];
    }
    forall k | 0 <= k < |c| ensures p[k] == c[if k == 0 then |c| - 1 else k - 1] {
      var w := if k < i then k else k + 1;
      assert prevs[w] == cyc[if w == 0 then |cyc| - 1 else w - 1];
    }
  }

  /** A new last node makes a circle with the others. */
  lemma Linked(cyc: seq<Node>, nexts: seq<Node?>, prevs: seq<Node?>, e: Node)
    requires CircleOf(cyc, nexts, prevs) && e !in cyc
    ensures var n := |cyc| - 1;
      CircleOf(cyc + [e], nexts[n := e] + [cyc[0]], (prevs + [cyc[n]])[0 := e])
  {}

  /** What is known of node i of a circle. */
  lemma AtPlace(cyc: seq<Node>, nexts: seq<Node?>, prevs: seq<Node?>, i: nat)
    requires CircleOf(cyc, nexts, prevs) && i < |cyc|
    ensures nexts[i] == cyc[After(|cyc|, i)] && prevs[i] == cyc[if i == 0 then |cyc| - 1 else i - 1]
    ensures forall j | 0 <= j < |cyc| && j != i :: cyc[j] != cyc[i]
  {}

  /** The nodes' pointers are as listed, but for node i. */
  ghost predicate Point(cyc: seq<Node>, nexts: seq<Node?>, prevs: seq<Node?>, i: nat)
    reads cyc
  {
    && |nexts| == |prevs| == |cyc|
    && forall w | 0 <= w < |cyc| && w != i :: cyc[w].next == nexts[w] && cyc[w].prev == prevs[w]
  }

  lemma PointersAre(was: seq<Node>, i: nat, nexts: seq<Node?>, prevs: seq<Node?>)
    requires i < |was| && Point(was, nexts, prevs, i)
    ensures Nexts(Without(was, i)) == Without(nexts, i) && Prevs(Without(was, i)) == Without(prevs, i)
  {}

  /** The pointer updates of `list_remove`. */
  method Unlink(element: Node, ghost was: seq<Node>, ghost i: nat, ghost nexts: seq<Node?>, ghost prevs: seq<Node?>)
    requires CircleOf(was, nexts, prevs) && Point(was, nexts, prevs, |was|) && 0 < i < |was| && was[i] == element
    modifies was
    ensures forall w | 0 <= w < |was| && w != i :: was[w].list == old(was[w].list)
    ensures element.list == null && element.next == null && element.prev == null
    ensures Point(was, nexts[i - 1 := was[After(|was|, i)]], prevs[After(|was|, i) := was[i - 1]], i)
  {
    hide CircleOf;
    ghost var a := After(|was|, i);
    AtPlace(was, nexts, prevs, i);
    AtPlace(was, nexts, prevs, a);
    AtPlace(was, nexts, prevs, i - 1);
    element.prev.next := element.next;
    element.next.prev := element.prev;
    element.list := null;
    element.next := null;
    element.prev := null;
  }

  class List {
    const head: Node
    ghost var nodes: seq<Node>

    ghost function All(): seq<Node>
      reads this
    {
      [head] + nodes
    }

    ghost predicate Valid()
      reads this, head, nodes
    {
      && Circle(All())
      && forall i | 0 <= i < |All()| :: All()[i].list == this
    }

    /** `list_init`. */
    constructor ()
      ensures Valid() && nodes == [] && fresh(head)
    {
      head := new Node();
      nodes := [];
      new;
      head.list := this;
      head.prev := head;
      head.next := head;
    }

    /** `list_insert`: a node that is in no list comes last. */
    method Insert(element: Node)
      requires Valid() && element !in All()
      modifies this`nodes, head, nodes, element
      ensures Valid() && nodes == old(nodes) + [element]
    {
      hide CircleOf;
      ghost var was := All();
      ghost var nexts, prevs, n := Nexts(was), Prevs(was), |was| - 1;
      AtPlace(was, nexts, prevs, 0);
      AtPlace(was, nexts, prevs, n);
      Linked(was, nexts, prevs, element);
      var last := head.prev;
      last.next := element;
      element.list := this;
      element.prev := last;
      element.next := head;
      head.prev := element;
      nodes := nodes + [element];
      assert All() == was + [element];
      assert Nexts(All()) == nexts[n := element] + [head];
      assert Prevs(All()) == (prevs + [last])[0 := element];
    }

    /** Element i leaves, and its neighbours are joined. */
    method Leave(element: Node, ghost i: nat)
      requires Valid() && i < |nodes| && nodes[i] == element
      modifies this`nodes, head, nodes
      ensures Valid() && nodes == Without(old(nodes), i)
      ensures element.list == null && element.next == null && element.prev == null
    {
      hide CircleOf, Nexts, Prevs, Without;
      ghost var was := All();
      ghost var nexts, prevs, a := Nexts(was), Prevs(was), After(|was|, i + 1);
      Unlinked(was, nexts, prevs, i + 1);
      Unlink(element, was, i + 1, nexts, prevs);
      WithoutTail(head, nodes, i + 1);
      nodes := Without(nodes, i);
      PointersAre(was, i + 1, nexts[i := was[a]], prevs[a := was[i]]);
      Rest(was, i + 1);
    }

    /** What is left is a list if the others are still this list's. */
    lemma Rest(was: seq<Node>, i: nat)
      requires i < |was| && All() == Without(was, i) && Circle(All())
      requires forall w | 0 <= w < |was| && w != i :: was[w].list == this
      ensures Valid()
    {
      hide Circle;
    }

    /** The node is at place i of the circle. */
    ghost predicate Has(node: Node, i: nat)
      reads this, head, nodes
    {
      Valid() && i < |All()| && All()[i] == node
    }

    /** An element comes after the head, is not the head, and knows its list. */
    lemma ElementAt(i: nat)
      requires Valid() && i < |nodes|
      ensures All()[i + 1] == nodes[i] != head && nodes[i].list == this
    {
      hide CircleOf, Nexts, Prevs;
      AtPlace(All(), Nexts(All()), Prevs(All()), 0);
      assert All()[i + 1] == nodes[i];
    }

    /** `list_next`: the node after this one, unless that is the head. */
    method Next(current: Node, ghost i: nat) returns (n: Node?)
      requires Valid() && i < |All()| && All()[i] == current
      ensures n == if i + 1 < |All()| then All()[i + 1] else null
    {
      hide CircleOf;
      ghost var cyc := All();
      assert cyc[i].list == this;
      AtPlace(cyc, Nexts(cyc), Prevs(cyc), i);
      AtPlace(cyc, Nexts(cyc), Prevs(cyc), 0);
      n := if current.next != current.list.head then current.next else null;
    }

    /** The elements, front to back, as a search with `list_next` meets them. */
    method Forward() returns (s: seq<Node>)
      requires Valid()
      ensures s == nodes
    {
      hide Circle;
      s := [];
      var n := Next(head, 0);
      while n != null
        invariant |s| <= |nodes| && s == nodes[..|s|]
        invariant n == if |s| < |nodes| then nodes[|s|] else null
        decreases |nodes| - |s|
      {
        assert All()[|s| + 1] == nodes[|s|];
        s := s + [n];
        n := Next(n, |s|);
      }
    }
  }

  /** The elements once the node at place i of the circle is removed; place 0 is the head's. */
  function AfterRemoval(nodes: seq<Node>, i: nat): seq<Node> {
    if 0 < i <= |nodes| then Without(nodes, i - 1) else nodes
  }

  /** What a removal may change: the list that the node is an element of, if any. */
  ghost function ListOf(node: Node?, i: nat): set<object>
    reads node, if node == null then {} else {node.list}
  {
    if node == null || node.list == null || i == 0 then {}
    else {node.list, node.list.head} + (set x | x in node.list.nodes)
  }

  /** `list_remove`: an element leaves its list; null, a node in no list and a list's head are
      left alone.  A node in a list is at place i of its circle. */
  method ListRemove(element: Node?, ghost i: nat)
    requires element != null && element.list != null ==> element.list.Has(element, i)
    modifies ListOf(element, i)
    ensures element != null && old(element.list) != null ==>
      var l := old(element.list);
      l.Valid() && l.nodes == AfterRemoval(old(element.list.nodes), i)
    ensures element != null && (old(element.list) == null || i > 0) ==> element.list == null
    ensures element != null && old(element.list) != null && i > 0 ==> element.next == null && element.prev == null
  {
    hide Circle;
    if element != null && element.list != null && element != element.list.head {
      element.list.Leave(element, i - 1);
    } else if element != null && element.list != null && i > 0 {
      element.list.ElementAt(i - 1);
      assert false;
    }
  }

  /** `clear_map_list`: every element is released; the count is the old length. */
  method ClearMapList(list: List) returns (count: nat)
    requires list.Valid()
    modifies list, list.head, list.nodes
    ensures list.Valid() && list.nodes == [] && count == |old(list.nodes)|
  {
    hide Circle;
    count := 0;
    var ptr := list.Next(list.head, 0);
    while ptr != null
      invariant list.Valid() && count <= |old(list.nodes)| && list.nodes == old(list.nodes)[count..]
      invariant ptr == if list.nodes == [] then null else list.nodes[0]
      decreases |list.nodes|
    {
      ghost var was := list.nodes;
      list.ElementAt(0);
      ListRemove(ptr, 1);
      assert list.nodes == was[1..] == old(list.nodes)[count + 1..];
      count := count + 1;
      ptr := list.Next(list.head, 0);
    }
  }
}
