/**
 The list of program 2.3 as one thread sees it that has it to itself: `2.3/mutex/list.c`, and the bodies of
 do_random_swap and of the outer loop of traverse_list in `2.3/mutex/threads.c`, without
 their locks.  Here the three pointer writes of a swap are carried out on the nodes in memory and shown to
 do what SerialList.Apply does to the sequence of nodes.
 */
module ListStorage {
  import opened Basics
  import S = SerialList
  import L = LockList
  import T = Tickets

  class Node {
    const value: string
    var next: Node?

    constructor (value: string)
      ensures this.value == value && next == null
    {
      this.value := value;
      next := null;
    }
  }

  function ValueOf(n: Node): string { n.value }

  // From the first of `nodes`, the `next` pointers lead through all of them, and end there.
  ghost predicate Chained(nodes: seq<Node>)
    reads nodes
  {
    && nodes != []
    && Distinct(nodes)
    && (forall i {:trigger nodes[i].next} :: 0 <= i < |nodes| ==> nodes[i].next == AtOr(nodes, i + 1, null))
  }

  // The three writes, when a and b are the nodes after position i.
  method SwapNext(prev: Node, a: Node, b: Node, ghost nodes: seq<Node>, ghost i: nat)
    requires Chained(nodes) && i + 2 < |nodes|
    requires prev == nodes[i] && a == nodes[i + 1] && b == nodes[i + 2]
    modifies prev`next, a`next, b`next
    ensures Chained(S.Exchange(nodes, i + 1))
  {
    assert nodes[i + 2].next == AtOr(nodes, i + 3, null);
    prev.next := b;
    a.next := b.next;
    b.next := a;
  }

  class Storage {
    const first: Node
    const count: int
    ghost var nodes: seq<Node>

    // The list starts at `first`.
    ghost predicate Valid()
      reads this, nodes
    {
      Chained(nodes) && nodes[0] == first
    }

    constructor (first: Node, count: int)
      requires first.next == null
      ensures Valid() && this.first == first && this.count == count && nodes == [first]
    {
      this.first := first;
      this.count := count;
      nodes := [first];
    }

    method Link(prev: Node, node: Node)
      requires Valid() && prev == nodes[|nodes| - 1] && node !in nodes && node.next == null
      modifies this`nodes, prev`next
      ensures Valid() && nodes == old(nodes) + [node]
    {
      prev.next := node;
      nodes := nodes + [node];
    }

    // do_random_swap; index is what rand_r() % (count - 1) gave.
    method DoRandomSwap(kind: S.Kind, index: nat) returns (swapped: bool)
      requires Valid() && (count >= 2 ==> index < count - 1)
      modifies this`nodes, nodes`next
      ensures Valid()
      ensures nodes == if count < 2 then old(nodes) else S.Apply(ValueOf, old(nodes), S.Swap(kind, index))
      ensures swapped <==>
                && count >= 2 && index + 2 < |old(nodes)|
                && var l1, l2 := |old(nodes)[index + 1].value|, |old(nodes)[index + 2].value|;
                   match kind case Asc => l1 > l2 case Desc => l1 < l2 case Equal => l1 != l2
      ensures swapped ==> nodes[index + 1] == old(nodes)[index + 2] && nodes[index + 2] == old(nodes)[index + 1]
      ensures !swapped ==> nodes == old(nodes)
    {
      if count < 2 { return false; }
      var prev := first;
      assert nodes[0].next == AtOr(nodes, 1, null);
      var a := prev.next;
      if a == null { return false; }
      var i := 0;
      while i < index
        invariant 0 <= i <= index && i + 1 < |nodes|
        invariant prev == nodes[i] && a == nodes[i + 1]
      {
        assert nodes[i + 1].next == AtOr(nodes, i + 2, null);
        var next := a.next;
        if next == null { break; }
        prev := a;
        a := next;
        i := i + 1;
      }
      assert nodes[i + 1].next == AtOr(nodes, i + 2, null);
      var b := a.next;
      if b == null { return false; }
      swapped := S.NeedSwap(kind, |a.value|, |b.value|);
      if swapped {
        SwapNext(prev, a, b, nodes, i);
        nodes := S.Exchange(nodes, i + 1);
      }
    }

    // One turn of the outer loop of traverse_list; `pairs` is by how much it increases pairs_counter.
    method TraverseOnce(kind: S.Kind) returns (pairs: nat, ghost visited: seq<Node>)
      requires Valid()
      ensures visited == nodes[1..]
      ensures pairs == S.Hits(ValueOf, kind, nodes[1..]) == S.Matching(ValueOf, kind, nodes[1..])
    {
      S.HitsMean(ValueOf, nodes[1..]);
      hide S.Rising, S.Falling, S.Level;
      pairs := 0;
      visited := [];
      assert nodes[0].next == AtOr(nodes, 1, null);
      var a := first.next;
      if a == null { return; }
      visited := [a];
      while true
        invariant 1 <= |visited| < |nodes|
        invariant visited == nodes[1..|visited| + 1]
        invariant a == nodes[|visited|]
        invariant pairs == S.Hits(ValueOf, kind, visited)
        decreases |nodes| - |visited|
      {
        assert nodes[|visited|].next == AtOr(nodes, |visited| + 1, null);
        var b := a.next;
        if b == null { break; }
        ghost var before := visited;
        visited := visited + [b];
        assert visited[..|visited| - 1] == before;
        if S.Matches(kind, |a.value|, |b.value|) {
          pairs := pairs + 1;
        }
        a := b;
      }
    }
  }

  // storage_init; the random strings are draw(0), draw(1), ...
  method StorageInit(n: int, draw: nat -> string) returns (s: Storage?)
    ensures s == null <==> n <= 0
    ensures s != null ==>
              && s.Valid() && fresh(s) && fresh(s.nodes) && s.count == n && |s.nodes| == n + 1
              && s.first.value == "" && forall i :: 0 <= i < n ==> s.nodes[i + 1].value == draw(i)
  {
    if n <= 0 { return null; }
    var first := new Node("");
    s := new Storage(first, n);
    var prev := first;
    for i := 0 to n
      invariant fresh(s) && fresh(s.nodes) && s.first == first && s.count == n
      invariant s.Valid() && |s.nodes| == i + 1 && prev == s.nodes[i]
      invariant forall j :: 0 <= j < i ==> s.nodes[j + 1].value == draw(j)
    {
      var node := new Node(draw(i));
      s.Link(prev, node);
      prev := node;
    }
  }

  // storage_destroy: the nodes that are given back, in order.  Each is read before it is freed.
  method StorageDestroy(s: Storage?) returns (freed: seq<Node>)
    requires s != null ==> s.Valid()
    ensures freed == if s == null then [] else s.nodes
  {
    freed := [];
    if s == null { return; }
    var cur: Node? := s.first;
    while cur != null
      invariant |freed| <= |s.nodes| && freed == s.nodes[..|freed|]
      invariant cur == AtOr(s.nodes, |freed|, null)
      decreases |s.nodes| - |freed|
    {
      assert s.nodes[|freed|].next == AtOr(s.nodes, |freed| + 1, null);
      var next := cur.next;
      freed := freed + [cur];
      cur := next;
    }
  }

  // ----- the same list as the concurrent program of LockList sees it: a node is its number in `nodes`

  ghost function PositionOf(nodes: seq<Node>, x: Node?): Option<nat> {
    if i: nat :| i < |nodes| && nodes[i] == x then Some(i) else None
  }

  function Numbered(n: nat): seq<S.Node> { seq(n, i => i) }

  ghost function Pointers(nodes: seq<Node>): map<S.Node, Option<S.Node>>
    reads nodes
  {
    map i: nat | i < |nodes| :: PositionOf(nodes, nodes[i].next)
  }

  ghost function ConfigOf(nodes: seq<Node>, count: nat, shared: bool): L.Config {
    L.Config(0, (i: S.Node) => if i < |nodes| then nodes[i].value else "", count, shared)
  }

  ghost function StateOf(nodes: seq<Node>, threads: seq<L.Thread>): L.State
    reads nodes
  {
    var zero := S.Trio(0, 0, 0);
    L.State(L.Mem(Pointers(nodes), threads, None, L.Counters(zero, zero, zero)), T.Open(Numbered(|nodes|)), map[])
  }

  // Threads that have not started, on a list that storage_init has built, are an initial state of the
  // concurrent program; and before the first step the book's order is the order in memory.
  lemma StorageIsInitial(s: Storage, threads: seq<L.Thread>, shared: bool)
    requires s.Valid() && s.count >= 1 && |s.nodes| == s.count + 1
    requires forall t :: 0 <= t < |threads| ==>
               threads[t].held == {} && threads[t].pc == if threads[t].role.Traverser? then L.TLockFirst else L.SPick
    ensures L.Init(ConfigOf(s.nodes, s.count, shared), StateOf(s.nodes, threads))
  {
    var next, order := Pointers(s.nodes), Numbered(|s.nodes|);
    forall p | 0 <= p < |order| ensures L.NextOf(next, order[p]) == L.Succ(order, p) {
      assert s.nodes[p].next == AtOr(s.nodes, p + 1, null);
    }
  }
}
