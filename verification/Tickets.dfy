/**
 The bookkeeping that explains the lock-coupling protocol of program 2.3.

 A thread takes a ticket when it locks the head of the list.  A ticket covers the window
 `[lo, hi)` of list positions whose nodes its thread has locked; locking the next node makes the
 window grow and unlocking the oldest makes it shrink.  A thread retires when it has done
 all it was going to do to the sequence of nodes.  `log` and `owner` list what the tickets were
 taken for and by whom, in the order in which the head was locked; `pending` is `log` with the
 retired operations struck out.

 The book is history: no step of the program looks at it.
 */
module Tickets {
  import opened Basics
  import opened SerialList

  datatype Ticket = Ticket(op: Op, start: nat, lo: nat, hi: nat, seen: seq<Node>, pairs: nat, hits: nat)

  // A finished pass of a traverser that took ticket number `start`.
  datatype Visit = Visit(kind: Kind, start: nat, seen: seq<Node>, pairs: nat, hits: nat)

  // Swaps carried out so far; `drift` is what the `Equal` ones did to the number of inversions.
  datatype Tally = Tally(done: Trio, drift: int)

  datatype Book = Book(
    init: seq<Node>,
    order: seq<Node>,
    log: seq<Op>,
    owner: seq<nat>,
    pending: seq<Op>,
    tick: map<nat, Ticket>,
    visits: seq<Visit>,
    matched: Trio,
    tally: Tally)

  // ----- events

  function Open(nodes: seq<Node>): Book {
    Book(nodes, nodes, [], [], [], map[], [], Trio(0, 0, 0), Tally(Trio(0, 0, 0), 0))
  }

  function Enter(b: Book, t: nat, op: Op): Book {
    b.(log := b.log + [op], owner := b.owner + [t], pending := b.pending + [op],
       tick := b.tick[t := Ticket(op, |b.log|, 0, 1, [], 0, 0)])
  }

  function Grow(b: Book, t: nat, x: Node): Book {
    if t !in b.tick then b
    else b.(tick := b.tick[t := b.tick[t].(hi := b.tick[t].hi + 1, seen := b.tick[t].seen + [x])])
  }

  function Shrink(b: Book, t: nat): Book {
    if t !in b.tick then b else b.(tick := b.tick[t := b.tick[t].(lo := b.tick[t].lo + 1)])
  }

  function Compare(b: Book, t: nat, kind: Kind, matched: bool): Book {
    if t !in b.tick then b
    else b.(tick := b.tick[t := b.tick[t].(pairs := b.tick[t].pairs + 1,
                                           hits := b.tick[t].hits + (if matched then 1 else 0))],
            matched := if matched then b.matched.Bump(kind) else b.matched)
  }

  function Count(value: Values<Node>, order: seq<Node>, op: Op, tally: Tally): Tally {
    if !Fires(value, order, op) then tally
    else
      var up := |value(order[op.index + 1])| < |value(order[op.index + 2])|;
      Tally(tally.done.Bump(op.kind),
            if op.kind != Equal then tally.drift else if up then tally.drift + 1 else tally.drift - 1)
  }

  function Retire(value: Values<Node>, b: Book, t: nat): Book {
    if t !in b.tick then b
    else
      var k := b.tick[t];
      b.(order := Apply(value, b.order, k.op),
         pending := if k.start < |b.pending| then b.pending[k.start := Pass] else b.pending,
         tick := b.tick - {t},
         tally := Count(value, b.order, k.op, b.tally))
  }

  // A traverser retires and its pass is filed.
  function File(value: Values<Node>, b: Book, t: nat, kind: Kind): Book {
    if t !in b.tick then b
    else
      var k := b.tick[t];
      Retire(value, b, t).(visits := b.visits + [Visit(kind, k.start, k.seen, k.pairs, k.hits)])
  }

  // ----- the invariant

  ghost predicate Shape(init: seq<Node>, order: seq<Node>) {
    && init != []
    && |order| == |init|
    && order[0] == init[0]
    && multiset(order) == multiset(init)
    && Distinct(order)
  }

  ghost predicate Bounded(k: Ticket, positions: nat) {
    && k.lo < k.hi <= positions
    && (k.op.Swap? ==> k.lo <= k.op.index && k.hi <= k.op.index + 3 && k.op.index + 2 < positions)
  }

  ghost predicate AllBounded(tick: map<nat, Ticket>, positions: nat) {
    forall t :: t in tick ==> Bounded(tick[t], positions)
  }

  // The tickets in force are the ones the log says were taken, and every pending swap has one.
  ghost predicate Issued(owner: seq<nat>, pending: seq<Op>, tick: map<nat, Ticket>) {
    && |owner| == |pending|
    && (forall t :: t in tick ==>
          tick[t].start < |owner| && owner[tick[t].start] == t && pending[tick[t].start] == tick[t].op)
    && (forall i :: 0 <= i < |pending| && pending[i].Swap? ==> owner[i] in tick && tick[owner[i]].start == i)
  }

  // Two traversers may share positions; a swapper shares none with anyone.
  predicate Conflict(x: Op, y: Op) { x.Swap? || y.Swap? }

  // A thread that took its ticket earlier is further down the list.
  ghost predicate Behind(first: Ticket, second: Ticket) {
    first.start < second.start && Conflict(first.op, second.op) ==> second.hi <= first.lo
  }

  ghost predicate Ordered(tick: map<nat, Ticket>) {
    forall t, u :: t in tick && u in tick ==> Behind(tick[t], tick[u])
  }

  // The list as it will be when every ticket taken so far is retired is the list that the log describes.
  ghost predicate Serial(value: Values<Node>, b: Book) {
    && |b.log| == |b.pending|
    && Run(value, b.order, b.pending) == Run(value, b.init, b.log)
  }

  // The list in which the holder of ticket `start` works: every swap ticketed before it, none after.
  function View(value: Values<Node>, b: Book, start: nat): seq<Node> {
    Run(value, b.init, if start <= |b.log| then b.log[..start] else b.log)
  }

  // What a ticket holder still has before it is its view, and what it has locked so far
  // (the sentinel apart) was its view too.
  ghost predicate SeesView(value: Values<Node>, b: Book, k: Ticket) {
    && k.start < |b.pending|
    && k.hi <= |b.order| == |b.init|
    && (var view := View(value, b, k.start);
        var ahead := Run(value, b.order, b.pending[..k.start]);
        && (forall j :: k.lo <= j < |b.order| ==> view[j] == ahead[j])
        && (k.hi >= 1 ==> k.seen == view[1..k.hi]))
  }

  ghost predicate Views(value: Values<Node>, b: Book) {
    forall t :: t in b.tick ==> SeesView(value, b, b.tick[t])
  }

  ghost predicate Filed(value: Values<Node>, b: Book, v: Visit) {
    && v.start <= |b.log|
    && View(value, b, v.start) != []
    && v.seen == View(value, b, v.start)[1..]
  }

  ghost predicate AllFiled(value: Values<Node>, b: Book) {
    forall i :: 0 <= i < |b.visits| ==> Filed(value, b, b.visits[i])
  }

  ghost predicate Balanced(value: Values<Node>, init: seq<Node>, order: seq<Node>, tally: Tally) {
    && order != [] && init != []
    && Inversions(value, order[1..])
       == Inversions(value, init[1..]) - tally.done.asc + tally.done.desc + tally.drift
    && tally.drift <= tally.done.equal && 0 <= tally.drift + tally.done.equal
    && (tally.done.equal - tally.drift) % 2 == 0
  }

  ghost predicate Books(value: Values<Node>, b: Book) {
    && Shape(b.init, b.order)
    && AllBounded(b.tick, |b.order|)
    && Issued(b.owner, b.pending, b.tick)
    && Ordered(b.tick)
    && Serial(value, b)
    && Views(value, b)
    && AllFiled(value, b)
    && Balanced(value, b.init, b.order, b.tally)
  }

  lemma OpenBooks(value: Values<Node>, nodes: seq<Node>)
    requires nodes != [] && Distinct(nodes)
    ensures Books(value, Open(nodes))
  {
  }

  // ----- taking a ticket

  lemma EnterViews(value: Values<Node>, b: Book, t: nat, op: Op)
    requires b.init != [] && |b.order| == |b.init|
    requires Serial(value, b) && Views(value, b) && AllFiled(value, b)
    ensures Views(value, Enter(b, t, op)) && AllFiled(value, Enter(b, t, op))
  {
    var c := Enter(b, t, op);
    forall u | u in c.tick ensures SeesView(value, c, c.tick[u]) {
      var start := c.tick[u].start;
      if u != t {
        assert SeesView(value, b, b.tick[u]);
      }
      assert c.log[..start] == b.log[..start] && c.pending[..start] == b.pending[..start];
      assert b.log[..|b.log|] == b.log && b.pending[..|b.pending|] == b.pending;
    }
    forall i | 0 <= i < |c.visits| ensures Filed(value, c, c.visits[i]) {
      assert Filed(value, b, b.visits[i]);
      assert c.log[..c.visits[i].start] == b.log[..b.visits[i].start];
    }
  }

  lemma EnterIssued(b: Book, t: nat, op: Op)
    requires Issued(b.owner, b.pending, b.tick) && Ordered(b.tick)
    requires t !in b.tick && |b.log| == |b.pending|
    requires forall u :: u in b.tick && Conflict(b.tick[u].op, op) ==> 1 <= b.tick[u].lo
    ensures var c := Enter(b, t, op); Issued(c.owner, c.pending, c.tick) && Ordered(c.tick)
  {
  }

  lemma EnterBooks(value: Values<Node>, b: Book, t: nat, op: Op)
    requires Books(value, b)
    requires t !in b.tick
    requires op.Swap? ==> op.index + 2 < |b.order|
    requires forall u :: u in b.tick && Conflict(b.tick[u].op, op) ==> 1 <= b.tick[u].lo
    ensures Books(value, Enter(b, t, op))
  {
    EnterViews(value, b, t, op);
    EnterIssued(b, t, op);
    RunSnoc(value, b.order, b.pending, op);
    RunSnoc(value, b.init, b.log, op);
  }

  // ----- moving the window

  // No conflicting ticket covers the position.
  ghost predicate Clear(b: Book, t: nat, position: nat)
    requires t in b.tick
  {
    forall u :: u in b.tick && u != t && Conflict(b.tick[u].op, b.tick[t].op)
                ==> !(b.tick[u].lo <= position < b.tick[u].hi)
  }

  lemma GrowOrdered(b: Book, t: nat, x: Node)
    requires AllBounded(b.tick, |b.order|) && Ordered(b.tick)
    requires t in b.tick && Clear(b, t, b.tick[t].hi)
    ensures Ordered(Grow(b, t, x).tick)
  {
    var c := Grow(b, t, x);
    forall u, v | u in c.tick && v in c.tick ensures Behind(c.tick[u], c.tick[v]) {
      assert Behind(b.tick[u], b.tick[v]);
    }
  }

  // Every swap ticketed before t and still pending works beyond position `above`.
  lemma PendingAbove(b: Book, t: nat, above: nat)
    requires Issued(b.owner, b.pending, b.tick) && AllBounded(b.tick, |b.order|) && t in b.tick
    requires forall u :: u in b.tick && Conflict(b.tick[u].op, b.tick[t].op) && b.tick[u].start < b.tick[t].start
                         ==> above <= b.tick[u].lo
    ensures forall i :: 0 <= i < b.tick[t].start && b.pending[i].Swap? ==> above <= b.pending[i].index
  {
    forall i | 0 <= i < b.tick[t].start && b.pending[i].Swap? ensures above <= b.pending[i].index {
      assert Bounded(b.tick[b.owner[i]], |b.order|);
    }
  }

  // The node that a thread is about to lock is the next one of its view.
  lemma NextOfView(value: Values<Node>, b: Book, t: nat)
    requires AllBounded(b.tick, |b.order|) && Issued(b.owner, b.pending, b.tick) && Ordered(b.tick)
    requires t in b.tick && b.tick[t].hi < |b.order| && Clear(b, t, b.tick[t].hi)
    requires SeesView(value, b, b.tick[t])
    ensures var k := b.tick[t];
            k.seen + [b.order[k.hi]] == View(value, b, k.start)[1..k.hi + 1]
  {
    var k := b.tick[t];
    forall u | u in b.tick && Conflict(b.tick[u].op, k.op) && b.tick[u].start < k.start
      ensures k.hi + 1 <= b.tick[u].lo
    {
      assert Behind(b.tick[u], k);
      assert Bounded(b.tick[u], |b.order|);
    }
    PendingAbove(b, t, k.hi + 1);
    RunBelow(value, b.order, b.pending[..k.start], k.hi);
  }

  lemma GrowBooks(value: Values<Node>, b: Book, t: nat)
    requires Books(value, b)
    requires t in b.tick && b.tick[t].hi < |b.order| && Clear(b, t, b.tick[t].hi)
    requires b.tick[t].op.Swap? ==> b.tick[t].hi < b.tick[t].op.index + 3
    ensures Books(value, Grow(b, t, b.order[b.tick[t].hi]))
  {
    var c := Grow(b, t, b.order[b.tick[t].hi]);
    GrowOrdered(b, t, b.order[b.tick[t].hi]);
    assert SeesView(value, b, b.tick[t]);
    NextOfView(value, b, t);
    SameTickets(value, b, c, t);
  }

  // Replacing one ticket by another for the same operation changes nothing for the others.
  lemma SameTickets(value: Values<Node>, b: Book, c: Book, t: nat)
    requires Issued(b.owner, b.pending, b.tick) && Serial(value, b) && Views(value, b) && AllFiled(value, b)
    requires t in b.tick && t in c.tick && c == b.(tick := b.tick[t := c.tick[t]], matched := c.matched)
    requires c.tick[t].op == b.tick[t].op && c.tick[t].start == b.tick[t].start
    requires SeesView(value, b, c.tick[t])
    ensures Issued(c.owner, c.pending, c.tick) && Serial(value, c) && Views(value, c) && AllFiled(value, c)
  {
    forall u | u in c.tick ensures SeesView(value, c, c.tick[u]) {
      if u != t {
        assert SeesView(value, b, b.tick[u]);
      }
    }
    forall i | 0 <= i < |c.visits| ensures Filed(value, c, c.visits[i]) {
      assert Filed(value, b, b.visits[i]);
    }
  }

  lemma NarrowOrdered(tick: map<nat, Ticket>, t: nat, k: Ticket)
    requires Ordered(tick) && t in tick
    requires k.op == tick[t].op && k.start == tick[t].start && k.hi == tick[t].hi && k.lo >= tick[t].lo
    ensures Ordered(tick[t := k])
  {
    var after := tick[t := k];
    forall u, v | u in after && v in after ensures Behind(after[u], after[v]) {
      assert Behind(tick[u], tick[v]);
    }
  }

  // Giving up positions at the low end keeps the invariant.
  lemma NarrowBooks(value: Values<Node>, b: Book, c: Book, t: nat)
    requires Books(value, b)
    requires t in b.tick && t in c.tick && c == b.(tick := b.tick[t := c.tick[t]], matched := c.matched)
    requires var j, k := b.tick[t], c.tick[t];
             k.op == j.op && k.start == j.start && k.hi == j.hi && k.lo >= j.lo && k.seen == j.seen
    requires Bounded(c.tick[t], |b.order|)
    ensures Books(value, c)
  {
    assert SeesView(value, b, b.tick[t]);
    NarrowOrdered(b.tick, t, c.tick[t]);
    SameTickets(value, b, c, t);
  }

  lemma ShrinkBooks(value: Values<Node>, b: Book, t: nat)
    requires Books(value, b)
    requires t in b.tick && b.tick[t].lo + 1 < b.tick[t].hi
    requires b.tick[t].op.Swap? ==> b.tick[t].lo < b.tick[t].op.index
    ensures Books(value, Shrink(b, t))
  {
    NarrowBooks(value, b, Shrink(b, t), t);
  }

  lemma CompareBooks(value: Values<Node>, b: Book, t: nat, kind: Kind, matched: bool)
    requires Books(value, b)
    requires t in b.tick
    ensures Books(value, Compare(b, t, kind, matched))
  {
    NarrowBooks(value, b, Compare(b, t, kind, matched), t);
  }

  // ----- retiring

  // A swapper has its three nodes when it retires.
  ghost predicate Ready(k: Ticket) {
    k.op.Swap? ==> k.lo == k.op.index && k.hi == k.op.index + 3
  }

  // Carrying out the operation of ticket t now is the same as carrying it out in its turn.
  lemma RetireInTurn(value: Values<Node>, b: Book, t: nat, n: nat)
    requires Issued(b.owner, b.pending, b.tick) && AllBounded(b.tick, |b.order|) && Ordered(b.tick)
    requires t in b.tick && Ready(b.tick[t])
    requires b.tick[t].start < n <= |b.pending|
    ensures var c := Retire(value, b, t);
            Run(value, b.order, b.pending[..n]) == Run(value, c.order, c.pending[..n])
  {
    var k := b.tick[t];
    var ops := b.pending[..n];
    forall u | u in b.tick && Conflict(b.tick[u].op, k.op) && b.tick[u].start < k.start
      ensures k.hi <= b.tick[u].lo
    {
      assert Behind(b.tick[u], k);
    }
    PendingAbove(b, t, k.hi);
    Hoist(value, b.order, ops, k.start);
    assert b.pending[k.start := Pass][..n] == ops[k.start := Pass];
  }

  // A view taken before ticket t does not depend on what t changes.
  lemma EarlierView(value: Values<Node>, b: Book, t: nat, u: nat)
    requires Issued(b.owner, b.pending, b.tick) && AllBounded(b.tick, |b.order|) && Ordered(b.tick)
    requires t in b.tick && Ready(b.tick[t])
    requires u in b.tick && b.tick[u].start < b.tick[t].start
    ensures var c := Retire(value, b, t);
            var start := b.tick[u].start;
            forall j :: b.tick[u].lo <= j < |b.order| ==>
              Run(value, b.order, b.pending[..start])[j] == Run(value, c.order, c.pending[..start])[j]
  {
    var k, e := b.tick[t], b.tick[u];
    var after := Apply(value, b.order, k.op);
    assert Behind(e, k);
    forall v | v in b.tick && Conflict(b.tick[v].op, e.op) && b.tick[v].start < e.start
      ensures e.lo <= b.tick[v].lo
    {
      assert Behind(b.tick[v], e);
    }
    PendingAbove(b, u, e.lo);
    RunAgrees(value, b.order, after, b.pending[..e.start], e.lo);
    assert b.pending[k.start := Pass][..e.start] == b.pending[..e.start];
  }

  lemma RetireViews(value: Values<Node>, b: Book, t: nat, u: nat)
    requires Issued(b.owner, b.pending, b.tick) && AllBounded(b.tick, |b.order|) && Ordered(b.tick)
    requires t in b.tick && Ready(b.tick[t])
    requires u in b.tick && u != t && SeesView(value, b, b.tick[u])
    ensures SeesView(value, Retire(value, b, t), b.tick[u])
  {
    if b.tick[u].start < b.tick[t].start {
      EarlierView(value, b, t, u);
    } else {
      RetireInTurn(value, b, t, b.tick[u].start);
    }
  }

  // A swap moves the number of inversions exactly as the tally says.
  lemma RetireBalanced(value: Values<Node>, init: seq<Node>, order: seq<Node>, op: Op, tally: Tally)
    requires Balanced(value, init, order, tally)
    ensures Balanced(value, init, Apply(value, order, op), Count(value, order, op, tally))
  {
    if Fires(value, order, op) {
      var i := op.index + 1;
      assert Exchange(order, i)[1..] == Exchange(order[1..], i - 1);
      InversionsExchange(value, order[1..], i - 1);
    }
  }

  lemma RetireIssued(b: Book, t: nat)
    requires Issued(b.owner, b.pending, b.tick) && t in b.tick
    ensures Issued(b.owner, b.pending[b.tick[t].start := Pass], b.tick - {t})
  {
  }

  lemma RetireBooks(value: Values<Node>, b: Book, t: nat)
    requires Books(value, b)
    requires t in b.tick && Ready(b.tick[t])
    ensures Books(value, Retire(value, b, t))
  {
    var c := Retire(value, b, t);
    ApplyKeeps(value, b.order, b.tick[t].op);
    RetireIssued(b, t);
    RetireBalanced(value, b.init, b.order, b.tick[t].op, b.tally);
    RetireInTurn(value, b, t, |b.pending|);
    assert b.pending[..|b.pending|] == b.pending && c.pending[..|b.pending|] == c.pending;
    forall u | u in c.tick ensures SeesView(value, c, c.tick[u]) {
      RetireViews(value, b, t, u);
    }
    forall i | 0 <= i < |c.visits| ensures Filed(value, c, c.visits[i]) {
      assert Filed(value, b, b.visits[i]);
    }
  }

  // A traverser that holds the last node of the list has seen its whole view.
  lemma FileBooks(value: Values<Node>, b: Book, t: nat, kind: Kind)
    requires Books(value, b)
    requires t in b.tick && b.tick[t].op.Pass? && b.tick[t].hi == |b.order|
    ensures Books(value, File(value, b, t, kind))
  {
    hide Shape, Issued, Ordered, Balanced, Apply, Run, Count;
    var c := Retire(value, b, t);
    var d := File(value, b, t, kind);
    RetireBooks(value, b, t);
    assert SeesView(value, b, b.tick[t]);
    forall u | u in d.tick ensures SeesView(value, d, d.tick[u]) {
      assert SeesView(value, c, c.tick[u]);
    }
    forall i | 0 <= i < |d.visits| ensures Filed(value, d, d.visits[i]) {
      if i < |b.visits| {
        assert Filed(value, b, b.visits[i]);
      }
    }
  }
}
