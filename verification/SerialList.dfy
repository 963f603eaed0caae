/**
 The sequential meaning of the shared list of program 2.3: what one swap does to the
 sequence of nodes, and what a sequence of swaps does.  The concurrent program is later
 shown to behave, for every interleaving, like one `Run` of these operations.
 */
module SerialList {
  import opened Basics

  type Node = nat

  // The three comparison roles; the traversers and the swappers use them differently.
  datatype Kind = Asc | Desc | Equal

  // The predicate a traverser of this kind counts.
  predicate Matches(kind: Kind, l1: nat, l2: nat) {
    match kind
    case Asc => l1 < l2
    case Desc => l1 > l2
    case Equal => l1 == l2
  }

  // The predicate on which a swapper of this kind exchanges two neighbours.
  predicate NeedSwap(kind: Kind, l1: nat, l2: nat) {
    match kind
    case Asc => l1 > l2
    case Desc => l1 < l2
    case Equal => l1 != l2
  }

  // One counter for each kind.
  datatype Trio = Trio(asc: nat, desc: nat, equal: nat) {
    function Get(kind: Kind): nat {
      match kind
      case Asc => asc
      case Desc => desc
      case Equal => equal
    }

    function Put(kind: Kind, n: nat): Trio {
      match kind
      case Asc => this.(asc := n)
      case Desc => this.(desc := n)
      case Equal => this.(equal := n)
    }

    function Bump(kind: Kind): Trio { Put(kind, Get(kind) + 1) }
  }

  // What a thread that passes the head of the list is going to do to the sequence of nodes:
  // nothing, or exchange the nodes number `index` and `index + 1` (not counting the sentinel).
  datatype Op = Pass | Swap(kind: Kind, index: nat)

  type Values<!T> = T -> string

  function Exchange<T>(s: seq<T>, i: nat): seq<T>
    requires i + 1 < |s|
  {
    s[i := s[i + 1]][i + 1 := s[i]]
  }

  // `order[0]` is the sentinel, so the swap number `index` exchanges positions index+1 and index+2.
  predicate Fires<T>(value: Values<T>, order: seq<T>, op: Op) {
    && op.Swap?
    && op.index + 2 < |order|
    && NeedSwap(op.kind, |value(order[op.index + 1])|, |value(order[op.index + 2])|)
  }

  function Apply<T>(value: Values<T>, order: seq<T>, op: Op): (r: seq<T>)
    ensures |r| == |order|
  {
    if Fires(value, order, op) then Exchange(order, op.index + 1) else order
  }

  function Run<T>(value: Values<T>, order: seq<T>, ops: seq<Op>): (r: seq<T>)
    ensures |r| == |order|
    decreases |ops|
  {
    if ops == [] then order
    else Apply(value, Run(value, order, ops[..|ops| - 1]), ops[|ops| - 1])
  }

  // ----- what every run keeps

  lemma ApplyKeeps<T>(value: Values<T>, order: seq<T>, op: Op)
    ensures multiset(Apply(value, order, op)) == multiset(order)
    ensures order != [] ==> Apply(value, order, op)[0] == order[0]
    ensures Distinct(order) ==> Distinct(Apply(value, order, op))
  {
    if Fires(value, order, op) {
      var i := op.index + 1;
      var r := Exchange(order, i);
      assert order == order[..i] + [order[i], order[i + 1]] + order[i + 2..];
      assert r == order[..i] + [order[i + 1], order[i]] + order[i + 2..];
      assert multiset([order[i + 1], order[i]]) == multiset([order[i], order[i + 1]]);
    }
  }

  lemma {:induction false} RunKeeps<T>(value: Values<T>, order: seq<T>, ops: seq<Op>)
    ensures multiset(Run(value, order, ops)) == multiset(order)
    ensures order != [] ==> Run(value, order, ops)[0] == order[0]
    ensures Distinct(order) ==> Distinct(Run(value, order, ops))
    decreases |ops|
  {
    if ops != [] {
      RunKeeps(value, order, ops[..|ops| - 1]);
      ApplyKeeps(value, Run(value, order, ops[..|ops| - 1]), ops[|ops| - 1]);
    }
  }

  lemma RunSnoc<T>(value: Values<T>, order: seq<T>, ops: seq<Op>, op: Op)
    ensures Run(value, order, ops + [op]) == Apply(value, Run(value, order, ops), op)
  {
    assert (ops + [op])[..|ops|] == ops;
  }

  // ----- operations on separate positions commute

  // Every operation of `ops` works on positions strictly above the two of `op`.
  ghost predicate AllAbove(ops: seq<Op>, position: nat) {
    forall i :: 0 <= i < |ops| && ops[i].Swap? ==> position < ops[i].index + 1
  }

  lemma ApplyCommutes<T>(value: Values<T>, order: seq<T>, x: Op, y: Op)
    requires x.Swap? && y.Swap? ==> x.index + 1 < y.index
    ensures Apply(value, Apply(value, order, x), y) == Apply(value, Apply(value, order, y), x)
  {
  }

  lemma {:induction false} Through<T>(value: Values<T>, order: seq<T>, pre: seq<Op>, x: Op)
    requires x.Swap? ==> AllAbove(pre, x.index + 2)
    ensures Run(value, Apply(value, order, x), pre) == Apply(value, Run(value, order, pre), x)
    decreases |pre|
  {
    if pre != [] {
      var front, y := pre[..|pre| - 1], pre[|pre| - 1];
      Through(value, order, front, x);
      ApplyCommutes(value, Run(value, order, front), x, y);
    }
  }

  // An operation can be carried out now, and struck from the list, if those before it work
  // further down.
  lemma {:induction false} Hoist<T>(value: Values<T>, order: seq<T>, ops: seq<Op>, i: nat)
    requires i < |ops|
    requires ops[i].Swap? ==> AllAbove(ops[..i], ops[i].index + 2)
    ensures Run(value, order, ops) == Run(value, Apply(value, order, ops[i]), ops[i := Pass])
    decreases |ops|
  {
    var last := |ops| - 1;
    if i < last {
      assert ops[..last][..i] == ops[..i];
      assert ops[i := Pass][..last] == ops[..last][i := Pass];
      Hoist(value, order, ops[..last], i);
    } else {
      assert ops[i := Pass][..last] == ops[..last];
      Through(value, order, ops[..last], ops[i]);
    }
  }

  // Operations above a position leave it, and everything below it, alone.
  lemma {:induction false} RunBelow<T>(value: Values<T>, order: seq<T>, ops: seq<Op>, position: nat)
    requires AllAbove(ops, position)
    requires position < |order|
    ensures Run(value, order, ops)[position] == order[position]
    decreases |ops|
  {
    if ops != [] {
      RunBelow(value, order, ops[..|ops| - 1], position);
    }
  }

  // Operations at or above a position read nothing below it.
  lemma {:induction false} RunAgrees<T>(value: Values<T>, one: seq<T>, two: seq<T>, ops: seq<Op>, from: nat)
    requires |one| == |two|
    requires forall j :: from <= j < |one| ==> one[j] == two[j]
    requires forall i :: 0 <= i < |ops| && ops[i].Swap? ==> from <= ops[i].index + 1
    ensures forall j :: from <= j < |one| ==> Run(value, one, ops)[j] == Run(value, two, ops)[j]
    decreases |ops|
  {
    if ops != [] {
      RunAgrees(value, one, two, ops[..|ops| - 1], from);
    }
  }

  // ----- counting neighbours, and inversions by string length

  // The number of neighbouring pairs of `s` that a traverser of this kind counts.
  function Hits<T>(value: Values<T>, kind: Kind, s: seq<T>): nat
    decreases |s|
  {
    if |s| < 2 then 0
    else Hits(value, kind, s[..|s| - 1])
         + (if Matches(kind, |value(s[|s| - 2])|, |value(s[|s| - 1])|) then 1 else 0)
  }

  // By how much the right one of two neighbours is longer.
  function Rise<T>(value: Values<T>, s: seq<T>, p: nat): int
    requires p + 1 < |s|
  {
    |value(s[p + 1])| - |value(s[p])|
  }

  // The positions of neighbours whose left string is shorter, longer, or as long as the right one.
  ghost function Rising<T>(value: Values<T>, s: seq<T>): set<int> {
    set p | 0 <= p < |s| - 1 && Rise(value, s, p) > 0
  }

  ghost function Falling<T>(value: Values<T>, s: seq<T>): set<int> {
    set p | 0 <= p < |s| - 1 && Rise(value, s, p) < 0
  }

  ghost function Level<T>(value: Values<T>, s: seq<T>): set<int> {
    set p | 0 <= p < |s| - 1 && Rise(value, s, p) == 0
  }

  // How many of them each kind of traverser has to find.
  ghost function Matching<T>(value: Values<T>, kind: Kind, s: seq<T>): nat {
    match kind
    case Asc => |Rising(value, s)|
    case Desc => |Falling(value, s)|
    case Equal => |Level(value, s)|
  }

  lemma NeighboursSplit<T>(value: Values<T>, s: seq<T>)
    requires |s| >= 2
    ensures var front, p := s[..|s| - 1], |s| - 2;
            && Rising(value, s) == Rising(value, front) + (if Rise(value, s, p) > 0 then {p} else {})
            && Falling(value, s) == Falling(value, front) + (if Rise(value, s, p) < 0 then {p} else {})
            && Level(value, s) == Level(value, front) + (if Rise(value, s, p) == 0 then {p} else {})
  {
    var front := s[..|s| - 1];
    assert forall q :: 0 <= q < |front| - 1 ==> Rise(value, front, q) == Rise(value, s, q);
    hide Rise;
  }

  // What the three kinds of traverser count.
  lemma {:induction false} HitsMean<T>(value: Values<T>, s: seq<T>)
    ensures Hits(value, Asc, s) == |Rising(value, s)|
    ensures Hits(value, Desc, s) == |Falling(value, s)|
    ensures Hits(value, Equal, s) == |Level(value, s)|
    decreases |s|
  {
    if |s| >= 2 {
      var front, p := s[..|s| - 1], |s| - 2;
      HitsMean(value, front);
      NeighboursSplit(value, s);
      assert p !in Rising(value, front) && p !in Falling(value, front) && p !in Level(value, front);
      hide Rising, Falling, Level;
    } else {
      assert Rising(value, s) == Falling(value, s) == Level(value, s) == {};
    }
  }

  // Every pair of neighbours is counted by exactly one kind.
  lemma {:induction false} HitsPartition<T>(value: Values<T>, s: seq<T>)
    requires s != []
    ensures Hits(value, Asc, s) + Hits(value, Desc, s) + Hits(value, Equal, s) == |s| - 1
    decreases |s|
  {
    if |s| >= 2 { HitsPartition(value, s[..|s| - 1]); }
  }

  // How many nodes of `s` have a shorter string than `x`.
  function Shorter<T>(value: Values<T>, x: T, s: seq<T>): nat {
    if s == [] then 0 else (if |value(x)| > |value(s[0])| then 1 else 0) + Shorter(value, x, s[1..])
  }

  // The number of pairs of `s` whose strings stand in decreasing order of length.
  function Inversions<T>(value: Values<T>, s: seq<T>): nat {
    if s == [] then 0 else Shorter(value, s[0], s[1..]) + Inversions(value, s[1..])
  }

  lemma {:induction false} ShorterBound<T>(value: Values<T>, x: T, s: seq<T>)
    ensures Shorter(value, x, s) <= |s|
    decreases |s|
  {
    if s != [] { ShorterBound(value, x, s[1..]); }
  }

  lemma {:induction false} InversionsBound<T>(value: Values<T>, s: seq<T>)
    ensures 2 * Inversions(value, s) <= |s| * (|s| - 1)
    decreases |s|
  {
    if s != [] {
      var n := |s|;
      InversionsBound(value, s[1..]);
      ShorterBound(value, s[0], s[1..]);
      assert n * (n - 1) == (n - 1) * (n - 2) + 2 * (n - 1);
    }
  }

  // A traverser that counts falling neighbours finds none exactly when the list is sorted by length.
  lemma {:induction false} NoneFalling<T>(value: Values<T>, s: seq<T>)
    ensures Hits(value, Desc, s) == 0 <==> Inversions(value, s) == 0
    decreases |s|
  {
    if |s| >= 2 {
      NoneFalling(value, s[1..]);
      HitsFromFront(value, s);
      if Inversions(value, s[1..]) == 0 {
        FirstShorter(value, s);
      }
    }
  }

  lemma {:induction false} HitsFromFront<T>(value: Values<T>, s: seq<T>)
    requires |s| >= 2
    ensures Hits(value, Desc, s) == Hits(value, Desc, s[1..]) + (if |value(s[0])| > |value(s[1])| then 1 else 0)
    decreases |s|
  {
    if |s| > 2 {
      HitsFromFront(value, s[..|s| - 1]);
      assert s[..|s| - 1][1..] == s[1..][..|s| - 2];
    }
  }

  lemma FirstShorter<T>(value: Values<T>, s: seq<T>)
    requires |s| >= 2 && Inversions(value, s[1..]) == 0
    ensures Shorter(value, s[0], s[1..]) == 0 <==> |value(s[0])| <= |value(s[1])|
  {
    NoneShorter(value, s[0], s[1..]);
    NoneShorter(value, s[1], s[2..]);
    assert s[1..][1..] == s[2..];
  }

  lemma {:induction false} NoneShorter<T>(value: Values<T>, x: T, s: seq<T>)
    ensures Shorter(value, x, s) == 0 <==> forall i :: 0 <= i < |s| ==> |value(x)| <= |value(s[i])|
    decreases |s|
  {
    if s != [] {
      NoneShorter(value, x, s[1..]);
      assert forall i :: 0 <= i < |s| - 1 ==> s[1..][i] == s[i + 1];
    }
  }

  lemma {:induction false} ShorterExchange<T>(value: Values<T>, x: T, s: seq<T>, i: nat)
    requires i + 1 < |s|
    ensures Shorter(value, x, Exchange(s, i)) == Shorter(value, x, s)
    decreases |s|
  {
    var r := Exchange(s, i);
    if i == 0 {
      assert r[1..][1..] == s[1..][1..];
    } else {
      assert r[1..] == Exchange(s[1..], i - 1);
      ShorterExchange(value, x, s[1..], i - 1);
    }
  }

  // Exchanging two neighbours moves the number of inversions by one, in the direction their
  // lengths give, and not at all when the lengths are equal.
  lemma {:induction false} InversionsExchange<T>(value: Values<T>, s: seq<T>, i: nat)
    requires i + 1 < |s|
    ensures var l1, l2 := |value(s[i])|, |value(s[i + 1])|;
            Inversions(value, Exchange(s, i))
            == Inversions(value, s) + (if l1 < l2 then 1 else 0) - (if l1 > l2 then 1 else 0)
    decreases |s|
  {
    var r := Exchange(s, i);
    if i == 0 {
      assert r[1..][1..] == s[1..][1..];
    } else {
      assert r[1..] == Exchange(s[1..], i - 1);
      InversionsExchange(value, s[1..], i - 1);
      ShorterExchange(value, s[0], s[1..], i - 1);
    }
  }
}
