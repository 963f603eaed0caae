/**
 The main results about the list of program 2.3, for every run of any number of traversers and
 swappers, with exclusive locks or with read/write locks.
 */
module LockTheorems {
  import opened Basics
  import opened SerialList
  import opened Tickets
  import opened LockList
  import opened LockCoupling

  // ----- the invariant holds along every run

  lemma {:induction false} RunInv(c: Config, run: seq<State>, k: nat)
    requires IsRun(c, run) && k < |run|
    ensures Inv(c, run[k])
    ensures run[k].book.init == run[0].book.init
  {
    hide Inv, Init, Advance, Note;
    if k == 0 {
      InitInv(c, run[0]);
    } else {
      RunInv(c, run, k - 1);
      assert Moves(c, run[k - 1], run[k]);
      var t: nat, pick: nat :| Enabled(c, run[k - 1].mem, t, pick) && run[k] == Step(c, run[k - 1], t, pick);
      StepInv(c, run[k - 1], t, pick);
      NoteKeepsInit(c, run[k - 1].book, t, Aimed(run[k - 1].picks, t, run[k - 1].mem.threads[t]));
    }
  }

  lemma NoteKeepsInit(c: Config, b: Book, t: nat, th: Thread)
    ensures Note(c, b, t, th).init == b.init
  {
  }

  // ----- serializability

  // Nobody holds a node.
  ghost predicate AtRest(m: Mem) {
    forall t :: 0 <= t < |m.threads| ==> m.threads[t].held == {}
  }

  lemma {:induction false} RunPasses(value: Values<Node>, order: seq<Node>, ops: seq<Op>)
    requires forall i :: 0 <= i < |ops| ==> ops[i].Pass?
    ensures Run(value, order, ops) == order
    decreases |ops|
  {
    if ops != [] { RunPasses(value, order, ops[..|ops| - 1]); }
  }

  lemma NothingHeld(c: Config, next: map<Node, Option<Node>>, b: Book, t: nat, th: Thread)
    requires Fits(c, next, b, t, th) && th.held == {}
    ensures t !in b.tick
    ensures forall x :: !Stale(th, x)
  {
  }

  lemma RestHasNoTickets(c: Config, s: State)
    requires Base(c, s) && AllFit(c, s.mem, s.book) && Linked(s.mem, s.book) && AtRest(s.mem)
    ensures s.book.tick == map[]
    ensures IsChain(s.mem.next, s.book.order)
  {
    forall u | 0 <= u < |s.mem.threads| ensures u !in s.book.tick && forall x :: !Stale(s.mem.threads[u], x) {
      assert Fits(c, s.mem.next, s.book, u, s.mem.threads[u]);
      NothingHeld(c, s.mem.next, s.book, u, s.mem.threads[u]);
    }
    hide AllFit, Fits, Stale;
    assert forall t :: t in s.book.tick ==> false;
  }

  // Every finished pass visited exactly the list that the swappers leave that locked the head before
  // it, one after the other, and none of the later ones.
  ghost predicate PassesSerial(c: Config, nodes: seq<Node>, s: State) {
    var b := s.book;
    forall i :: 0 <= i < |b.visits| ==>
      && b.visits[i].start <= |b.log|
      && [c.first] + b.visits[i].seen == Run(c.value, nodes, b.log[..b.visits[i].start])
  }

  // A pass under way has locked that list as far as it has come.
  ghost predicate PassesUnderWaySerial(c: Config, nodes: seq<Node>, s: State) {
    var b := s.book;
    forall t :: t in b.tick ==>
      var k := b.tick[t];
      && k.start < |b.log| && k.start < |b.owner| && b.owner[k.start] == t
      && 1 <= k.hi <= |nodes|
      && k.seen == Run(c.value, nodes, b.log[..k.start])[1..k.hi]
  }

  // When nobody holds a lock, memory is the list that all the swaps leave, carried out in the order in
  // which the head was locked.
  ghost predicate MemorySerial(c: Config, nodes: seq<Node>, s: State) {
    AtRest(s.mem) ==> IsChain(s.mem.next, Run(c.value, nodes, s.book.log))
  }

  // At every other moment, the swaps still to come of threads now in the list lead from the present
  // order to that list.
  ghost predicate PendingSerial(c: Config, nodes: seq<Node>, s: State) {
    var b := s.book;
    && |b.pending| == |b.log| == |b.owner|
    && Run(c.value, b.order, b.pending) == Run(c.value, nodes, b.log)
    && (forall i :: 0 <= i < |b.pending| && b.pending[i].Swap? ==>
          && b.owner[i] < |s.mem.threads|
          && b.pending[i] == OpOf(s.mem.threads[b.owner[i]])
          && s.mem.threads[b.owner[i]].held != {})
  }

  lemma StatePassesSerial(c: Config, s: State)
    requires Base(c, s) && Shape(s.book.init, s.book.order) && AllFiled(c.value, s.book)
    ensures PassesSerial(c, s.book.init, s)
  {
    var b := s.book;
    forall i | 0 <= i < |b.visits|
      ensures b.visits[i].start <= |b.log|
      ensures [c.first] + b.visits[i].seen == Run(c.value, b.init, b.log[..b.visits[i].start])
    {
      assert Filed(c.value, b, b.visits[i]);
      RunKeeps(c.value, b.init, b.log[..b.visits[i].start]);
      var view := View(c.value, b, b.visits[i].start);
      assert view == [view[0]] + view[1..];
    }
  }

  lemma StateUnderWay(c: Config, s: State)
    requires Shape(s.book.init, s.book.order) && Issued(s.book.owner, s.book.pending, s.book.tick)
    requires AllBounded(s.book.tick, |s.book.order|) && Serial(c.value, s.book) && Views(c.value, s.book)
    ensures PassesUnderWaySerial(c, s.book.init, s)
  {
    var b := s.book;
    forall t | t in b.tick
      ensures var k := b.tick[t];
              && k.start < |b.log| && k.start < |b.owner| && b.owner[k.start] == t
              && 1 <= k.hi <= |b.init|
              && k.seen == Run(c.value, b.init, b.log[..k.start])[1..k.hi]
    {
      assert SeesView(c.value, b, b.tick[t]);
      assert Bounded(b.tick[t], |b.order|);
    }
  }

  lemma StatePending(c: Config, s: State)
    requires Base(c, s) && AllFit(c, s.mem, s.book)
    requires Issued(s.book.owner, s.book.pending, s.book.tick) && Serial(c.value, s.book)
    ensures PendingSerial(c, s.book.init, s)
  {
    var b := s.book;
    forall i | 0 <= i < |b.pending| && b.pending[i].Swap?
      ensures b.owner[i] < |s.mem.threads|
      ensures b.pending[i] == OpOf(s.mem.threads[b.owner[i]])
      ensures s.mem.threads[b.owner[i]].held != {}
    {
      var t := b.owner[i];
      assert Fits(c, s.mem.next, b, t, s.mem.threads[t]);
      if s.mem.threads[t].held == {} {
        NothingHeld(c, s.mem.next, b, t, s.mem.threads[t]);
      }
    }
  }

  lemma StateMemory(c: Config, s: State)
    requires Base(c, s) && AllFit(c, s.mem, s.book) && Linked(s.mem, s.book)
    requires Issued(s.book.owner, s.book.pending, s.book.tick) && Serial(c.value, s.book)
    ensures MemorySerial(c, s.book.init, s)
  {
    if AtRest(s.mem) {
      RestHasNoTickets(c, s);
      RunPasses(c.value, s.book.order, s.book.pending);
    }
  }

  lemma Serializable(c: Config, run: seq<State>, k: nat)
    requires IsRun(c, run) && k < |run|
    ensures PassesSerial(c, run[0].book.init, run[k])
    ensures PassesUnderWaySerial(c, run[0].book.init, run[k])
    ensures PendingSerial(c, run[0].book.init, run[k])
    ensures MemorySerial(c, run[0].book.init, run[k])
  {
    RunInv(c, run, k);
    hide IsRun, PassesSerial, PassesUnderWaySerial, PendingSerial, MemorySerial, Shape, AllBounded, Issued, Ordered,
         Serial, Views, AllFiled, Balanced, Base, AllFit, Linked, Exclusive, Guarded, Counted, Scored;
    StatePassesSerial(c, run[k]);
    StateUnderWay(c, run[k]);
    StatePending(c, run[k]);
    StateMemory(c, run[k]);
  }

  // Every finished pass visited each of the count nodes exactly once, compared count - 1
  // neighbouring pairs, and counted those whose left string is shorter, longer, or as long, according to its kind.
  ghost predicate PassComplete(c: Config, nodes: seq<Node>, v: Visit) {
    && nodes != []
    && |v.seen| == c.count
    && multiset(v.seen) == multiset(nodes[1..])
    && Distinct(v.seen)
    && v.pairs == c.count - 1
    && v.hits == Matching(c.value, v.kind, v.seen)
  }

  lemma TailOf(one: seq<Node>, two: seq<Node>)
    requires one != [] && two != [] && one[0] == two[0]
    requires multiset(one) == multiset(two) && Distinct(one)
    ensures multiset(one[1..]) == multiset(two[1..]) && Distinct(one[1..])
  {
    assert one == [one[0]] + one[1..] && two == [two[0]] + two[1..];
    assert multiset(one[1..]) == multiset(one) - multiset{one[0]};
    assert multiset(two[1..]) == multiset(two) - multiset{two[0]};
  }

  lemma StatePassComplete(c: Config, s: State, i: nat)
    requires Base(c, s) && Shape(s.book.init, s.book.order) && Scored(c.value, s.book)
    requires i < |s.book.visits| && Distinct(s.book.init) && Filed(c.value, s.book, s.book.visits[i])
    ensures PassComplete(c, s.book.init, s.book.visits[i])
  {
    var b := s.book;
    RunKeeps(c.value, b.init, b.log[..b.visits[i].start]);
    TailOf(View(c.value, b, b.visits[i].start), b.init);
    HitsMean(c.value, b.visits[i].seen);
    hide Rising, Falling, Level, Hits;
  }

  lemma EveryPassIsComplete(c: Config, run: seq<State>, k: nat, i: nat)
    requires IsRun(c, run) && k < |run| && i < |run[k].book.visits|
    ensures PassComplete(c, run[0].book.init, run[k].book.visits[i])
  {
    RunInv(c, run, k);
    assert Distinct(run[0].book.init);
    assert Filed(c.value, run[k].book, run[k].book.visits[i]);
    hide IsRun, Filed, PassComplete, AllBounded, Issued, Ordered, Serial, Views, AllFiled, Balanced, AllFit, Linked,
         Exclusive, Guarded, Counted, Scored;
    StatePassComplete(c, run[k], i);
  }

  // ----- the chain

  // Carry out the pointer writes that thread th still owes.
  function FinishOne(next: map<Node, Option<Node>>, th: Thread): map<Node, Option<Node>> {
    match th.pc
    case SWriteA => next[th.a := NextOf(next, th.b)][th.b := Some(th.a)]
    case SWriteB => next[th.b := Some(th.a)]
    case _ => next
  }

  function Finish(next: map<Node, Option<Node>>, threads: seq<Thread>): map<Node, Option<Node>> {
    if threads == [] then next else FinishOne(Finish(next, threads[1..]), threads[0])
  }

  // A stretch of threads, with the facts about it that finishing its swaps needs.
  ghost predicate Tidy(next: map<Node, Option<Node>>, order: seq<Node>, threads: seq<Thread>) {
    && (forall u, v, x :: 0 <= u < v < |threads| && Stale(threads[u], x) ==> !Stale(threads[v], x))
    && (forall u :: 0 <= u < |threads| && Writing(threads[u].pc) ==>
          var th := threads[u];
          && th.i + 2 < |order| && order[th.i + 1] == th.b && order[th.i + 2] == th.a
          && (th.pc.SWriteA? ==> NextOf(next, th.b) == Succ(order, th.i + 2)))
  }

  lemma {:induction false} FinishLinks(next: map<Node, Option<Node>>, order: seq<Node>, threads: seq<Thread>, p: nat)
    requires Distinct(order) && Tidy(next, order, threads) && p < |order|
    ensures NextOf(Finish(next, threads), order[p])
            == if exists u :: 0 <= u < |threads| && Stale(threads[u], order[p]) then Succ(order, p)
               else NextOf(next, order[p])
    decreases |threads|
  {
    if threads != [] {
      var th, rest := threads[0], threads[1..];
      assert Tidy(next, order, rest);
      FinishLinks(next, order, rest, p);
      if Stale(th, order[p]) {
        FinishLinks(next, order, rest, th.i + 1);
        FinishFirst(next, order, threads, p);
      } else if u :| 0 <= u < |threads| && Stale(threads[u], order[p]) {
        assert Stale(rest[u - 1], order[p]);
      }
    }
  }

  lemma FinishFirst(next: map<Node, Option<Node>>, order: seq<Node>, threads: seq<Thread>, p: nat)
    requires Distinct(order) && Tidy(next, order, threads) && p < |order|
    requires threads != [] && Stale(threads[0], order[p])
    requires var q := threads[0].i + 1;
             q < |order| &&
             NextOf(Finish(next, threads[1..]), order[q])
             == if exists u :: 0 <= u < |threads| - 1 && Stale(threads[1..][u], order[q]) then Succ(order, q)
                else NextOf(next, order[q])
    ensures NextOf(Finish(next, threads), order[p]) == Succ(order, p)
  {
    var th := threads[0];
    assert p == th.i + 1 || p == th.i + 2;
    assert Stale(th, order[th.i + 1]);
  }

  // Once the swaps under way are completed, the pointers form one chain through all the nodes that
  // storage_init built, from the same first node.
  ghost predicate ChainIntact(c: Config, nodes: seq<Node>, s: State) {
    && IsChain(Finish(s.mem.next, s.mem.threads), s.book.order)
    && s.book.order != [] && s.book.order[0] == c.first
    && Distinct(s.book.order)
    && multiset(s.book.order) == multiset(nodes)
  }

  lemma StateChain(c: Config, s: State)
    requires Base(c, s) && AllFit(c, s.mem, s.book) && Exclusive(c, s.mem.threads) && Linked(s.mem, s.book)
    requires Shape(s.book.init, s.book.order)
    ensures ChainIntact(c, s.book.init, s)
  {
    TidyThreads(c, s);
    hide AllFit, Exclusive, Tidy, Stale;
    forall p | 0 <= p < |s.book.order|
      ensures NextOf(Finish(s.mem.next, s.mem.threads), s.book.order[p]) == Succ(s.book.order, p)
    {
      FinishLinks(s.mem.next, s.book.order, s.mem.threads, p);
    }
  }

  // In every reachable state, also between the three pointer writes of any number of swaps.
  lemma ChainAlwaysIntact(c: Config, run: seq<State>, k: nat)
    requires IsRun(c, run) && k < |run|
    ensures ChainIntact(c, run[0].book.init, run[k])
  {
    RunInv(c, run, k);
    hide IsRun, ChainIntact, AllBounded, Issued, Ordered, Serial, Views, AllFiled, Balanced, AllFit, Linked, Exclusive,
         Guarded, Counted, Scored;
    StateChain(c, run[k]);
  }

  lemma TidyThreads(c: Config, s: State)
    requires AllFit(c, s.mem, s.book) && Exclusive(c, s.mem.threads)
    ensures Tidy(s.mem.next, s.book.order, s.mem.threads)
  {
    var threads := s.mem.threads;
    forall u, v, x | 0 <= u < v < |threads| && Stale(threads[u], x) ensures !Stale(threads[v], x) {
      if Stale(threads[v], x) {
        StaleIsHeld(c, s.mem.next, s.book, u, threads[u], x);
        StaleIsHeld(c, s.mem.next, s.book, v, threads[v], x);
      }
    }
    forall u | 0 <= u < |threads| && Writing(threads[u].pc)
      ensures var th := threads[u];
              && th.i + 2 < |s.book.order| && s.book.order[th.i + 1] == th.b && s.book.order[th.i + 2] == th.a
              && (th.pc.SWriteA? ==> NextOf(s.mem.next, th.b) == Succ(s.book.order, th.i + 2))
    {
      assert Fits(c, s.mem.next, s.book, u, threads[u]);
    }
  }

  // A swapper at loop counter i holds positions i and i + 1; when it compares it holds the two nodes its index
  // stands for and the one before them; none of the exits for a list that is too short is ever taken.
  ghost predicate LongEnough(order: seq<Node>, th: Thread) {
    && !th.pc.TUnlockEmpty? && !th.pc.SUnlockEmpty? && !th.pc.SGiveUpA? && !th.pc.SGiveUpPrev?
    && (th.pc.SLoop? ==>
          && th.i + 1 < |order| && th.prev == order[th.i] && th.a == order[th.i + 1]
          && th.held == {order[th.i], order[th.i + 1]})
    && (th.pc.STest? ==>
          && th.i == th.index && th.index + 2 < |order|
          && th.prev == order[th.index] && th.a == order[th.index + 1] && th.b == order[th.index + 2]
          && th.held == {order[th.index], order[th.index + 1], order[th.index + 2]})
  }

  lemma StateLongEnough(c: Config, next: map<Node, Option<Node>>, b: Book, t: nat, th: Thread)
    requires Fits(c, next, b, t, th)
    ensures LongEnough(b.order, th)
  {
  }

  lemma ShortListExitsUnreachable(c: Config, run: seq<State>, k: nat, t: nat)
    requires IsRun(c, run) && k < |run| && t < |run[k].mem.threads|
    ensures LongEnough(run[k].book.order, run[k].mem.threads[t])
  {
    RunInv(c, run, k);
    assert Fits(c, run[k].mem.next, run[k].book, t, run[k].mem.threads[t]);
    hide IsRun, Fits, LongEnough, Books, AllFit, Linked, Exclusive, Guarded, Counted, Scored;
    StateLongEnough(c, run[k].mem.next, run[k].book, t, run[k].mem.threads[t]);
  }

  // ----- deadlock

  // Thread t cannot go on until thread u gives something back.
  predicate WaitsFor(c: Config, m: Mem, t: nat, u: nat) {
    && t < |m.threads| && u < |m.threads|
    && (|| (&& Wanted(c, m.threads[t]).Some?
            && Wanted(c, m.threads[t]).value in m.threads[u].held
            && !Compatible(c, m.threads[u].role, m.threads[t].role))
        || (WantsGuard(m.threads[t]) && m.guard == Some(u)))
  }

  // The list position a thread waits to lock; counters_lock comes after all of them.
  function Rank(c: Config, s: State, t: nat): nat
    requires t < |s.mem.threads|
  {
    if Wanted(c, s.mem.threads[t]).Some? then (if t in s.book.tick then s.book.tick[t].hi else 0)
    else if WantsGuard(s.mem.threads[t]) then |s.book.order| + 1
    else |s.book.order| + 2
  }

  // Waiting for a thread means waiting for something nearer the head of the list than
  // anything that thread can wait for.
  lemma WaitsRise(c: Config, s: State, t: nat, u: nat)
    requires Inv(c, s) && WaitsFor(c, s.mem, t, u)
    ensures Rank(c, s, t) < Rank(c, s, u)
  {
    assert Fits(c, s.mem.next, s.book, t, s.mem.threads[t]);
    assert Fits(c, s.mem.next, s.book, u, s.mem.threads[u]);
    hide Books, Exclusive, Linked, Counted, AllFit, Scored;
    if Wanted(c, s.mem.threads[t]).Some? {
      WantsOwnPlace(c, s.mem.next, s.book, t, s.mem.threads[t]);
      HoldsOwnWindow(c, s.mem.next, s.book, u, s.mem.threads[u], Wanted(c, s.mem.threads[t]).value);
    }
  }

  lemma WantsOwnPlace(c: Config, next: map<Node, Option<Node>>, b: Book, t: nat, th: Thread)
    requires Fits(c, next, b, t, th) && Wanted(c, th).Some?
    requires b.order != [] && b.order[0] == c.first
    ensures var place := if t in b.tick then b.tick[t].hi else 0;
            place < |b.order| && Wanted(c, th).value == b.order[place]
  {
  }

  lemma HoldsOwnWindow(c: Config, next: map<Node, Option<Node>>, b: Book, t: nat, th: Thread, x: Node)
    requires Fits(c, next, b, t, th) && x in th.held && Distinct(b.order)
    ensures t in b.tick ==> forall p :: 0 <= p < |b.order| && b.order[p] == x ==> p < b.tick[t].hi
    ensures t !in b.tick ==> Wanted(c, th) == None
    ensures t in b.tick ==> b.tick[t].hi <= |b.order|
  {
  }

  ghost predicate WaitingCycle(c: Config, m: Mem, cycle: seq<nat>) {
    && cycle != []
    && (forall i :: 0 <= i < |cycle| - 1 ==> WaitsFor(c, m, cycle[i], cycle[i + 1]))
    && WaitsFor(c, m, cycle[|cycle| - 1], cycle[0])
  }

  // No run reaches a state in which threads wait for one another in a circle.
  lemma NoWaitingCycle(c: Config, run: seq<State>, k: nat, cycle: seq<nat>)
    requires IsRun(c, run) && k < |run|
    ensures !WaitingCycle(c, run[k].mem, cycle)
  {
    RunInv(c, run, k);
    hide IsRun, Inv, WaitsFor, Rank;
    if WaitingCycle(c, run[k].mem, cycle) {
      RankClimbs(c, run[k], cycle, |cycle| - 1);
    }
  }

  lemma {:induction false} RankClimbs(c: Config, s: State, cycle: seq<nat>, n: nat)
    requires Inv(c, s) && n < |cycle| && WaitingCycle(c, s.mem, cycle)
    ensures cycle[0] < |s.mem.threads| && cycle[n] < |s.mem.threads|
    ensures Rank(c, s, cycle[0]) <= Rank(c, s, cycle[n])
    ensures n + 1 < |cycle|
  {
    hide Inv, Rank;
    if n > 0 {
      RankClimbs(c, s, cycle, n - 1);
      WaitsRise(c, s, cycle[n - 1], cycle[n]);
    }
    if n + 1 == |cycle| {
      WaitsRise(c, s, cycle[n], cycle[0]);
    }
  }

  // In every reachable state some thread can take its next step.
  lemma NoDeadlock(c: Config, run: seq<State>, k: nat)
    requires IsRun(c, run) && k < |run| && run[k].mem.threads != []
    ensures exists t: nat, pick: nat :: Enabled(c, run[k].mem, t, pick)
  {
    RunInv(c, run, k);
    var t := SomeoneMoves(c, run[k], 0);
    assert Enabled(c, run[k].mem, t, 0);
  }

  // Following the threads that others wait for leads to one that can move.
  lemma {:induction false} SomeoneMoves(c: Config, s: State, t: nat) returns (u: nat)
    requires Inv(c, s) && t < |s.mem.threads|
    ensures Enabled(c, s.mem, u, 0)
    decreases |s.book.order| + 2 - Rank(c, s, t)
  {
    if Enabled(c, s.mem, t, 0) {
      u := t;
    } else {
      var v := BlockedByOne(c, s, t);
      WaitsRise(c, s, t, v);
      RankBound(c, s, v);
      u := SomeoneMoves(c, s, v);
    }
  }

  lemma RankBound(c: Config, s: State, t: nat)
    requires Inv(c, s) && t < |s.mem.threads|
    ensures Rank(c, s, t) <= |s.book.order| + 2
  {
    assert t in s.book.tick ==> Bounded(s.book.tick[t], |s.book.order|);
  }

  lemma BlockedByOne(c: Config, s: State, t: nat) returns (u: nat)
    requires Guarded(s.mem)
    requires t < |s.mem.threads| && !Enabled(c, s.mem, t, 0)
    ensures WaitsFor(c, s.mem, t, u)
  {
    var th := s.mem.threads[t];
    if Wanted(c, th).Some? && !Available(c, s.mem.threads, th.role, Wanted(c, th).value) {
      u :| 0 <= u < |s.mem.threads| && Wanted(c, th).value in s.mem.threads[u].held
           && !Compatible(c, s.mem.threads[u].role, th.role);
    } else {
      u := s.mem.guard.value;
    }
  }

  // ----- the counters

  // Every counter is what it counts, up to what inc_long has not got to yet: swaps carried out, matching
  // pairs found, passes finished.  No increment is lost between a load and a store.
  lemma CountersAreExact(c: Config, run: seq<State>, k: nat, counter: Counter, kind: Kind)
    requires IsRun(c, run) && k < |run|
    ensures Recorded(run[k].book, counter, kind)
            == CountOf(run[k].mem.ctr, counter, kind) + InFlight(run[k].mem.threads, counter, kind)
  {
    RunInv(c, run, k);
  }

  // The three counters account for every change of the number of inversions of the list:
  // ascending swaps each remove one, descending swaps each add one, and the others each do either.
  ghost predicate InversionLaw(c: Config, nodes: seq<Node>, order: seq<Node>, swaps: Trio, drift: int) {
    && nodes != [] && order != []
    && Inversions(c.value, order[1..]) == Inversions(c.value, nodes[1..]) - swaps.asc + swaps.desc + drift
    && 0 - swaps.equal <= drift <= swaps.equal
    && (swaps.equal - drift) % 2 == 0
  }

  // Whenever no swap is between its first pointer write and its counter update.
  lemma SwapCountersExplainInversions(c: Config, run: seq<State>, k: nat)
    requires IsRun(c, run) && k < |run|
    requires Flights(run[k].mem.threads) == 0
    ensures exists drift :: InversionLaw(c, run[0].book.init, run[k].book.order, run[k].mem.ctr.swaps, drift)
  {
    hide IsRun, AllBounded, Issued, Ordered, Serial, Views, AllFiled, AllFit, Linked, Exclusive, Guarded, Counted,
         Scored, InFlight, Recorded, CountOf;
    RunInv(c, run, k);
    CountersAreTallies(run[k].mem, run[k].book);
    assert run[k].book.tally.done == run[k].mem.ctr.swaps;
    assert InversionLaw(c, run[0].book.init, run[k].book.order, run[k].mem.ctr.swaps, run[k].book.tally.drift);
  }

  lemma CountersAreTallies(m: Mem, b: Book)
    requires Counted(m, b)
    ensures b.tally.done.asc == m.ctr.swaps.asc + InFlight(m.threads, Swaps, Asc)
    ensures b.tally.done.desc == m.ctr.swaps.desc + InFlight(m.threads, Swaps, Desc)
    ensures b.tally.done.equal == m.ctr.swaps.equal + InFlight(m.threads, Swaps, Equal)
  {
    assert Recorded(b, Swaps, Asc) == CountOf(m.ctr, Swaps, Asc) + InFlight(m.threads, Swaps, Asc);
    assert Recorded(b, Swaps, Desc) == CountOf(m.ctr, Swaps, Desc) + InFlight(m.threads, Swaps, Desc);
    assert Recorded(b, Swaps, Equal) == CountOf(m.ctr, Swaps, Equal) + InFlight(m.threads, Swaps, Equal);
  }

  function Flights(threads: seq<Thread>): nat {
    InFlight(threads, Swaps, Asc) + InFlight(threads, Swaps, Desc) + InFlight(threads, Swaps, Equal)
  }

  // Whatever the schedule and however long the run, the ascending and descending counters that the
  // monitor reads stay close to each other.
  lemma CountersStayClose(c: Config, run: seq<State>, k: nat)
    requires IsRun(c, run) && k < |run|
    ensures var swaps := run[k].mem.ctr.swaps;
            var slack := 2 * (swaps.equal + Flights(run[k].mem.threads)) + c.count * (c.count - 1);
            && 2 * (swaps.desc - swaps.asc) <= slack
            && 2 * (swaps.asc - swaps.desc) <= slack
  {
    hide IsRun, AllBounded, Issued, Ordered, Serial, Views, AllFiled, AllFit, Linked, Exclusive, Guarded, Counted,
         Scored, InFlight, Recorded, CountOf;
    RunInv(c, run, k);
    CountersAreTallies(run[k].mem, run[k].book);
    InversionsBound(c.value, run[k].book.order[1..]);
    InversionsBound(c.value, run[k].book.init[1..]);
  }
}
