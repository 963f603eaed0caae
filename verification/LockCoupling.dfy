/**
 What every step of the lock-coupling program keeps: where each thread is in the list, what it
 has locked, and that the pointers in memory describe the order in the book, except where a
 swap is between its writes.
 */
module LockCoupling {
  import opened Basics
  import opened Counting
  import opened SerialList
  import opened Tickets
  import opened LockList

  // ----- one thread

  ghost predicate At(b: Book, t: nat, lo: nat, hi: nat) {
    && t in b.tick
    && b.tick[t].lo == lo
    && b.tick[t].hi == hi
    && lo < hi <= |b.order|
  }

  // All pairs seen so far have been compared, and the matching ones counted.
  ghost predicate Compared(value: Values<Node>, k: Ticket, kind: Kind, seen: seq<Node>) {
    k.pairs + 1 == |seen| && k.hits == Hits(value, kind, seen)
  }

  ghost predicate WalkFits(c: Config, b: Book, t: nat, th: Thread)
    requires th.role.Traverser?
    requires t in b.tick ==> |b.tick[t].seen| + 1 == b.tick[t].hi
  {
    var kind := th.role.kind;
    match th.pc
    case TLockFirst | TIter(_) => th.held == {} && t !in b.tick
    case TReadFirst =>
      At(b, t, 0, 1) && th.held == {b.order[0]} && b.tick[t].pairs == 0 && b.tick[t].hits == 0
    case TLockA =>
      && At(b, t, 0, 1) && th.held == {b.order[0]} && b.tick[t].pairs == 0 && b.tick[t].hits == 0
      && 1 < |b.order| && th.a == b.order[1]
    case TUnlockFirst =>
      && At(b, t, 0, 2) && th.held == {b.order[0], b.order[1]} && b.tick[t].pairs == 0 && b.tick[t].hits == 0
      && th.a == b.order[1] && b.tick[t].seen[0] == th.a
    case TReadNext | TLockB | TUnlockLast =>
      && t in b.tick
      && (var k := b.tick[t];
          && k.lo >= 1 && At(b, t, k.lo, k.lo + 1) && th.a == b.order[k.lo] && th.held == {th.a}
          && k.seen[|k.seen| - 1] == th.a
          && Compared(c.value, k, kind, k.seen)
          && (th.pc.TLockB? ==> k.hi < |b.order| && th.b == b.order[k.hi])
          && (th.pc.TUnlockLast? ==> k.hi == |b.order|))
    case TCompare | TPair(_) | TAdvance =>
      && t in b.tick
      && (var k := b.tick[t];
          && k.lo >= 1 && At(b, t, k.lo, k.lo + 2) && th.a == b.order[k.lo] && th.b == b.order[k.lo + 1]
          && th.held == {th.a, th.b}
          && k.seen[|k.seen| - 2] == th.a && k.seen[|k.seen| - 1] == th.b
          && Compared(c.value, k, kind, if th.pc.TCompare? then k.seen[..|k.seen| - 1] else k.seen))
    case _ => false
  }

  ghost predicate SwapFits(c: Config, next: map<Node, Option<Node>>, b: Book, t: nat, th: Thread)
    requires th.role.Swapper?
  {
    var order, i := b.order, th.i;
    match th.pc
    case SPick => th.held == {} && t !in b.tick
    case SLockFirst =>
      th.held == {} && t !in b.tick && order != [] && th.prev == order[0] && th.index + 2 < |order|
    case SReadA => At(b, t, 0, 1) && th.prev == order[0] && th.held == {th.prev}
    case SLockA =>
      At(b, t, 0, 1) && th.prev == order[0] && th.held == {th.prev} && 1 < |order| && th.a == order[1]
    case SLoop | SReadB | SLockNext | SLockB =>
      && At(b, t, i, i + 2) && th.prev == order[i] && th.a == order[i + 1] && th.held == {th.prev, th.a}
      && (th.pc.SReadB? || th.pc.SLockB? ==> i == th.index)
      && (th.pc.SLockNext? ==> i < th.index)
      && (th.pc.SLockNext? || th.pc.SLockB? ==> i + 2 < |order| && th.b == order[i + 2])
    case SShift | STest | SWritePrev =>
      && At(b, t, i, i + 3) && th.prev == order[i] && th.a == order[i + 1] && th.b == order[i + 2]
      && th.held == {th.prev, th.a, th.b}
      && (if th.pc.SShift? then i < th.index else i == th.index)
      && (th.pc.SWritePrev? ==> NeedSwap(th.role.kind, |c.value(th.a)|, |c.value(th.b)|))
    case SWriteA | SWriteB =>
      && t !in b.tick && i + 2 < |order|
      && th.prev == order[i] && th.b == order[i + 1] && th.a == order[i + 2]
      && th.held == {th.prev, th.a, th.b}
      && (th.pc.SWriteA? ==> NextOf(next, th.b) == Succ(order, i + 2))
    case SCount(_) | SUnlockB =>
      t !in b.tick && th.held == {th.prev, th.a, th.b}
      && th.prev != th.a && th.a != th.b && th.b != th.prev
    case SUnlockA => t !in b.tick && th.held == {th.prev, th.a} && th.prev != th.a
    case SUnlockPrev => t !in b.tick && th.held == {th.prev}
    case _ => false
  }

  ghost predicate Fits(c: Config, next: map<Node, Option<Node>>, b: Book, t: nat, th: Thread) {
    && (t in b.tick ==> |b.tick[t].seen| + 1 == b.tick[t].hi && b.tick[t].op == OpOf(th))
    && (if th.role.Traverser? then WalkFits(c, b, t, th) else SwapFits(c, next, b, t, th))
  }

  // ----- all threads together

  ghost predicate AllFit(c: Config, m: Mem, b: Book) {
    forall t :: 0 <= t < |m.threads| ==> Fits(c, m.next, b, t, m.threads[t])
  }

  ghost predicate Exclusive(c: Config, threads: seq<Thread>) {
    forall t, u, x :: 0 <= t < |threads| && 0 <= u < |threads| && t != u && x in threads[t].held && x in threads[u].held
      ==> Compatible(c, threads[t].role, threads[u].role)
  }

  // Thread th is about to write x.next, and the value there is out of date.
  predicate Stale(th: Thread, x: Node) {
    (th.pc.SWriteA? && (x == th.a || x == th.b)) || (th.pc.SWriteB? && x == th.b)
  }

  ghost predicate Linked(m: Mem, b: Book) {
    forall p :: 0 <= p < |b.order| ==>
      NextOf(m.next, b.order[p]) == Succ(b.order, p)
      || exists u :: 0 <= u < |m.threads| && Stale(m.threads[u], b.order[p])
  }

  ghost predicate Guarded(m: Mem) {
    && (forall t :: 0 <= t < |m.threads| ==>
          (m.guard == Some(t) <==> StageOf(m.threads[t].pc) in {Some(Have), Some(Loaded), Some(Done)}))
    && (m.guard.Some? ==> m.guard.value < |m.threads|)
  }

  // What a thread has loaded in inc_long is still the value of the counter when it stores.
  ghost predicate Unraced(m: Mem) {
    forall t :: 0 <= t < |m.threads| && StageOf(m.threads[t].pc) == Some(Loaded) ==>
      m.threads[t].tmp == Target(m.ctr, m.threads[t])
  }

  // A swapper about to enter the list goes for what it has picked.
  ghost predicate OnAim(picks: map<nat, nat>, threads: seq<Thread>) {
    forall t :: 0 <= t < |threads| && threads[t].pc.SLockFirst? ==> t in picks && picks[t] == threads[t].index
  }

  datatype Counter = Swaps | Pairs | Passes

  // Something has happened that inc_long still has to count: a swap has been carried out or begun, a
  // matching pair has been found, a pass has ended.
  predicate Uncounted(th: Thread, counter: Counter, kind: Kind) {
    && th.role.kind == kind
    && match th.pc
       case SWriteA | SWriteB => counter == Swaps && th.role.Swapper?
       case SCount(stage) => counter == Swaps && th.role.Swapper? && stage != Done
       case TPair(stage) => counter == Pairs && stage != Done
       case TIter(stage) => counter == Passes && stage != Done
       case _ => false
  }

  function Due(counter: Counter, kind: Kind): Thread -> bool { th => Uncounted(th, counter, kind) }

  function InFlight(threads: seq<Thread>, counter: Counter, kind: Kind): nat { CountIf(threads, Due(counter, kind)) }

  function Filings(visits: seq<Visit>, kind: Kind): nat {
    if visits == [] then 0
    else Filings(visits[..|visits| - 1], kind) + (if visits[|visits| - 1].kind == kind then 1 else 0)
  }

  // What the book says has happened, and what the program has counted.
  function Recorded(b: Book, counter: Counter, kind: Kind): nat {
    match counter
    case Swaps => b.tally.done.Get(kind)
    case Pairs => b.matched.Get(kind)
    case Passes => Filings(b.visits, kind)
  }

  function CountOf(ctr: Counters, counter: Counter, kind: Kind): nat {
    match counter
    case Swaps => ctr.swaps.Get(kind)
    case Pairs => ctr.pairs.Get(kind)
    case Passes => ctr.iterations.Get(kind)
  }

  ghost predicate Counted(m: Mem, b: Book) {
    forall counter, kind ::
      Recorded(b, counter, kind) == CountOf(m.ctr, counter, kind) + InFlight(m.threads, counter, kind)
  }

  // Every filed pass compared each neighbouring pair it saw, and counted the matching ones.
  ghost predicate Scored(value: Values<Node>, b: Book) {
    forall i :: 0 <= i < |b.visits| ==>
      var v := b.visits[i];
      v.pairs + 1 == |v.seen| && v.hits == Hits(value, v.kind, v.seen)
  }

  ghost predicate Base(c: Config, s: State) {
    && c.count >= 1
    && |s.book.order| == c.count + 1
    && s.book.order[0] == c.first
    && Distinct(s.book.order)
    && (forall t :: t in s.book.tick ==> t < |s.mem.threads|)
  }

  ghost predicate Inv(c: Config, s: State) {
    && Base(c, s)
    && Books(c.value, s.book)
    && AllFit(c, s.mem, s.book)
    && Exclusive(c, s.mem.threads)
    && Linked(s.mem, s.book)
    && OnAim(s.picks, s.mem.threads)
    && Guarded(s.mem)
    && Unraced(s.mem)
    && Counted(s.mem, s.book)
    && Scored(c.value, s.book)
  }

  // ----- the state before the first step

  lemma InitInv(c: Config, s: State)
    requires Init(c, s)
    ensures Inv(c, s)
  {
    OpenBooks(c.value, s.book.init);
    forall counter, kind ensures InFlight(s.mem.threads, counter, kind) == 0 {
      CountNone(s.mem.threads, Due(counter, kind));
    }
  }

  // ----- what a thread knows of the list

  // The window of a ticket is locked by its holder.
  lemma Holds(c: Config, next: map<Node, Option<Node>>, b: Book, t: nat, th: Thread, p: nat)
    requires Fits(c, next, b, t, th)
    requires t in b.tick && b.tick[t].lo <= p < b.tick[t].hi && p < |b.order|
    ensures b.order[p] in th.held
  {
  }

  // A conflicting ticket cannot cover a node that is free to be locked.
  lemma FreeIsClear(c: Config, s: State, t: nat, p: nat)
    requires Base(c, s) && AllFit(c, s.mem, s.book)
    requires t < |s.mem.threads| && p < |s.book.order|
    requires Available(c, s.mem.threads, s.mem.threads[t].role, s.book.order[p])
    ensures forall u :: u in s.book.tick && Conflict(s.book.tick[u].op, OpOf(s.mem.threads[t]))
                        ==> !(s.book.tick[u].lo <= p < s.book.tick[u].hi)
  {
    forall u | u in s.book.tick && Conflict(s.book.tick[u].op, OpOf(s.mem.threads[t]))
      ensures !(s.book.tick[u].lo <= p < s.book.tick[u].hi)
    {
      assert Fits(c, s.mem.next, s.book, u, s.mem.threads[u]);
      if s.book.tick[u].lo <= p < s.book.tick[u].hi {
        Holds(c, s.mem.next, s.book, u, s.mem.threads[u], p);
      }
    }
  }

  lemma StaleIsHeld(c: Config, next: map<Node, Option<Node>>, b: Book, t: nat, th: Thread, x: Node)
    requires Fits(c, next, b, t, th) && Stale(th, x)
    ensures x in th.held && th.role.Swapper?
  {
  }

  // A node that a thread holds, and is not itself rewriting, points where the order says.
  lemma ReadsOrder(c: Config, s: State, t: nat, p: nat)
    requires AllFit(c, s.mem, s.book) && Exclusive(c, s.mem.threads) && Linked(s.mem, s.book)
    requires t < |s.mem.threads| && p < |s.book.order|
    requires s.book.order[p] in s.mem.threads[t].held && !Stale(s.mem.threads[t], s.book.order[p])
    ensures NextOf(s.mem.next, s.book.order[p]) == Succ(s.book.order, p)
  {
    var x := s.book.order[p];
    if u :| 0 <= u < |s.mem.threads| && Stale(s.mem.threads[u], x) {
      StaleIsHeld(c, s.mem.next, s.book, u, s.mem.threads[u], x);
    }
  }

  // ----- the book

  // The position a thread is about to lock, when it can.
  lemma EntryIsClear(c: Config, s: State, t: nat, pick: nat)
    requires Base(c, s) && AllFit(c, s.mem, s.book) && Enabled(c, s.mem, t, pick)
    requires AllBounded(s.book.tick, |s.book.order|)
    requires s.mem.threads[t].pc.TLockFirst? || s.mem.threads[t].pc.SLockFirst?
    ensures forall u :: u in s.book.tick && Conflict(s.book.tick[u].op, OpOf(s.mem.threads[t]))
                        ==> 1 <= s.book.tick[u].lo
  {
    assert Fits(c, s.mem.next, s.book, t, s.mem.threads[t]);
    FreeIsClear(c, s, t, 0);
    forall u | u in s.book.tick && Conflict(s.book.tick[u].op, OpOf(s.mem.threads[t]))
      ensures 1 <= s.book.tick[u].lo
    {
      assert Bounded(s.book.tick[u], |s.book.order|);
    }
  }

  predicate Grows(pc: PC) { pc.TLockA? || pc.TLockB? || pc.SLockA? || pc.SLockNext? || pc.SLockB? }

  lemma GrowthIsClear(c: Config, s: State, t: nat, pick: nat)
    requires Base(c, s) && AllFit(c, s.mem, s.book) && Enabled(c, s.mem, t, pick)
    requires Grows(s.mem.threads[t].pc)
    ensures t in s.book.tick && Clear(s.book, t, s.book.tick[t].hi)
  {
    assert Fits(c, s.mem.next, s.book, t, s.mem.threads[t]);
    FreeIsClear(c, s, t, s.book.tick[t].hi);
  }

  lemma NoteEnter(c: Config, next: map<Node, Option<Node>>, b: Book, t: nat, th: Thread)
    requires Books(c.value, b) && Fits(c, next, b, t, th)
    requires th.pc.TLockFirst? || th.pc.SLockFirst?
    requires forall u :: u in b.tick && Conflict(b.tick[u].op, OpOf(th)) ==> 1 <= b.tick[u].lo
    ensures Books(c.value, Note(c, b, t, th))
  {
    hide Shape, Issued, Ordered, Serial, Views, AllFiled, Balanced;
    EnterBooks(c.value, b, t, OpOf(th));
  }

  lemma NoteGrow(c: Config, next: map<Node, Option<Node>>, b: Book, t: nat, th: Thread)
    requires Books(c.value, b) && Fits(c, next, b, t, th)
    requires Grows(th.pc) && t in b.tick && Clear(b, t, b.tick[t].hi)
    ensures Books(c.value, Note(c, b, t, th))
  {
    hide Shape, Issued, Ordered, Serial, Views, AllFiled, Balanced;
    assert Bounded(b.tick[t], |b.order|);
    GrowBooks(c.value, b, t);
  }

  lemma NoteOther(c: Config, next: map<Node, Option<Node>>, b: Book, t: nat, th: Thread)
    requires Books(c.value, b) && Fits(c, next, b, t, th)
    requires !Grows(th.pc) && !th.pc.TLockFirst? && !th.pc.SLockFirst?
    ensures Books(c.value, Note(c, b, t, th))
  {
    hide Shape, Issued, Ordered, Serial, Views, AllFiled, Balanced;
    match th.pc {
      case TUnlockFirst | TAdvance | SShift =>
        ShrinkBooks(c.value, b, t);
      case TCompare =>
        CompareBooks(c.value, b, t, th.role.kind, Matches(th.role.kind, |c.value(th.a)|, |c.value(th.b)|));
      case TUnlockLast =>
        FileBooks(c.value, b, t, th.role.kind);
      case STest | SWritePrev =>
        RetireBooks(c.value, b, t);
      case _ =>
    }
  }

  lemma NoteBooks(c: Config, s: State, t: nat, pick: nat)
    requires Base(c, s) && Books(c.value, s.book) && AllFit(c, s.mem, s.book) && Enabled(c, s.mem, t, pick)
    ensures Books(c.value, Note(c, s.book, t, s.mem.threads[t]))
  {
    var th := s.mem.threads[t];
    if th.pc.TLockFirst? || th.pc.SLockFirst? {
      EntryIsClear(c, s, t, pick);
      NoteEnter(c, s.mem.next, s.book, t, th);
    } else if Grows(th.pc) {
      GrowthIsClear(c, s, t, pick);
      NoteGrow(c, s.mem.next, s.book, t, th);
    } else {
      NoteOther(c, s.mem.next, s.book, t, th);
    }
  }

  // ----- the thread that takes the step

  // What thread t may rely on about the pointer it is about to read.
  ghost predicate Reads(next: map<Node, Option<Node>>, b: Book, t: nat, th: Thread) {
    match th.pc
    case TReadFirst | SReadA => b.order != [] && NextOf(next, b.order[0]) == Succ(b.order, 0)
    case TReadNext => t in b.tick && NextOf(next, th.a) == Succ(b.order, b.tick[t].lo)
    case SLoop | SReadB => NextOf(next, th.a) == Succ(b.order, th.i + 1)
    case SWritePrev => NextOf(next, th.b) == Succ(b.order, th.i + 2)
    case _ => true
  }

  // The nodes it holds are different ones.
  predicate Apart(b: Book, th: Thread) {
    match th.pc
    case TUnlockFirst => |b.order| >= 2 && b.order[0] != b.order[1]
    case TAdvance => th.a != th.b
    case SShift | STest | SWritePrev | SWriteA | SWriteB =>
      th.prev != th.a && th.a != th.b && th.b != th.prev
    case _ => true
  }

  predicate AtHead(pc: PC) { pc.TLockFirst? || pc.TReadFirst? || pc.TLockA? || pc.TUnlockFirst? || pc.TIter? }

  predicate Stepping(pc: PC) { pc.TReadNext? || pc.TLockB? || pc.TUnlockLast? }

  predicate Comparing(pc: PC) { pc.TCompare? || pc.TPair? || pc.TAdvance? }

  predicate Walking(pc: PC) { Stepping(pc) || Comparing(pc) }

  predicate Starting(pc: PC) { pc.SPick? || pc.SLockFirst? || pc.SReadA? || pc.SLockA? }

  predicate Looping(pc: PC) { pc.SLoop? || pc.SReadB? }

  predicate Advancing(pc: PC) { pc.SLockNext? || pc.SShift? || pc.SLockB? }

  predicate Seeking(pc: PC) { Looping(pc) || Advancing(pc) }

  predicate Testing(pc: PC) { pc.STest? || pc.SWritePrev? }

  predicate Writing(pc: PC) { pc.SWriteA? || pc.SWriteB? }

  predicate Leaving(pc: PC) { pc.SCount? || pc.SUnlockB? || pc.SUnlockA? || pc.SUnlockPrev? }

  // The branches for an empty list, and those of a swapper that runs out of list, are never taken.
  lemma ProgramPoints(c: Config, next: map<Node, Option<Node>>, b: Book, t: nat, th: Thread)
    requires Fits(c, next, b, t, th)
    ensures th.role.Traverser? ==> AtHead(th.pc) || Walking(th.pc)
    ensures th.role.Swapper? ==> Starting(th.pc) || Seeking(th.pc) || Testing(th.pc) || Writing(th.pc) || Leaving(th.pc)
  {
  }

  lemma OwnWalkHead(c: Config, next: map<Node, Option<Node>>, b: Book, t: nat, th: Thread, pick: nat)
    requires Fits(c, next, b, t, th) && th.role.Traverser?
    requires Reads(next, b, t, th) && Apart(b, th)
    requires 2 <= |b.order| && b.order[0] == c.first
    requires AtHead(th.pc)
    ensures Fits(c, Write(next, th), Note(c, b, t, th), t, Local(c, next, th, pick))
  {
  }

  lemma OwnWalkStep(c: Config, next: map<Node, Option<Node>>, b: Book, t: nat, th: Thread, pick: nat)
    requires Fits(c, next, b, t, th) && th.role.Traverser?
    requires Reads(next, b, t, th)
    requires Stepping(th.pc)
    ensures Fits(c, Write(next, th), Note(c, b, t, th), t, Local(c, next, th, pick))
  {
    if t in b.tick {
      var seen := b.tick[t].seen;
      assert (seen + [th.b])[..|seen|] == seen;
    }
  }

  lemma OwnWalkCompare(c: Config, next: map<Node, Option<Node>>, b: Book, t: nat, th: Thread, pick: nat)
    requires Fits(c, next, b, t, th) && th.role.Traverser?
    requires Apart(b, th)
    requires Comparing(th.pc)
    ensures Fits(c, Write(next, th), Note(c, b, t, th), t, Local(c, next, th, pick))
  {
  }

  lemma OwnSwapStart(c: Config, next: map<Node, Option<Node>>, b: Book, t: nat, th: Thread, pick: nat)
    requires Fits(c, next, b, t, th) && th.role.Swapper?
    requires Reads(next, b, t, th)
    requires t in b.tick ==> Bounded(b.tick[t], |b.order|)
    requires |b.order| == c.count + 1 && b.order[0] == c.first
    requires th.pc.SPick? && c.count >= 2 ==> pick < c.count - 1
    requires Starting(th.pc)
    ensures Fits(c, Write(next, th), Note(c, b, t, th), t, Local(c, next, th, pick))
  {
  }

  lemma OwnSwapLoop(c: Config, next: map<Node, Option<Node>>, b: Book, t: nat, th: Thread, pick: nat)
    requires Fits(c, next, b, t, th) && th.role.Swapper?
    requires Reads(next, b, t, th)
    requires t in b.tick ==> Bounded(b.tick[t], |b.order|)
    requires Looping(th.pc)
    ensures Fits(c, Write(next, th), Note(c, b, t, th), t, Local(c, next, th, pick))
  {
  }

  lemma OwnSwapAdvance(c: Config, next: map<Node, Option<Node>>, b: Book, t: nat, th: Thread, pick: nat)
    requires Fits(c, next, b, t, th) && th.role.Swapper?
    requires Apart(b, th)
    requires Advancing(th.pc)
    ensures Fits(c, Write(next, th), Note(c, b, t, th), t, Local(c, next, th, pick))
  {
  }

  lemma OwnSwapTest(c: Config, next: map<Node, Option<Node>>, b: Book, t: nat, th: Thread, pick: nat)
    requires Fits(c, next, b, t, th) && th.role.Swapper?
    requires Reads(next, b, t, th) && Apart(b, th)
    requires Testing(th.pc)
    ensures Fits(c, Write(next, th), Note(c, b, t, th), t, Local(c, next, th, pick))
  {
  }

  lemma OwnSwapWrite(c: Config, next: map<Node, Option<Node>>, b: Book, t: nat, th: Thread, pick: nat)
    requires Fits(c, next, b, t, th) && th.role.Swapper?
    requires Apart(b, th)
    requires Writing(th.pc)
    ensures Fits(c, Write(next, th), Note(c, b, t, th), t, Local(c, next, th, pick))
  {
  }

  lemma OwnSwapLeave(c: Config, next: map<Node, Option<Node>>, b: Book, t: nat, th: Thread, pick: nat)
    requires Fits(c, next, b, t, th) && th.role.Swapper?
    requires Leaving(th.pc)
    ensures Fits(c, Write(next, th), Note(c, b, t, th), t, Local(c, next, th, pick))
  {
  }

  predicate Reading(pc: PC) {
    pc.TReadFirst? || pc.SReadA? || pc.TReadNext? || pc.SLoop? || pc.SReadB? || pc.SWritePrev?
  }

  // The position of the node whose pointer is about to be read.
  lemma ReadPosition(c: Config, next: map<Node, Option<Node>>, b: Book, t: nat, th: Thread) returns (p: nat)
    requires Fits(c, next, b, t, th) && Reading(th.pc)
    ensures p < |b.order| && b.order[p] in th.held && !Stale(th, b.order[p])
    ensures NextOf(next, b.order[p]) == Succ(b.order, p) ==> Reads(next, b, t, th)
  {
    hide NextOf, Succ, Compared;
    p := if th.pc.TReadFirst? || th.pc.SReadA? then 0
         else if th.pc.TReadNext? then b.tick[t].lo
         else if th.pc.SWritePrev? then th.i + 2
         else th.i + 1;
  }

  lemma KnowsPointer(c: Config, s: State, t: nat)
    requires AllFit(c, s.mem, s.book) && Exclusive(c, s.mem.threads) && Linked(s.mem, s.book)
    requires t < |s.mem.threads|
    ensures Reads(s.mem.next, s.book, t, s.mem.threads[t])
  {
    var th := s.mem.threads[t];
    if Reading(th.pc) {
      hide Fits, Exclusive, Linked, Stale, Reads;
      var p := ReadPosition(c, s.mem.next, s.book, t, th);
      ReadsOrder(c, s, t, p);
    }
  }

  lemma KnowsApart(c: Config, next: map<Node, Option<Node>>, b: Book, t: nat, th: Thread)
    requires Fits(c, next, b, t, th) && Distinct(b.order) && 2 <= |b.order|
    ensures Apart(b, th)
  {
  }

  lemma OwnFits(c: Config, next: map<Node, Option<Node>>, b: Book, t: nat, th: Thread, pick: nat)
    requires Fits(c, next, b, t, th) && Reads(next, b, t, th) && Apart(b, th)
    requires t in b.tick ==> Bounded(b.tick[t], |b.order|)
    requires |b.order| == c.count + 1 >= 2 && b.order[0] == c.first
    requires th.pc.SPick? && c.count >= 2 ==> pick < c.count - 1
    ensures Fits(c, Write(next, th), Note(c, b, t, th), t, Local(c, next, th, pick))
  {
    ProgramPoints(c, next, b, t, th);
    hide Fits, Reads, Apart, Bounded, Note, Local, Write;
    if th.role.Traverser? {
      if AtHead(th.pc) {
        OwnWalkHead(c, next, b, t, th, pick);
      } else if Stepping(th.pc) {
        OwnWalkStep(c, next, b, t, th, pick);
      } else {
        OwnWalkCompare(c, next, b, t, th, pick);
      }
    } else if Starting(th.pc) {
      OwnSwapStart(c, next, b, t, th, pick);
    } else if Looping(th.pc) {
      OwnSwapLoop(c, next, b, t, th, pick);
    } else if Advancing(th.pc) {
      OwnSwapAdvance(c, next, b, t, th, pick);
    } else if Testing(th.pc) {
      OwnSwapTest(c, next, b, t, th, pick);
    } else if Writing(th.pc) {
      OwnSwapWrite(c, next, b, t, th, pick);
    } else {
      OwnSwapLeave(c, next, b, t, th, pick);
    }
  }

  // A load changes nothing but what was loaded.
  lemma LoadKeeps(ctr: Counters, th: Thread, after: Thread)
    ensures var th' := Load(ctr, th, after);
            && th'.pc == after.pc && th'.role == after.role && th'.held == after.held
            && (forall x :: Stale(th', x) <==> Stale(after, x))
            && (forall counter, kind :: Uncounted(th', counter, kind) <==> Uncounted(after, counter, kind))
            && (StageOf(th.pc) != Some(Have) ==> th' == after)
  {
  }

  lemma LoadFits(c: Config, next: map<Node, Option<Node>>, b: Book, t: nat, ctr: Counters, th: Thread, after: Thread)
    requires Fits(c, next, b, t, after)
    ensures Fits(c, next, b, t, Load(ctr, th, after))
  {
  }

  // ----- the other threads

  // Nothing that a thread relies on has changed.
  ghost predicate Undisturbed(next: map<Node, Option<Node>>, b: Book, next': map<Node, Option<Node>>, b': Book,
                              t: nat, th: Thread)
  {
    && |b'.order| == |b.order| > 0
    && b'.order[0] == b.order[0]
    && (t in b'.tick <==> t in b.tick)
    && (t in b.tick ==> b'.tick[t] == b.tick[t])
    && (forall p :: 0 <= p < |b.order| && b.order[p] in th.held ==>
          b'.order[p] == b.order[p] && (p + 1 < |b.order| ==> b'.order[p + 1] == b.order[p + 1]))
    && (forall x :: x in th.held ==> NextOf(next', x) == NextOf(next, x))
  }

  lemma StillWalks(c: Config, next: map<Node, Option<Node>>, b: Book, next': map<Node, Option<Node>>, b': Book,
                   t: nat, th: Thread)
    requires Fits(c, next, b, t, th) && th.role.Traverser?
    requires Undisturbed(next, b, next', b', t, th)
    ensures Fits(c, next', b', t, th)
  {
  }

  lemma StillSeeks(c: Config, next: map<Node, Option<Node>>, b: Book, next': map<Node, Option<Node>>, b': Book,
                   t: nat, th: Thread)
    requires Fits(c, next, b, t, th) && th.role.Swapper?
    requires Starting(th.pc) || Seeking(th.pc) || Testing(th.pc)
    requires Undisturbed(next, b, next', b', t, th)
    ensures Fits(c, next', b', t, th)
  {
  }

  lemma StillLeaves(c: Config, next: map<Node, Option<Node>>, b: Book, next': map<Node, Option<Node>>, b': Book,
                    t: nat, th: Thread)
    requires Fits(c, next, b, t, th) && th.role.Swapper?
    requires Writing(th.pc) || Leaving(th.pc)
    requires Undisturbed(next, b, next', b', t, th)
    ensures Fits(c, next', b', t, th)
  {
  }

  lemma StillFits(c: Config, next: map<Node, Option<Node>>, b: Book, next': map<Node, Option<Node>>, b': Book,
                  t: nat, th: Thread)
    requires Fits(c, next, b, t, th)
    requires Undisturbed(next, b, next', b', t, th)
    ensures Fits(c, next', b', t, th)
  {
    ProgramPoints(c, next, b, t, th);
    hide Fits, Undisturbed;
    if th.role.Traverser? {
      StillWalks(c, next, b, next', b', t, th);
    } else if Writing(th.pc) || Leaving(th.pc) {
      StillLeaves(c, next, b, next', b', t, th);
    } else {
      StillSeeks(c, next, b, next', b', t, th);
    }
  }

  // What a step does to the book apart from the ticket of its own thread.
  lemma NoteElsewhere(c: Config, next: map<Node, Option<Node>>, b: Book, t: nat, th: Thread)
    requires Fits(c, next, b, t, th)
    ensures var b' := Note(c, b, t, th);
            && (th.pc.SWritePrev? ==> th.i + 2 < |b.order| && b'.order == Exchange(b.order, th.i + 1))
            && (!th.pc.SWritePrev? ==> b'.order == b.order)
            && (forall u :: u != t ==> (u in b'.tick <==> u in b.tick) && (u in b.tick ==> b'.tick[u] == b.tick[u]))
  {
  }

  lemma NoteOnAim(c: Config, s: State, t: nat, pick: nat)
    requires OnAim(s.picks, s.mem.threads) && t < |s.mem.threads|
    ensures Step(c, s, t, pick).book == Note(c, s.book, t, s.mem.threads[t])
  {
    hide Note;
  }

  // What thread t changes in memory, and in the order, it changes at nodes that it holds exclusively.
  lemma DisturbsOwn(c: Config, next: map<Node, Option<Node>>, b: Book, t: nat, th: Thread, u: nat, other: Thread)
    requires Fits(c, next, b, t, th) && u != t
    requires b.order != []
    requires th.role.Swapper? ==> forall x :: x in th.held ==> x !in other.held
    ensures Undisturbed(next, b, Write(next, th), Note(c, b, t, th), u, other)
  {
    NoteElsewhere(c, next, b, t, th);
    hide Note;
    if th.pc.SWritePrev? {
      assert th.prev !in other.held && th.a !in other.held && th.b !in other.held;
    }
  }

  lemma StepFits(c: Config, s: State, t: nat, pick: nat)
    requires Base(c, s) && AllFit(c, s.mem, s.book) && Exclusive(c, s.mem.threads) && Linked(s.mem, s.book)
    requires AllBounded(s.book.tick, |s.book.order|)
    requires OnAim(s.picks, s.mem.threads)
    requires Enabled(c, s.mem, t, pick)
    ensures AllFit(c, Step(c, s, t, pick).mem, Step(c, s, t, pick).book)
  {
    NoteOnAim(c, s, t, pick);
    var s' := Step(c, s, t, pick);
    var th, b := s.mem.threads[t], s.book;
    assert Fits(c, s.mem.next, b, t, th);
    KnowsPointer(c, s, t);
    KnowsApart(c, s.mem.next, b, t, th);
    OwnFits(c, s.mem.next, b, t, th, pick);
    LoadFits(c, s'.mem.next, s'.book, t, s.mem.ctr, th, Local(c, s.mem.next, th, pick));
    hide AllBounded, Fits, Reads, Apart, Linked, Local, Load, Write, Note, Distinct;
    forall u | 0 <= u < |s.mem.threads| ensures Fits(c, s'.mem.next, s'.book, u, s'.mem.threads[u]) {
      if u != t {
        assert Fits(c, s.mem.next, b, u, s.mem.threads[u]);
        DisturbsOwn(c, s.mem.next, b, t, th, u, s.mem.threads[u]);
        StillFits(c, s.mem.next, b, s'.mem.next, s'.book, u, s.mem.threads[u]);
      }
    }
  }

  // ----- locks, pointers and counters

  // A step takes the node the thread wanted, or gives some back.
  lemma HeldAfter(c: Config, next: map<Node, Option<Node>>, b: Book, t: nat, th: Thread, pick: nat)
    requires Fits(c, next, b, t, th)
    ensures var th' := Local(c, next, th, pick);
            && th'.role == th.role
            && (forall x :: x in th'.held ==> x in th.held || Wanted(c, th) == Some(x))
  {
  }

  lemma StepExclusive(c: Config, s: State, t: nat, pick: nat)
    requires AllFit(c, s.mem, s.book) && Exclusive(c, s.mem.threads)
    requires Enabled(c, s.mem, t, pick)
    ensures Exclusive(c, Step(c, s, t, pick).mem.threads)
  {
    var threads := s.mem.threads;
    var threads' := Step(c, s, t, pick).mem.threads;
    assert Fits(c, s.mem.next, s.book, t, threads[t]);
    HeldAfter(c, s.mem.next, s.book, t, threads[t], pick);
    LoadKeeps(s.mem.ctr, threads[t], Local(c, s.mem.next, threads[t], pick));
    hide AllFit, Fits, Local, Load;
    forall u, v, x | 0 <= u < |threads| && 0 <= v < |threads| && u != v
                     && x in threads'[u].held && x in threads'[v].held
      ensures Compatible(c, threads'[u].role, threads'[v].role)
    {
      if x in threads[u].held && x in threads[v].held {
      } else if u == t {
        assert x in threads[v].held && Wanted(c, threads[t]) == Some(x);
      } else {
        assert v == t && x in threads[u].held && Wanted(c, threads[t]) == Some(x);
      }
    }
  }

  // A position whose pointer is right, or about to be rewritten by th.
  ghost predicate Link(next: map<Node, Option<Node>>, order: seq<Node>, th: Thread, p: nat) {
    && p < |order|
    && (NextOf(next, order[p]) == Succ(order, p) || Stale(th, order[p]))
  }

  lemma LinkSwap(c: Config, next: map<Node, Option<Node>>, b: Book, t: nat, th: Thread, pick: nat, p: nat)
    requires Fits(c, next, b, t, th) && Reads(next, b, t, th) && Apart(b, th)
    requires Link(next, b.order, th, p) && Distinct(b.order)
    requires th.pc.SWritePrev?
    ensures Link(Write(next, th), Note(c, b, t, th).order, Local(c, next, th, pick), p)
  {
    NoteElsewhere(c, next, b, t, th);
    hide Note;
    var i := th.i;
    assert p != i ==> b.order[p] != th.prev;
  }

  lemma LinkOther(c: Config, next: map<Node, Option<Node>>, b: Book, t: nat, th: Thread, pick: nat, p: nat)
    requires Fits(c, next, b, t, th) && Apart(b, th)
    requires Link(next, b.order, th, p) && Distinct(b.order)
    requires !th.pc.SWritePrev?
    ensures Link(Write(next, th), Note(c, b, t, th).order, Local(c, next, th, pick), p)
  {
    NoteElsewhere(c, next, b, t, th);
    hide Note;
    if Writing(th.pc) {
      assert p == th.i + 2 || b.order[p] != th.a;
      assert p == th.i + 1 || b.order[p] != th.b;
    }
  }

  // A node about to be rewritten by another thread stays so, at the same position.
  lemma LinkElsewhere(c: Config, s: State, t: nat, pick: nat, u: nat, p: nat)
    requires Base(c, s) && AllFit(c, s.mem, s.book) && Exclusive(c, s.mem.threads)
    requires OnAim(s.picks, s.mem.threads)
    requires Enabled(c, s.mem, t, pick)
    requires u < |s.mem.threads| && u != t && p < |s.book.order| && Stale(s.mem.threads[u], s.book.order[p])
    ensures var s' := Step(c, s, t, pick);
            && p < |s'.book.order|
            && s'.mem.threads[u] == s.mem.threads[u]
            && s'.book.order[p] == s.book.order[p]
  {
    NoteOnAim(c, s, t, pick);
    assert Fits(c, s.mem.next, s.book, t, s.mem.threads[t]);
    assert Fits(c, s.mem.next, s.book, u, s.mem.threads[u]);
    StaleIsHeld(c, s.mem.next, s.book, u, s.mem.threads[u], s.book.order[p]);
    DisturbsOwn(c, s.mem.next, s.book, t, s.mem.threads[t], u, s.mem.threads[u]);
  }

  lemma StepLinked(c: Config, s: State, t: nat, pick: nat)
    requires Base(c, s) && AllFit(c, s.mem, s.book) && Exclusive(c, s.mem.threads) && Linked(s.mem, s.book)
    requires OnAim(s.picks, s.mem.threads)
    requires Enabled(c, s.mem, t, pick)
    ensures Linked(Step(c, s, t, pick).mem, Step(c, s, t, pick).book)
  {
    NoteOnAim(c, s, t, pick);
    var s' := Step(c, s, t, pick);
    var th, b := s.mem.threads[t], s.book;
    assert Fits(c, s.mem.next, b, t, th);
    KnowsPointer(c, s, t);
    KnowsApart(c, s.mem.next, b, t, th);
    NoteElsewhere(c, s.mem.next, b, t, th);
    LoadKeeps(s.mem.ctr, th, Local(c, s.mem.next, th, pick));
    hide Fits, AllFit, Exclusive, Reads, Apart, Note, Local, Load, Write, Stale;
    forall p | 0 <= p < |s'.book.order|
      ensures NextOf(s'.mem.next, s'.book.order[p]) == Succ(s'.book.order, p)
              || exists u :: 0 <= u < |s'.mem.threads| && Stale(s'.mem.threads[u], s'.book.order[p])
    {
      if u :| 0 <= u < |s.mem.threads| && u != t && Stale(s.mem.threads[u], b.order[p]) {
        LinkElsewhere(c, s, t, pick, u, p);
        assert Stale(s'.mem.threads[u], s'.book.order[p]);
      } else {
        if th.pc.SWritePrev? {
          LinkSwap(c, s.mem.next, b, t, th, pick, p);
        } else {
          LinkOther(c, s.mem.next, b, t, th, pick, p);
        }
        assert s'.mem.threads[t] == Load(s.mem.ctr, th, Local(c, s.mem.next, th, pick));
      }
    }
  }

  lemma StageAfter(c: Config, next: map<Node, Option<Node>>, b: Book, t: nat, th: Thread, pick: nat)
    requires Fits(c, next, b, t, th)
    ensures match StageOf(th.pc)
            case Some(Want) => StageOf(Local(c, next, th, pick).pc) == Some(Have)
            case Some(Have) => StageOf(Local(c, next, th, pick).pc) == Some(Loaded)
            case Some(Loaded) => StageOf(Local(c, next, th, pick).pc) == Some(Done)
            case _ => StageOf(Local(c, next, th, pick).pc) in {None, Some(Want)}
  {
  }

  lemma StepOnAim(c: Config, s: State, t: nat, pick: nat)
    requires AllFit(c, s.mem, s.book) && OnAim(s.picks, s.mem.threads)
    requires Enabled(c, s.mem, t, pick)
    ensures OnAim(Step(c, s, t, pick).picks, Step(c, s, t, pick).mem.threads)
  {
    var th := s.mem.threads[t];
    assert Fits(c, s.mem.next, s.book, t, th);
    AimAfter(c, s.mem.next, s.book, t, th, pick);
    hide Fits, AllFit, Local, Note, Enabled;
  }

  lemma AimAfter(c: Config, next: map<Node, Option<Node>>, b: Book, t: nat, th: Thread, pick: nat)
    requires Fits(c, next, b, t, th)
    ensures var th' := Local(c, next, th, pick);
            th'.pc.SLockFirst? ==> th.pc.SPick? && c.count >= 2 && th'.index == pick
  {
  }

  lemma StepGuarded(c: Config, s: State, t: nat, pick: nat)
    requires AllFit(c, s.mem, s.book) && Guarded(s.mem)
    requires Enabled(c, s.mem, t, pick)
    ensures Guarded(Step(c, s, t, pick).mem)
  {
    assert Fits(c, s.mem.next, s.book, t, s.mem.threads[t]);
    StageAfter(c, s.mem.next, s.book, t, s.mem.threads[t], pick);
    LoadKeeps(s.mem.ctr, s.mem.threads[t], Local(c, s.mem.next, s.mem.threads[t], pick));
    hide Fits, AllFit, Local, Load;
  }

  // The counters change only when thread th stores, and then by one, in the counter it is there for.
  lemma StoreAdds(ctr: Counters, th: Thread)
    requires StageOf(th.pc) == Some(Loaded) ==> th.tmp == Target(ctr, th)
    ensures StageOf(th.pc) != Some(Loaded) ==> Store(ctr, th) == ctr
    ensures forall counter, kind ::
              CountOf(Store(ctr, th), counter, kind) == CountOf(ctr, counter, kind)
                                                        + One(Stores(th, counter, kind))
  {
  }

  predicate Stores(th: Thread, counter: Counter, kind: Kind) {
    && th.role.kind == kind
    && match th.pc
       case TPair(stage) => counter == Pairs && stage == Loaded
       case TIter(stage) => counter == Passes && stage == Loaded
       case SCount(stage) => counter == Swaps && stage == Loaded
       case _ => false
  }

  // While one thread is between its load and its store, counters_lock keeps all others from storing.
  lemma StepUnraced(c: Config, s: State, t: nat, pick: nat)
    requires AllFit(c, s.mem, s.book) && Guarded(s.mem) && Unraced(s.mem)
    requires Enabled(c, s.mem, t, pick)
    ensures Unraced(Step(c, s, t, pick).mem)
  {
    var th, m' := s.mem.threads[t], Step(c, s, t, pick).mem;
    assert Fits(c, s.mem.next, s.book, t, th);
    StageAfter(c, s.mem.next, s.book, t, th, pick);
    StoreAdds(s.mem.ctr, th);
    forall u | 0 <= u < |m'.threads| && StageOf(m'.threads[u].pc) == Some(Loaded)
      ensures m'.threads[u].tmp == Target(m'.ctr, m'.threads[u])
    {
      if u == t {
        LoadedNow(c, s.mem.next, s.mem.ctr, th, pick);
      } else {
        assert s.mem.guard == Some(u);
      }
    }
  }

  lemma LoadedNow(c: Config, next: map<Node, Option<Node>>, ctr: Counters, th: Thread, pick: nat)
    requires StageOf(th.pc) == Some(Have)
    ensures var th' := Load(ctr, th, Local(c, next, th, pick));
            th'.tmp == Target(ctr, th')
  {
  }

  lemma InFlightUpdate(threads: seq<Thread>, t: nat, th: Thread, counter: Counter, kind: Kind)
    requires t < |threads|
    ensures InFlight(threads[t := th], counter, kind) + One(Uncounted(threads[t], counter, kind))
            == InFlight(threads, counter, kind) + One(Uncounted(th, counter, kind))
  {
    CountUpdate(threads, t, th, Due(counter, kind));
  }

  // Something is recorded when it becomes uncounted, and stops being uncounted when it is counted.
  ghost predicate CountsOwn(c: Config, next: map<Node, Option<Node>>, b: Book, t: nat, th: Thread, pick: nat,
                            counter: Counter, kind: Kind)
  {
    Recorded(Note(c, b, t, th), counter, kind) - Recorded(b, counter, kind)
    == One(Stores(th, counter, kind))
       + One(Uncounted(Local(c, next, th, pick), counter, kind))
       - One(Uncounted(th, counter, kind))
  }

  lemma CountTest(c: Config, next: map<Node, Option<Node>>, b: Book, t: nat, th: Thread, pick: nat,
                  counter: Counter, kind: Kind)
    requires Fits(c, next, b, t, th) && th.role.Swapper? && Testing(th.pc)
    ensures CountsOwn(c, next, b, t, th, pick, counter, kind)
  {
  }

  lemma CountSeeking(c: Config, next: map<Node, Option<Node>>, b: Book, t: nat, th: Thread, pick: nat,
                     counter: Counter, kind: Kind)
    requires th.role.Swapper?
    requires Starting(th.pc) || Seeking(th.pc)
    ensures CountsOwn(c, next, b, t, th, pick, counter, kind)
  {
    hide Retire;
  }

  lemma CountLeaving(c: Config, next: map<Node, Option<Node>>, b: Book, t: nat, th: Thread, pick: nat,
                     counter: Counter, kind: Kind)
    requires th.role.Swapper?
    requires Writing(th.pc) || Leaving(th.pc)
    ensures CountsOwn(c, next, b, t, th, pick, counter, kind)
  {
    hide Retire;
  }

  lemma CountAtHead(c: Config, next: map<Node, Option<Node>>, b: Book, t: nat, th: Thread, pick: nat,
                    counter: Counter, kind: Kind)
    requires th.role.Traverser? && AtHead(th.pc)
    ensures CountsOwn(c, next, b, t, th, pick, counter, kind)
  {
  }

  lemma CountWalking(c: Config, next: map<Node, Option<Node>>, b: Book, t: nat, th: Thread, pick: nat,
                     counter: Counter, kind: Kind)
    requires th.role.Traverser? && Walking(th.pc) && !th.pc.TUnlockLast? && t in b.tick
    ensures CountsOwn(c, next, b, t, th, pick, counter, kind)
  {
    hide Matches, Retire;
  }

  lemma CountFiled(c: Config, next: map<Node, Option<Node>>, b: Book, t: nat, th: Thread, pick: nat,
                   counter: Counter, kind: Kind)
    requires th.role.Traverser? && th.pc.TUnlockLast? && t in b.tick && b.tick[t].op.Pass?
    ensures CountsOwn(c, next, b, t, th, pick, counter, kind)
  {
    assert Note(c, b, t, th).visits[..|b.visits|] == b.visits;
  }

  lemma StepCounted(c: Config, s: State, t: nat, pick: nat)
    requires AllFit(c, s.mem, s.book) && Unraced(s.mem) && Counted(s.mem, s.book)
    requires OnAim(s.picks, s.mem.threads)
    requires Enabled(c, s.mem, t, pick)
    ensures Counted(Step(c, s, t, pick).mem, Step(c, s, t, pick).book)
  {
    NoteOnAim(c, s, t, pick);
    var th := s.mem.threads[t];
    var s' := Step(c, s, t, pick);
    assert Fits(c, s.mem.next, s.book, t, th);
    ProgramPoints(c, s.mem.next, s.book, t, th);
    assert th.role.Traverser? && Walking(th.pc) ==> t in s.book.tick && s.book.tick[t].op.Pass?;
    StoreAdds(s.mem.ctr, th);
    LoadKeeps(s.mem.ctr, th, Local(c, s.mem.next, th, pick));
    hide Fits, AllFit, Local, Load, Note, Store, Uncounted, Stores, Recorded, CountOf, InFlight;
    forall counter, kind
      ensures Recorded(s'.book, counter, kind)
              == CountOf(s'.mem.ctr, counter, kind) + InFlight(s'.mem.threads, counter, kind)
    {
      if AtHead(th.pc) {
        CountAtHead(c, s.mem.next, s.book, t, th, pick, counter, kind);
      } else if th.pc.TUnlockLast? {
        CountFiled(c, s.mem.next, s.book, t, th, pick, counter, kind);
      } else if th.role.Traverser? {
        CountWalking(c, s.mem.next, s.book, t, th, pick, counter, kind);
      } else if Testing(th.pc) {
        CountTest(c, s.mem.next, s.book, t, th, pick, counter, kind);
      } else if Writing(th.pc) || Leaving(th.pc) {
        CountLeaving(c, s.mem.next, s.book, t, th, pick, counter, kind);
      } else {
        CountSeeking(c, s.mem.next, s.book, t, th, pick, counter, kind);
      }
      InFlightUpdate(s.mem.threads, t, s'.mem.threads[t], counter, kind);
    }
  }

  lemma NoteScored(c: Config, next: map<Node, Option<Node>>, b: Book, t: nat, th: Thread)
    requires Fits(c, next, b, t, th) && Scored(c.value, b)
    ensures Scored(c.value, Note(c, b, t, th))
  {
  }

  lemma StepBase(c: Config, s: State, t: nat, pick: nat)
    requires Base(c, s) && AllFit(c, s.mem, s.book) && Enabled(c, s.mem, t, pick)
    requires OnAim(s.picks, s.mem.threads)
    requires Distinct(Note(c, s.book, t, s.mem.threads[t]).order)
    ensures Base(c, Step(c, s, t, pick))
  {
    NoteOnAim(c, s, t, pick);
    var th := s.mem.threads[t];
    assert Fits(c, s.mem.next, s.book, t, th);
    NoteElsewhere(c, s.mem.next, s.book, t, th);
    hide Fits, AllFit, Note, Enabled;
  }

  lemma StepInv(c: Config, s: State, t: nat, pick: nat)
    requires Inv(c, s) && Enabled(c, s.mem, t, pick)
    ensures Inv(c, Step(c, s, t, pick))
  {
    var th := s.mem.threads[t];
    assert Fits(c, s.mem.next, s.book, t, th);
    NoteOnAim(c, s, t, pick);
    hide Base, OnAim, AllFit, Fits, Exclusive, Linked, Guarded, Unraced, Counted, Scored, Enabled, Advance, Note,
         Aimed, Picked, AllBounded,
         Issued, Ordered, Serial, Views, AllFiled, Balanced;
    NoteBooks(c, s, t, pick);
    NoteScored(c, s.mem.next, s.book, t, th);
    StepBase(c, s, t, pick);
    StepFits(c, s, t, pick);
    StepExclusive(c, s, t, pick);
    StepLinked(c, s, t, pick);
    StepOnAim(c, s, t, pick);
    StepGuarded(c, s, t, pick);
    StepUnraced(c, s, t, pick);
    StepCounted(c, s, t, pick);
  }
}
