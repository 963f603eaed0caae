/**
 The list of program 2.3 shared by any number of traversers and swappers, one lock per node
 (`2.3/mutex/threads.c`, and `2.3/rw/threads.c` when `shared` holds).  Every lock, unlock, read
 or write of a `next` pointer is one step; a step is taken by one thread at a time.
 */
module LockList {
  import opened Basics
  import opened SerialList
  import opened Tickets

  // `shared`: a traverser locks a node for reading, so that other traversers may hold it too.
  datatype Config = Config(first: Node, value: Values<Node>, count: nat, shared: bool)

  datatype Role = Traverser(kind: Kind) | Swapper(kind: Kind)

  // Where a thread is in inc_long: about to lock counters_lock, to load the counter, to store what it
  // loaded plus one, to unlock.
  datatype Stage = Want | Have | Loaded | Done

  datatype PC =
    // traverse_list
    | TLockFirst | TReadFirst | TUnlockEmpty | TLockA | TUnlockFirst
    | TReadNext | TLockB | TCompare | TPair(stage: Stage) | TAdvance
    | TUnlockLast | TIter(stage: Stage)
    // do_random_swap
    | SPick | SLockFirst | SReadA | SUnlockEmpty | SLockA
    | SLoop | SLockNext | SShift | SReadB | SGiveUpA | SGiveUpPrev | SLockB
    | STest | SWritePrev | SWriteA | SWriteB | SCount(stage: Stage)
    | SUnlockB | SUnlockA | SUnlockPrev

  // The local variables of one thread, what it loaded in inc_long, and the nodes whose locks it holds.
  datatype Thread = Thread(role: Role, pc: PC, prev: Node, a: Node, b: Node, i: nat, index: nat, tmp: nat,
                           held: set<Node>)

  datatype Counters = Counters(iterations: Trio, pairs: Trio, swaps: Trio)

  // `guard` is the thread that holds counters_lock.
  datatype Mem = Mem(next: map<Node, Option<Node>>, threads: seq<Thread>, guard: Option<nat>, ctr: Counters)

  function NextOf(next: map<Node, Option<Node>>, x: Node): Option<Node> {
    if x in next then next[x] else None
  }

  // The node that a thread is about to lock.
  function Wanted(c: Config, th: Thread): Option<Node> {
    match th.pc
    case TLockFirst => Some(c.first)
    case SLockFirst => Some(th.prev)
    case TLockA | SLockA => Some(th.a)
    case TLockB | SLockNext | SLockB => Some(th.b)
    case _ => None
  }

  predicate WantsGuard(th: Thread) {
    match th.pc
    case TPair(stage) => stage == Want
    case TIter(stage) => stage == Want
    case SCount(stage) => stage == Want
    case _ => false
  }

  predicate Compatible(c: Config, x: Role, y: Role) {
    c.shared && x.Traverser? && y.Traverser?
  }

  // Node x can be locked by a thread of this role.
  ghost predicate Available(c: Config, threads: seq<Thread>, role: Role, x: Node) {
    forall u :: 0 <= u < |threads| && x in threads[u].held ==> Compatible(c, threads[u].role, role)
  }

  // `pick` is what rand_r % (count - 1) gives; it matters at SPick only.
  ghost predicate Enabled(c: Config, m: Mem, t: nat, pick: nat) {
    && t < |m.threads|
    && (Wanted(c, m.threads[t]).Some? ==>
          Available(c, m.threads, m.threads[t].role, Wanted(c, m.threads[t]).value))
    && (WantsGuard(m.threads[t]) ==> m.guard.None?)
    && (m.threads[t].pc.SPick? && c.count >= 2 ==> pick < c.count - 1)
  }

  // ----- the program

  function Lock(th: Thread, x: Node, pc: PC): Thread { th.(pc := pc, held := th.held + {x}) }

  function Unlock(th: Thread, x: Node, pc: PC): Thread { th.(pc := pc, held := th.held - {x}) }

  // One step of the thread's local state; what it loads in inc_long is added by Load.
  function Local(c: Config, next: map<Node, Option<Node>>, th: Thread, pick: nat): Thread {
    var kind := th.role.kind;
    match th.pc
    case TLockFirst => Lock(th, c.first, TReadFirst)
    case TReadFirst =>
      (match NextOf(next, c.first)
       case None => th.(pc := TUnlockEmpty)
       case Some(a) => th.(pc := TLockA, a := a))
    case TUnlockEmpty => Unlock(th, c.first, TIter(Want))
    case TLockA => Lock(th, th.a, TUnlockFirst)
    case TUnlockFirst => Unlock(th, c.first, TReadNext)
    case TReadNext =>
      (match NextOf(next, th.a)
       case None => th.(pc := TUnlockLast)
       case Some(b) => th.(pc := TLockB, b := b))
    case TLockB => Lock(th, th.b, TCompare)
    case TCompare =>
      th.(pc := if Matches(kind, |c.value(th.a)|, |c.value(th.b)|) then TPair(Want) else TAdvance)
    case TPair(Want) => th.(pc := TPair(Have))
    case TPair(Have) => th.(pc := TPair(Loaded))
    case TPair(Loaded) => th.(pc := TPair(Done))
    case TPair(Done) => th.(pc := TAdvance)
    case TAdvance => Unlock(th, th.a, TReadNext).(a := th.b)
    case TUnlockLast => Unlock(th, th.a, TIter(Want))
    case TIter(Want) => th.(pc := TIter(Have))
    case TIter(Have) => th.(pc := TIter(Loaded))
    case TIter(Loaded) => th.(pc := TIter(Done))
    case TIter(Done) => th.(pc := TLockFirst)
    case SPick =>
      if c.count < 2 then th else th.(pc := SLockFirst, index := pick, prev := c.first)
    case SLockFirst => Lock(th, th.prev, SReadA)
    case SReadA =>
      (match NextOf(next, th.prev)
       case None => th.(pc := SUnlockEmpty)
       case Some(a) => th.(pc := SLockA, a := a))
    case SUnlockEmpty => Unlock(th, th.prev, SPick)
    case SLockA => Lock(th, th.a, SLoop).(i := 0)
    case SLoop =>
      if th.i < th.index then
        (match NextOf(next, th.a)
         case None => th.(pc := SReadB)
         case Some(b) => th.(pc := SLockNext, b := b))
      else th.(pc := SReadB)
    case SLockNext => Lock(th, th.b, SShift)
    case SShift => Unlock(th, th.prev, SLoop).(prev := th.a, a := th.b, i := th.i + 1)
    case SReadB =>
      (match NextOf(next, th.a)
       case None => th.(pc := SGiveUpA)
       case Some(b) => th.(pc := SLockB, b := b))
    case SGiveUpA => Unlock(th, th.a, SGiveUpPrev)
    case SGiveUpPrev => Unlock(th, th.prev, SPick)
    case SLockB => Lock(th, th.b, STest)
    case STest =>
      th.(pc := if NeedSwap(kind, |c.value(th.a)|, |c.value(th.b)|) then SWritePrev else SUnlockB)
    case SWritePrev => th.(pc := SWriteA)
    case SWriteA => th.(pc := SWriteB)
    case SWriteB => th.(pc := SCount(Want))
    case SCount(Want) => th.(pc := SCount(Have))
    case SCount(Have) => th.(pc := SCount(Loaded))
    case SCount(Loaded) => th.(pc := SCount(Done))
    case SCount(Done) => th.(pc := SUnlockB)
    case SUnlockB => Unlock(th, th.b, SUnlockA)
    case SUnlockA => Unlock(th, th.a, SUnlockPrev)
    case SUnlockPrev => Unlock(th, th.prev, SPick)
  }

  // The three pointer writes of a swap.
  function Write(next: map<Node, Option<Node>>, th: Thread): map<Node, Option<Node>> {
    match th.pc
    case SWritePrev => next[th.prev := Some(th.b)]
    case SWriteA => next[th.a := NextOf(next, th.b)]
    case SWriteB => next[th.b := Some(th.a)]
    case _ => next
  }

  function StageOf(pc: PC): Option<Stage> {
    match pc
    case TPair(stage) => Some(stage)
    case TIter(stage) => Some(stage)
    case SCount(stage) => Some(stage)
    case _ => None
  }

  function Guard(guard: Option<nat>, t: nat, pc: PC): Option<nat> {
    match StageOf(pc)
    case Some(Want) => Some(t)
    case Some(Done) => None
    case _ => guard
  }

  // The counter that the thread is in inc_long for.
  function Target(ctr: Counters, th: Thread): nat {
    match th.pc
    case TPair(_) => ctr.pairs.Get(th.role.kind)
    case TIter(_) => ctr.iterations.Get(th.role.kind)
    case SCount(_) => ctr.swaps.Get(th.role.kind)
    case _ => 0
  }

  // The load: th is the thread before the step, after is what Local makes of it.
  function Load(ctr: Counters, th: Thread, after: Thread): Thread {
    if StageOf(th.pc) == Some(Have) then after.(tmp := Target(ctr, th)) else after
  }

  // The store.
  function Store(ctr: Counters, th: Thread): Counters {
    var kind := th.role.kind;
    match th.pc
    case TPair(Loaded) => ctr.(pairs := ctr.pairs.Put(kind, th.tmp + 1))
    case TIter(Loaded) => ctr.(iterations := ctr.iterations.Put(kind, th.tmp + 1))
    case SCount(Loaded) => ctr.(swaps := ctr.swaps.Put(kind, th.tmp + 1))
    case _ => ctr
  }

  // One step of thread t.
  function Advance(c: Config, m: Mem, t: nat, pick: nat): Mem
    requires t < |m.threads|
  {
    var th := m.threads[t];
    Mem(Write(m.next, th), m.threads[t := Load(m.ctr, th, Local(c, m.next, th, pick))],
        Guard(m.guard, t, th.pc), Store(m.ctr, th))
  }

  // ----- its history

  function OpOf(th: Thread): Op {
    match th.role
    case Traverser(_) => Pass
    case Swapper(kind) => Swap(kind, th.index)
  }

  // What the book records about a step of thread t in state th.
  function Note(c: Config, b: Book, t: nat, th: Thread): Book {
    match th.pc
    case TLockFirst | SLockFirst => Enter(b, t, OpOf(th))
    case TLockA | SLockA => Grow(b, t, th.a)
    case TLockB | SLockNext | SLockB => Grow(b, t, th.b)
    case TUnlockFirst | TAdvance | SShift => Shrink(b, t)
    case TCompare => Compare(b, t, th.role.kind, Matches(th.role.kind, |c.value(th.a)|, |c.value(th.b)|))
    case TUnlockLast | TUnlockEmpty => File(c.value, b, t, th.role.kind)
    case STest => if NeedSwap(th.role.kind, |c.value(th.a)|, |c.value(th.b)|) then b else Retire(c.value, b, t)
    case SWritePrev | SUnlockEmpty | SGiveUpPrev => Retire(c.value, b, t)
    case _ => b
  }

  // `picks` is history: the last random index of each swapper.
  datatype State = State(mem: Mem, book: Book, picks: map<nat, nat>)

  function Picked(c: Config, picks: map<nat, nat>, t: nat, th: Thread, pick: nat): map<nat, nat> {
    if th.pc.SPick? && c.count >= 2 then picks[t := pick] else picks
  }

  // A swapper that enters the list is going to exchange the nodes that its last pick stands for, says the history,
  // whatever the thread's own variables are.
  function Aimed(picks: map<nat, nat>, t: nat, th: Thread): Thread {
    if th.pc.SLockFirst? && t in picks then th.(index := picks[t]) else th
  }

  function Step(c: Config, s: State, t: nat, pick: nat): State
    requires t < |s.mem.threads|
  {
    var th := s.mem.threads[t];
    State(Advance(c, s.mem, t, pick), Note(c, s.book, t, Aimed(s.picks, t, th)), Picked(c, s.picks, t, th, pick))
  }

  ghost predicate Moves(c: Config, s: State, s': State) {
    exists t: nat, pick: nat :: Enabled(c, s.mem, t, pick) && s' == Step(c, s, t, pick)
  }

  function Succ(order: seq<Node>, p: nat): Option<Node> {
    if p + 1 < |order| then Some(order[p + 1]) else None
  }

  // Following `next` from the first node of `order` visits `order` and then ends.
  ghost predicate IsChain(next: map<Node, Option<Node>>, order: seq<Node>) {
    forall p :: 0 <= p < |order| ==> NextOf(next, order[p]) == Succ(order, p)
  }

  // What storage_init leaves, and threads that have not started.
  ghost predicate Init(c: Config, s: State) {
    var nodes := s.book.init;
    && c.count >= 1
    && |nodes| == c.count + 1
    && nodes[0] == c.first
    && Distinct(nodes)
    && IsChain(s.mem.next, nodes)
    && s.book == Open(nodes)
    && s.picks == map[]
    && s.mem.guard == None
    && s.mem.ctr == Counters(Trio(0, 0, 0), Trio(0, 0, 0), Trio(0, 0, 0))
    && (forall t :: 0 <= t < |s.mem.threads| ==>
          var th := s.mem.threads[t];
          th.held == {} && th.pc == (if th.role.Traverser? then TLockFirst else SPick))
  }

  ghost predicate IsRun(c: Config, run: seq<State>) {
    && run != []
    && Init(c, run[0])
    && (forall k :: 0 <= k < |run| - 1 ==> Moves(c, run[k], run[k + 1]))
  }
}
