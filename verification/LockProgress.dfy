/**
 What the threads of the list of program 2.3 get done: between operations, any thread can carry out a whole swap or a
 whole pass on its own, with the effect that the sequential program has.
 */
module LockProgress {
  import opened Basics
  import opened Counting
  import opened SerialList
  import opened Tickets
  import opened LockList
  import opened LockCoupling
  import opened LockTheorems

  // ----- runs

  ghost predicate Reaches(c: Config, run: seq<State>, s: State) {
    IsRun(c, run) && run[|run| - 1] == s
  }

  // The second run goes on where the first one ends.
  ghost predicate Continues(c: Config, run: seq<State>, longer: seq<State>, s: State) {
    Reaches(c, longer, s) && run <= longer
  }

  lemma Extend(c: Config, run: seq<State>, s: State, t: nat, pick: nat) returns (longer: seq<State>)
    requires Reaches(c, run, s) && Enabled(c, s.mem, t, pick)
    ensures Continues(c, run, longer, Step(c, s, t, pick))
  {
    var s' := Step(c, s, t, pick);
    longer := run + [s'];
    hide Init, Enabled, Step;
    forall k | 0 <= k < |longer| - 1 ensures Moves(c, longer[k], longer[k + 1]) {
      if k < |run| - 1 {
        assert Moves(c, run[k], run[k + 1]);
      }
    }
  }

  // ----- one thread alone

  predicate AtStart(th: Thread) {
    th.held == {} && th.pc == if th.role.Traverser? then TLockFirst else SPick
  }

  ghost predicate Between(m: Mem) {
    m.guard == None && forall t :: 0 <= t < |m.threads| ==> AtStart(m.threads[t])
  }

  // Only thread t is not at its start, and the others are as they were in m0.
  ghost predicate Alone(m0: Mem, m: Mem, t: nat) {
    && t < |m.threads| == |m0.threads|
    && m.threads[t].role == m0.threads[t].role
    && (m.guard == None || m.guard == Some(t))
    && (forall u :: 0 <= u < |m.threads| && u != t ==> AtStart(m.threads[u]) && m.threads[u] == m0.threads[u])
  }

  lemma AloneCanMove(c: Config, m0: Mem, m: Mem, t: nat, pick: nat)
    requires Alone(m0, m, t) && Guarded(m)
    requires m.threads[t].pc.SPick? && c.count >= 2 ==> pick < c.count - 1
    requires Wanted(c, m.threads[t]).Some? ==> Wanted(c, m.threads[t]).value !in m.threads[t].held
    ensures Enabled(c, m, t, pick)
  {
  }

  lemma WantsNew(c: Config, next: map<Node, Option<Node>>, b: Book, t: nat, th: Thread)
    requires Fits(c, next, b, t, th) && Distinct(b.order) && |b.order| >= 2
    ensures Wanted(c, th).Some? ==> Wanted(c, th).value !in th.held
  {
  }

  // How many steps the thread is away from its start, at most.
  function Left(b: Book, t: nat, th: Thread): int {
    var n := |b.order|;
    var ahead := if t in b.tick then 8 * (n - b.tick[t].lo) else 0;
    var loop := 3 * (th.index - th.i);
    match th.pc
    case TReadFirst => 8 * n + 12
    case TLockA => 8 * n + 11
    case TUnlockFirst => 8 * n + 10
    case TReadNext => ahead + 9
    case TLockB => ahead + 8
    case TCompare => ahead + 7
    case TPair(stage) => ahead + 3 + StepsIn(stage)
    case TAdvance => ahead + 2
    case TUnlockLast => 8
    case TUnlockEmpty => 8
    case TIter(stage) => 1 + StepsIn(stage)
    case SLockFirst => 3 * th.index + 23
    case SReadA => 3 * th.index + 22
    case SLockA => 3 * th.index + 21
    case SLoop => 20 + loop
    case SLockNext => 19 + loop
    case SShift => 18 + loop
    case SReadB => 19
    case SLockB => 18
    case STest => 17
    case SWritePrev => 16
    case SWriteA => 15
    case SWriteB => 14
    case SCount(stage) => 10 + StepsIn(stage)
    case SUnlockB => 9
    case SUnlockA => 8
    case SUnlockPrev => 7
    case _ => 0
  }

  function StepsIn(stage: Stage): nat {
    match stage
    case Want => 3
    case Have => 2
    case Loaded => 1
    case Done => 0
  }

  lemma LeftAtHead(c: Config, next: map<Node, Option<Node>>, b: Book, t: nat, th: Thread, pick: nat)
    requires Fits(c, next, b, t, th) && th.role.Traverser? && AtHead(th.pc) && !th.pc.TLockFirst?
    requires |b.order| >= 2 && (t in b.tick ==> Bounded(b.tick[t], |b.order|))
    ensures 0 <= Left(Note(c, b, t, th), t, Local(c, next, th, pick)) < Left(b, t, th)
  {
    hide Apply, Count, NeedSwap, Matches, Compared;
  }

  lemma LeftWalking(c: Config, next: map<Node, Option<Node>>, b: Book, t: nat, th: Thread, pick: nat)
    requires Fits(c, next, b, t, th) && th.role.Traverser? && Walking(th.pc)
    requires |b.order| >= 2 && (t in b.tick ==> Bounded(b.tick[t], |b.order|))
    ensures 0 <= Left(Note(c, b, t, th), t, Local(c, next, th, pick)) < Left(b, t, th)
  {
    hide Apply, Count, NeedSwap, Matches, Compared;
  }

  lemma LeftSeeking(c: Config, next: map<Node, Option<Node>>, b: Book, t: nat, th: Thread, pick: nat)
    requires Fits(c, next, b, t, th) && th.role.Swapper? && (Starting(th.pc) || Seeking(th.pc)) && !th.pc.SPick?
    requires Reads(next, b, t, th)
    requires |b.order| >= 2 && (t in b.tick ==> Bounded(b.tick[t], |b.order|))
    ensures 0 <= Left(Note(c, b, t, th), t, Local(c, next, th, pick)) < Left(b, t, th)
  {
    hide Note, NeedSwap;
  }

  lemma LeftLeaving(c: Config, next: map<Node, Option<Node>>, b: Book, t: nat, th: Thread, pick: nat)
    requires Fits(c, next, b, t, th) && th.role.Swapper? && (Testing(th.pc) || Writing(th.pc) || Leaving(th.pc))
    requires |b.order| >= 2 && (t in b.tick ==> Bounded(b.tick[t], |b.order|))
    ensures 0 <= Left(Note(c, b, t, th), t, Local(c, next, th, pick)) < Left(b, t, th)
  {
    hide Note, NeedSwap, Fits, Bounded;
  }

  lemma LeftFalls(c: Config, next: map<Node, Option<Node>>, b: Book, t: nat, th: Thread, pick: nat)
    requires Fits(c, next, b, t, th) && !th.pc.TLockFirst? && !th.pc.SPick?
    requires Reads(next, b, t, th) && |b.order| >= 2
    requires t in b.tick ==> Bounded(b.tick[t], |b.order|)
    ensures 0 <= Left(Note(c, b, t, th), t, Local(c, next, th, pick)) < Left(b, t, th)
  {
    ProgramPoints(c, next, b, t, th);
    hide Fits, Reads, Bounded, Note, Local, Left;
    if th.role.Traverser? {
      if AtHead(th.pc) {
        LeftAtHead(c, next, b, t, th, pick);
      } else {
        LeftWalking(c, next, b, t, th, pick);
      }
    } else if Starting(th.pc) || Seeking(th.pc) {
      LeftSeeking(c, next, b, t, th, pick);
    } else {
      LeftLeaving(c, next, b, t, th, pick);
    }
  }

  // ----- the story of one operation

  // b0 is the book before the operation; thread t has entered with op, and has or has not yet done it.
  ghost predicate Story(c: Config, b0: Book, b: Book, t: nat, kind: Kind, op: Op) {
    && b.init == b0.init
    && b.log == b0.log + [op]
    && if t in b.tick then
         && b.tick[t].op == op && b.tick[t].start == |b0.log|
         && b.order == b0.order && b.tally == b0.tally && b.visits == b0.visits
         && (op.Swap? ==> b.tick[t].hits == 0)
         && b.matched == b0.matched.Put(kind, b0.matched.Get(kind) + b.tick[t].hits)
       else
         && b.order == Apply(c.value, b0.order, op) && b.tally == Count(c.value, b0.order, op, b0.tally)
         && if op.Swap? then b.visits == b0.visits && b.matched == b0.matched
            else
              && |b.visits| == |b0.visits| + 1 && b.visits[..|b0.visits|] == b0.visits
              && var v := b.visits[|b0.visits|];
                 v.kind == kind && v.start == |b0.log|
                  && b.matched == b0.matched.Put(kind, b0.matched.Get(kind) + v.hits)
  }

  lemma StoryGoesOn(c: Config, next: map<Node, Option<Node>>, b0: Book, b: Book, t: nat, th: Thread, op: Op)
    requires Fits(c, next, b, t, th) && Story(c, b0, b, t, th.role.kind, op)
    requires op.Swap? <==> th.role.Swapper?
    requires !th.pc.TLockFirst? && !th.pc.SPick? && !th.pc.SLockFirst?
    ensures Story(c, b0, Note(c, b, t, th), t, th.role.kind, op)
  {
    hide Apply, NeedSwap, Matches, Compared;
    ProgramPoints(c, next, b, t, th);
  }

  lemma KeepsRole(c: Config, next: map<Node, Option<Node>>, th: Thread, pick: nat)
    ensures Local(c, next, th, pick).role == th.role
  {
  }

  // Thread t is in its operation, on its own, which began in state s0.
  ghost predicate Alongside(c: Config, s0: State, s: State, t: nat, op: Op) {
    && Alone(s0.mem, s.mem, t)
    && (op.Swap? <==> s.mem.threads[t].role.Swapper?)
    && Story(c, s0.book, s.book, t, s.mem.threads[t].role.kind, op)
    && !s.mem.threads[t].pc.SLockFirst?
  }

  lemma AlongsideMoves(c: Config, s0: State, s: State, t: nat)
    requires Base(c, s) && AllFit(c, s.mem, s.book) && Guarded(s.mem)
    requires Alone(s0.mem, s.mem, t) && !AtStart(s.mem.threads[t])
    ensures Enabled(c, s.mem, t, 0)
  {
    var th := s.mem.threads[t];
    assert Fits(c, s.mem.next, s.book, t, th);
    StartsOnly(c, s.mem.next, s.book, t, th);
    WantsNew(c, s.mem.next, s.book, t, th);
    hide Fits, AllFit, Guarded, Alone, Enabled, Base;
    AloneCanMove(c, s0.mem, s.mem, t, 0);
  }

  // What a step does to the thread that takes it, with the facts that its Fits gives.
  lemma OwnProgress(c: Config, s: State, b0: Book, t: nat, op: Op)
    requires Base(c, s) && AllFit(c, s.mem, s.book) && Exclusive(c, s.mem.threads) && Linked(s.mem, s.book)
    requires AllBounded(s.book.tick, |s.book.order|) && OnAim(s.picks, s.mem.threads)
    requires t < |s.mem.threads| && !AtStart(s.mem.threads[t]) && !s.mem.threads[t].pc.SLockFirst?
    requires op.Swap? <==> s.mem.threads[t].role.Swapper?
    requires Story(c, b0, s.book, t, s.mem.threads[t].role.kind, op)
    ensures var s' := Step(c, s, t, 0);
            var th' := s'.mem.threads[t];
            && Story(c, b0, s'.book, t, th'.role.kind, op)
            && th'.role == s.mem.threads[t].role && !th'.pc.SLockFirst?
            && 0 <= Left(s'.book, t, th') < Left(s.book, t, s.mem.threads[t])
  {
    var th := s.mem.threads[t];
    assert Fits(c, s.mem.next, s.book, t, th);
    assert t in s.book.tick ==> Bounded(s.book.tick[t], |s.book.order|);
    hide Fits, Local, Note, Story, Left, AllFit, Exclusive, Linked, AllBounded, Bounded, Load, Reads, Apart, OnAim;
    StartsOnly(c, s.mem.next, s.book, t, th);
    NoteOnAim(c, s, t, 0);
    KnowsPointer(c, s, t);
    LeftFalls(c, s.mem.next, s.book, t, th, 0);
    LeftIgnoresLoad(s.mem.ctr, Note(c, s.book, t, th), t, th, Local(c, s.mem.next, th, 0));
    LoadKeeps(s.mem.ctr, th, Local(c, s.mem.next, th, 0));
    StoryGoesOn(c, s.mem.next, b0, s.book, t, th, op);
    KeepsRole(c, s.mem.next, th, 0);
    StartsNoSwap(c, s.mem.next, th);
  }

  lemma AlongsideStep(c: Config, s0: State, s: State, t: nat, op: Op)
    requires Inv(c, s) && Alongside(c, s0, s, t, op) && !AtStart(s.mem.threads[t])
    ensures Enabled(c, s.mem, t, 0)
    ensures var s' := Step(c, s, t, 0);
            && Inv(c, s') && Alongside(c, s0, s', t, op)
            && 0 <= Left(s'.book, t, s'.mem.threads[t]) < Left(s.book, t, s.mem.threads[t])
  {
    hide Story, Left, Enabled, Base, AllFit, Exclusive, Linked, OnAim, Guarded, Unraced, Counted, Scored, Local, Load,
         Note,
         Store, Shape, AllBounded, Issued, Ordered, Serial, Views, AllFiled, Balanced, Write;
    AlongsideMoves(c, s0, s, t);
    OwnProgress(c, s, s0.book, t, op);
    StepInv(c, s, t, 0);
    hide Inv;
  }

  lemma StartsOnly(c: Config, next: map<Node, Option<Node>>, b: Book, t: nat, th: Thread)
    requires Fits(c, next, b, t, th)
    ensures AtStart(th) <==> th.pc.TLockFirst? || th.pc.SPick?
  {
  }

  lemma StartsNoSwap(c: Config, next: map<Node, Option<Node>>, th: Thread)
    requires !th.pc.SPick?
    ensures !Local(c, next, th, 0).pc.SLockFirst?
  {
  }

  lemma LeftIgnoresLoad(ctr: Counters, b: Book, t: nat, th: Thread, after: Thread)
    ensures Left(b, t, Load(ctr, th, after)) == Left(b, t, after)
  {
  }

  lemma {:induction false} ToTheEnd(c: Config, run: seq<State>, s0: State, s: State, t: nat, op: Op)
    returns (longer: seq<State>, s': State)
    requires Reaches(c, run, s) && Inv(c, s) && Alongside(c, s0, s, t, op)
    ensures Continues(c, run, longer, s') && Inv(c, s')
    ensures Alongside(c, s0, s', t, op) && AtStart(s'.mem.threads[t])
    decreases Left(s.book, t, s.mem.threads[t])
  {
    hide Inv, Left, Enabled, Step, Story;
    longer, s' := run, s;
    if !AtStart(s.mem.threads[t]) {
      AlongsideStep(c, s0, s, t, op);
      longer := Extend(c, run, s, t, 0);
      longer, s' := ToTheEnd(c, longer, s0, Step(c, s, t, 0), t, op);
    }
  }

  // A thread is about to lock the head, a swapper with this pick.
  ghost predicate Ready(s0: State, s: State, t: nat, pick: nat) {
    && Alone(s0.mem, s.mem, t) && s.mem.guard == None
    && s.mem.threads[t].held == {}
    && s.book == s0.book && t !in s.book.tick
    && if s.mem.threads[t].role.Traverser? then s.mem.threads[t].pc.TLockFirst?
       else s.mem.threads[t].pc.SLockFirst? && t in s.picks && s.picks[t] == pick
  }

  function Chosen(role: Role, pick: nat): Op {
    match role
    case Traverser(_) => Pass
    case Swapper(kind) => Swap(kind, pick)
  }

  lemma AtStartHasNoTicket(c: Config, s: State, t: nat)
    requires AllFit(c, s.mem, s.book) && t < |s.mem.threads| && AtStart(s.mem.threads[t])
    ensures t !in s.book.tick
  {
    assert Fits(c, s.mem.next, s.book, t, s.mem.threads[t]);
  }

  lemma PickStep(c: Config, s: State, t: nat, pick: nat)
    requires Inv(c, s) && Between(s.mem) && t < |s.mem.threads|
    requires s.mem.threads[t].role.Swapper? && pick + 1 < c.count
    ensures Enabled(c, s.mem, t, pick)
    ensures Inv(c, Step(c, s, t, pick)) && Ready(s, Step(c, s, t, pick), t, pick)
  {
    hide Base, AllFit, Exclusive, Linked, OnAim, Guarded, Unraced, Counted, Scored, Books, Available;
    AtStartHasNoTicket(c, s, t);
    assert AtStart(s.mem.threads[t]);
    StepInv(c, s, t, pick);
    hide Inv;
  }

  lemma EnterNote(c: Config, picks: map<nat, nat>, b: Book, t: nat, th: Thread, pick: nat)
    requires if th.role.Traverser? then th.pc.TLockFirst? else th.pc.SLockFirst? && t in picks && picks[t] == pick
    ensures Story(c, b, Note(c, b, t, Aimed(picks, t, th)), t, th.role.kind, Chosen(th.role, pick))
  {
  }

  lemma EnterStep(c: Config, s0: State, s: State, t: nat, pick: nat)
    requires Inv(c, s) && Ready(s0, s, t, pick)
    ensures Enabled(c, s.mem, t, 0)
    ensures Inv(c, Step(c, s, t, 0))
    ensures Alongside(c, s0, Step(c, s, t, 0), t, Chosen(s.mem.threads[t].role, pick))
  {
    hide Base, AllFit, Exclusive, Linked, OnAim, Guarded, Unraced, Counted, Scored, Books;
    EnterNote(c, s.picks, s.book, t, s.mem.threads[t], pick);
    assert Enabled(c, s.mem, t, 0);
    hide Enabled;
    StepInv(c, s, t, 0);
    hide Inv, Note, Story;
  }

  // From a state between operations, thread t carries out a whole operation alone.
  lemma Operate(c: Config, run: seq<State>, s: State, t: nat, pick: nat)
    returns (longer: seq<State>, s': State)
    requires Reaches(c, run, s) && Inv(c, s) && Between(s.mem) && t < |s.mem.threads|
    requires s.mem.threads[t].role.Swapper? ==> pick + 1 < c.count
    ensures Continues(c, run, longer, s') && Inv(c, s')
    ensures Alongside(c, s, s', t, Chosen(s.mem.threads[t].role, pick)) && AtStart(s'.mem.threads[t])
  {
    longer, s' := run, s;
    if s.mem.threads[t].role.Swapper? {
      PickStep(c, s, t, pick);
      longer := Extend(c, run, s, t, pick);
      s' := Step(c, s, t, pick);
    } else {
      AtStartHasNoTicket(c, s, t);
    }
    hide Inv, Step, Enabled;
    EnterStep(c, s, s', t, pick);
    longer := Extend(c, longer, s', t, 0);
    longer, s' := ToTheEnd(c, longer, s, Step(c, s', t, 0), t, Chosen(s.mem.threads[t].role, pick));
  }

  // ----- what an operation has done when it is over

  lemma EndIsBetween(c: Config, s0: State, s: State, t: nat, op: Op)
    requires Inv(c, s) && Alongside(c, s0, s, t, op) && AtStart(s.mem.threads[t])
    ensures Between(s.mem)
    ensures t !in s.book.tick
  {
    AtStartHasNoTicket(c, s, t);
    hide Base, AllFit, Exclusive, Linked, OnAim, Unraced, Counted, Scored, Books, Story;
    assert StageOf(s.mem.threads[t].pc) == None;
  }

  lemma NothingInFlight(m: Mem, counter: Counter, kind: Kind)
    requires Between(m)
    ensures InFlight(m.threads, counter, kind) == 0
  {
    CountNone(m.threads, Due(counter, kind));
  }

  // Between operations memory is the order in the book, and the counters are what the book has recorded.
  lemma BetweenFacts(c: Config, s: State)
    requires Inv(c, s) && Between(s.mem)
    ensures IsChain(s.mem.next, s.book.order) && |s.book.order| == c.count + 1 && s.book.order[0] == c.first
    ensures s.book.order == Run(c.value, s.book.init, s.book.log)
    ensures forall counter, kind :: Recorded(s.book, counter, kind) == CountOf(s.mem.ctr, counter, kind)
  {
    forall counter, kind ensures Recorded(s.book, counter, kind) == CountOf(s.mem.ctr, counter, kind) {
      NothingInFlight(s.mem, counter, kind);
    }
    hide Counted, Recorded, CountOf, InFlight, Exclusive, Guarded, OnAim, Unraced, Scored, Shape, AllBounded, Ordered,
         Views,
         AllFiled, Balanced;
    assert AtRest(s.mem);
    RestHasNoTickets(c, s);
    RunPasses(c.value, s.book.order, s.book.pending);
  }

  // What the sequential do_random_swap does to the order of the nodes: it exchanges the neighbours number pick when the
  // left string is longer, shorter, or of another length, according to the swapper's kind.
  function Swapped(value: Values<Node>, order: seq<Node>, kind: Kind, pick: nat): (r: seq<Node>)
    requires pick + 2 < |order|
  {
    var l1, l2 := |value(order[pick + 1])|, |value(order[pick + 2])|;
    if (match kind case Asc => l1 > l2 case Desc => l1 < l2 case Equal => l1 != l2) then
      order[..pick + 1] + [order[pick + 2], order[pick + 1]] + order[pick + 3..]
    else order
  }

  lemma SwapStory(c: Config, b0: Book, b: Book, t: nat, kind: Kind, pick: nat)
    requires Story(c, b0, b, t, kind, Swap(kind, pick)) && t !in b.tick
    requires pick + 2 < |b0.order| && Distinct(b0.order)
    ensures b.log == b0.log + [Swap(kind, pick)] && b.visits == b0.visits
    ensures b.order == Swapped(c.value, b0.order, kind, pick)
    ensures forall counter, k ::
              Recorded(b, counter, k)
              == Recorded(b0, counter, k) + One(counter == Swaps && k == kind && b.order != b0.order)
  {
    var order := Swapped(c.value, b0.order, kind, pick);
    assert order[pick + 1] == b0.order[pick + 1] <==> order == b0.order;
  }

  // From every reachable state between operations, every swapper can on its own carry out the swap of any index that
  // rand_r() % (count - 1) may give.  It is logged as that swap, it changes memory and its counter as the
  // sequential program would, and nothing else.
  lemma WholeSwap(c: Config, run: seq<State>, s: State, t: nat, pick: nat) returns (longer: seq<State>, s': State)
    requires Reaches(c, run, s) && Between(s.mem) && t < |s.mem.threads|
    requires s.mem.threads[t].role.Swapper? && pick + 1 < c.count
    ensures Continues(c, run, longer, s') && Between(s'.mem)
    ensures IsChain(s.mem.next, s.book.order) && pick + 2 < |s.book.order|
    ensures var kind := s.mem.threads[t].role.kind;
            var order := Swapped(c.value, s.book.order, kind, pick);
            && IsChain(s'.mem.next, order) && s'.book.order == order
            && s'.book.log == s.book.log + [Swap(kind, pick)]
            && s'.book.visits == s.book.visits
            && (forall counter, k :: CountOf(s'.mem.ctr, counter, k)
                                     == CountOf(s.mem.ctr, counter, k)
                                        + One(counter == Swaps && k == kind && order != s.book.order))
  {
    RunInv(c, run, |run| - 1);
    longer, s' := Operate(c, run, s, t, pick);
    EndIsBetween(c, s, s', t, Chosen(s.mem.threads[t].role, pick));
    BetweenFacts(c, s);
    BetweenFacts(c, s');
    assert Distinct(s.book.order);
    hide Inv, Story, Recorded, CountOf, Between, Swapped, Distinct, IsChain;
    SwapStory(c, s.book, s'.book, t, s.mem.threads[t].role.kind, pick);
  }

  lemma PassStory(c: Config, b0: Book, b: Book, t: nat, kind: Kind)
    requires Story(c, b0, b, t, kind, Pass) && t !in b.tick
    ensures b.order == b0.order && |b.visits| == |b0.visits| + 1
    ensures forall counter, k ::
              Recorded(b, counter, k)
              == Recorded(b0, counter, k)
                 + (if k != kind || counter == Swaps then 0
                    else if counter == Passes then 1 else b.visits[|b0.visits|].hits)
  {
    assert b.visits == b.visits[..|b0.visits|] + [b.visits[|b0.visits|]];
    assert b.visits[..|b.visits| - 1] == b0.visits;
  }

  // And every traverser can on its own carry out a pass, which visits the nodes of the list in their order, compares
  // all neighbours, counts the matching ones and itself, and changes nothing else.
  lemma WholePass(c: Config, run: seq<State>, s: State, t: nat) returns (longer: seq<State>, s': State)
    requires Reaches(c, run, s) && Between(s.mem) && t < |s.mem.threads|
    requires s.mem.threads[t].role.Traverser?
    ensures Continues(c, run, longer, s') && Between(s'.mem)
    ensures IsChain(s.mem.next, s.book.order) && IsChain(s'.mem.next, s.book.order)
    ensures |s.book.order| >= 1 && |s'.book.visits| == |s.book.visits| + 1
    ensures var kind := s.mem.threads[t].role.kind;
            && s'.book.visits[|s.book.visits|].seen == s.book.order[1..]
            && (forall counter, k :: CountOf(s'.mem.ctr, counter, k)
                                     == CountOf(s.mem.ctr, counter, k)
                                        + (if k != kind || counter == Swaps then 0
                                           else if counter == Passes then 1
                                           else Matching(c.value, kind, s.book.order[1..])))
  {
    RunInv(c, run, |run| - 1);
    longer, s' := Operate(c, run, s, t, 0);
    EndIsBetween(c, s, s', t, Pass);
    BetweenFacts(c, s);
    BetweenFacts(c, s');
    var kind, v := s.mem.threads[t].role.kind, s'.book.visits[|s.book.visits|];
    assert Filed(c.value, s'.book, v);
    assert v.seen == s.book.order[1..] by {
      assert s'.book.log[..|s.book.log|] == s.book.log;
    }
    assert v.hits == Hits(c.value, kind, v.seen);
    hide Inv, Story, Recorded, CountOf, Between, Distinct, IsChain, Filed;
    HitsMean(c.value, v.seen);
    PassStory(c, s.book, s'.book, t, kind);
  }

  // The first state is such a state.
  lemma InitIsBetween(c: Config, s: State)
    requires Init(c, s)
    ensures Reaches(c, [s], s) && Between(s.mem)
  {
  }

  // ----- in every run: the index that is picked is the one that is carried out

  lemma PickStays(c: Config, s: State, s': State, t: nat)
    requires Moves(c, s, s') && t < |s.mem.threads| && s.mem.threads[t].pc.SLockFirst?
    ensures |s'.mem.threads| == |s.mem.threads|
    ensures s'.mem.threads[t].pc.SLockFirst? ==>
              s'.mem.threads[t] == s.mem.threads[t] && (t in s.picks ==> t in s'.picks && s'.picks[t] == s.picks[t])
    ensures !s'.mem.threads[t].pc.SLockFirst? && t in s.picks ==>
              s'.book.log == s.book.log + [OpOf(s.mem.threads[t].(index := s.picks[t]))]
  {
    hide Available, Write, Guard, Store;
    var u: nat, p: nat :| Enabled(c, s.mem, u, p) && s' == Step(c, s, u, p);
  }

  // Step j of the run is thread t's pick, and after step k it has locked the head.
  lemma {:induction false} PickIsLogged(c: Config, run: seq<State>, j: nat, k: nat, t: nat, pick: nat)
    requires IsRun(c, run) && j < k && k + 1 < |run| && t < |run[j].mem.threads| && c.count >= 2
    requires run[j].mem.threads[t].pc.SPick? && run[j + 1] == Step(c, run[j], t, pick)
    requires forall i :: j < i <= k ==> t < |run[i].mem.threads| && run[i].mem.threads[t].pc.SLockFirst?
    requires !(t < |run[k + 1].mem.threads| && run[k + 1].mem.threads[t].pc.SLockFirst?)
    ensures run[j].mem.threads[t].role.Swapper? ==>
              run[k + 1].book.log == run[k].book.log + [Swap(run[j].mem.threads[t].role.kind, pick)]
  {
    PickHolds(c, run, j, k, t, pick);
    assert Moves(c, run[k], run[k + 1]);
    hide IsRun, Moves, Step;
    PickStays(c, run[k], run[k + 1], t);
  }

  lemma {:induction false} PickHolds(c: Config, run: seq<State>, j: nat, k: nat, t: nat, pick: nat)
    requires IsRun(c, run) && j < k < |run| && t < |run[j].mem.threads| && c.count >= 2
    requires run[j].mem.threads[t].pc.SPick? && run[j + 1] == Step(c, run[j], t, pick)
    requires forall i :: j < i <= k ==> t < |run[i].mem.threads| && run[i].mem.threads[t].pc.SLockFirst?
    ensures t in run[k].picks && run[k].picks[t] == pick
    ensures run[k].mem.threads[t].role == run[j].mem.threads[t].role
    decreases k
  {
    if k > j + 1 {
      PickHolds(c, run, j, k - 1, t, pick);
      assert Moves(c, run[k - 1], run[k]);
      hide IsRun, Moves, Step;
      PickStays(c, run[k - 1], run[k], t);
    } else {
      KeepsRole(c, run[j].mem.next, run[j].mem.threads[t], pick);
    }
  }

  // ----- readers overlap

  // With read locks, two traversers can be at the head of the list at the same time.
  lemma ReadersShare(c: Config, run: seq<State>, s: State, t: nat, u: nat) returns (longer: seq<State>, s': State)
    requires Reaches(c, run, s) && Between(s.mem) && c.shared
    requires t < |s.mem.threads| && u < |s.mem.threads| && t != u
    requires s.mem.threads[t].role.Traverser? && s.mem.threads[u].role.Traverser?
    ensures Continues(c, run, longer, s')
    ensures t < |s'.mem.threads| && u < |s'.mem.threads|
    ensures c.first in s'.mem.threads[t].held && c.first in s'.mem.threads[u].held
  {
    assert AtStart(s.mem.threads[t]) && AtStart(s.mem.threads[u]);
    longer := Extend(c, run, s, t, 0);
    var m := Step(c, s, t, 0);
    assert forall v :: 0 <= v < |m.mem.threads| && c.first in m.mem.threads[v].held ==> v == t;
    longer := Extend(c, longer, m, u, 0);
    s' := Step(c, m, u, 0);
  }

  // ----- operations under way can be finished

  // Following the threads that others wait for leads from a busy thread to a busy one that can move.
  lemma {:induction false} SomeoneBusyMoves(c: Config, s: State, t: nat) returns (u: nat)
    requires Inv(c, s) && t < |s.mem.threads| && !AtStart(s.mem.threads[t])
    ensures Enabled(c, s.mem, u, 0) && !AtStart(s.mem.threads[u])
    decreases |s.book.order| + 2 - Rank(c, s, t)
  {
    if Enabled(c, s.mem, t, 0) {
      u := t;
    } else {
      var v := BlockedByOne(c, s, t);
      WaitsRise(c, s, t, v);
      RankBound(c, s, v);
      BlockerIsBusy(c, s, t, v);
      hide Inv, Rank, WaitsFor, Enabled;
      u := SomeoneBusyMoves(c, s, v);
    }
  }

  lemma BlockerIsBusy(c: Config, s: State, t: nat, v: nat)
    requires Guarded(s.mem) && WaitsFor(c, s.mem, t, v)
    ensures !AtStart(s.mem.threads[v])
  {
  }

  // How far the first k threads are from their starts, together.
  function Work(b: Book, threads: seq<Thread>): int {
    if threads == [] then 0
    else Work(b, threads[..|threads| - 1]) + Left(b, |threads| - 1, threads[|threads| - 1])
  }

  lemma {:induction false} WorkChanges(b: Book, b': Book, threads: seq<Thread>, t: nat, th': Thread)
    requires forall u :: 0 <= u < |threads| ==> 0 <= Left(b, u, threads[u])
    requires forall u :: 0 <= u < |threads| && u != t ==> Left(b', u, threads[u]) == Left(b, u, threads[u])
    ensures 0 <= Work(b, threads)
    ensures t < |threads| ==>
              Work(b', threads[t := th']) == Work(b, threads) - Left(b, t, threads[t]) + Left(b', t, th')
    ensures t >= |threads| ==> Work(b', threads) == Work(b, threads)
    decreases |threads|
  {
    if threads != [] {
      hide Left;
      var n := |threads| - 1;
      WorkChanges(b, b', threads[..n], t, th');
      if t < n {
        assert threads[t := th'][..n] == threads[..n][t := th'];
      } else if t == n {
        assert threads[t := th'][..n] == threads[..n];
      }
    }
  }

  lemma LeftIsNatural(c: Config, next: map<Node, Option<Node>>, b: Book, t: nat, th: Thread)
    requires Fits(c, next, b, t, th) && (t in b.tick ==> Bounded(b.tick[t], |b.order|))
    ensures 0 <= Left(b, t, th)
  {
    hide Compared, NeedSwap;
  }

  lemma LeftElsewhere(b: Book, b': Book, u: nat, th: Thread)
    requires |b'.order| == |b.order|
    requires (u in b'.tick <==> u in b.tick) && (u in b.tick ==> b'.tick[u] == b.tick[u])
    ensures Left(b', u, th) == Left(b, u, th)
  {
  }

  lemma OwnLeft(c: Config, s: State, t: nat)
    requires Base(c, s) && AllFit(c, s.mem, s.book) && Exclusive(c, s.mem.threads) && Linked(s.mem, s.book)
    requires AllBounded(s.book.tick, |s.book.order|) && OnAim(s.picks, s.mem.threads)
    requires t < |s.mem.threads| && !AtStart(s.mem.threads[t])
    ensures var s' := Step(c, s, t, 0);
            && |s'.book.order| == |s.book.order|
            && (forall u :: u != t ==> (u in s'.book.tick <==> u in s.book.tick)
                                       && (u in s.book.tick ==> s'.book.tick[u] == s.book.tick[u]))
            && 0 <= Left(s'.book, t, s'.mem.threads[t]) < Left(s.book, t, s.mem.threads[t])
  {
    var th := s.mem.threads[t];
    assert Fits(c, s.mem.next, s.book, t, th);
    assert t in s.book.tick ==> Bounded(s.book.tick[t], |s.book.order|);
    hide Fits, Local, Note, Left, AllFit, Exclusive, Linked, AllBounded, Bounded, Load, Reads, Apart, OnAim;
    StartsOnly(c, s.mem.next, s.book, t, th);
    NoteOnAim(c, s, t, 0);
    NoteElsewhere(c, s.mem.next, s.book, t, th);
    KnowsPointer(c, s, t);
    LeftFalls(c, s.mem.next, s.book, t, th, 0);
    LeftIgnoresLoad(s.mem.ctr, Note(c, s.book, t, th), t, th, Local(c, s.mem.next, th, 0));
  }

  lemma AllLeftNatural(c: Config, s: State)
    requires AllFit(c, s.mem, s.book) && AllBounded(s.book.tick, |s.book.order|)
    ensures forall u :: 0 <= u < |s.mem.threads| ==> 0 <= Left(s.book, u, s.mem.threads[u])
  {
    forall u | 0 <= u < |s.mem.threads| ensures 0 <= Left(s.book, u, s.mem.threads[u]) {
      assert Fits(c, s.mem.next, s.book, u, s.mem.threads[u]);
      assert u in s.book.tick ==> Bounded(s.book.tick[u], |s.book.order|);
      LeftIsNatural(c, s.mem.next, s.book, u, s.mem.threads[u]);
    }
  }

  lemma WorkFalls(c: Config, s: State, t: nat)
    requires Inv(c, s) && t < |s.mem.threads| && !AtStart(s.mem.threads[t])
    ensures var s' := Step(c, s, t, 0);
            && |s'.mem.threads| == |s.mem.threads|
            && 0 <= Work(s'.book, s'.mem.threads) < Work(s.book, s.mem.threads)
  {
    hide Left, Work, Local, Load, Note, Base, AllFit, Bounded, AllBounded, Exclusive, Linked, OnAim, Guarded, Unraced,
         Counted, Scored, Shape, Serial, Views, AllFiled, Balanced, Issued, Ordered;
    var s' := Step(c, s, t, 0);
    var th' := s'.mem.threads[t];
    AllLeftNatural(c, s);
    OwnLeft(c, s, t);
    hide Inv, Step;
    assert s'.mem.threads == s.mem.threads[t := th'] by { StepThreads(c, s, t, 0); }
    forall u | 0 <= u < |s.mem.threads| && u != t
      ensures Left(s'.book, u, s.mem.threads[u]) == Left(s.book, u, s.mem.threads[u])
    {
      LeftElsewhere(s.book, s'.book, u, s.mem.threads[u]);
    }
    WorkChanges(s.book, s'.book, s.mem.threads, t, th');
    WorkChanges(s'.book, s'.book, s'.mem.threads, |s.mem.threads|, th');
  }

  lemma StepThreads(c: Config, s: State, t: nat, pick: nat)
    requires t < |s.mem.threads|
    ensures var s' := Step(c, s, t, pick);
            t < |s'.mem.threads| && s'.mem.threads == s.mem.threads[t := s'.mem.threads[t]]
  {
    hide Local, Load, Note;
  }

  lemma {:induction false} FinishFrom(c: Config, run: seq<State>, s: State)
    returns (longer: seq<State>, s': State)
    requires Reaches(c, run, s) && Inv(c, s)
    ensures Continues(c, run, longer, s') && Between(s'.mem)
    decreases Work(s.book, s.mem.threads)
  {
    longer, s' := run, s;
    if t: nat :| t < |s.mem.threads| && !AtStart(s.mem.threads[t]) {
      var u := SomeoneBusyMoves(c, s, t);
      WorkFalls(c, s, u);
      StepInv(c, s, u, 0);
      hide Inv, Work, Step;
      longer := Extend(c, run, s, u, 0);
      longer, s' := FinishFrom(c, longer, Step(c, s, u, 0));
    } else {
      IdleIsBetween(s.mem);
    }
  }

  // Every reachable state can be continued to one between operations: whatever the threads are in the middle of
  // can be finished.
  lemma OperationsFinish(c: Config, run: seq<State>, s: State) returns (longer: seq<State>, s': State)
    requires Reaches(c, run, s)
    ensures Continues(c, run, longer, s') && Between(s'.mem)
  {
    RunInv(c, run, |run| - 1);
    longer, s' := FinishFrom(c, run, s);
  }

  lemma IdleIsBetween(m: Mem)
    requires Guarded(m) && forall t :: 0 <= t < |m.threads| ==> AtStart(m.threads[t])
    ensures Between(m)
  {
  }
}
