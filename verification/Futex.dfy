/**
 The futex mutex of program 2.4 (`2.4/mutex/mutex.c`, `mutex.h`) and the client that counts with it
 (`main_mutex.c`).  Every atomic operation, every system call and each half of `counter++` is
 one step.  futex_wait may return without having slept, and a sleeper may wake up for no reason.
 */
module Futex {
  import opened Basics
  import opened Counting

  datatype PC =
    | TryFirst               // mutex_trylock at the top of mutex_lock
    | Load                   // the relaxed load in the retry loop
    | Mark                   // compare-exchange 1 -> 2
    | Wait                   // about to call futex_wait
    | Sleeping
    | TryAgain               // mutex_trylock at the bottom of the retry loop
    | Read | Write           // counter++
    | Exchange               // atomic_exchange in mutex_unlock
    | WakeUp                 // about to call futex_wake

  // `tmp` is what Read found; `done` counts the increments this thread has made.
  datatype Thread = Thread(pc: PC, tmp: int, done: nat)

  // `refused`, `spurious` and `wasted` are history: futex_wait calls that found the state changed, sleepers
  // that woke up unasked, and futex_wake calls that found nobody asleep.
  datatype Machine = Machine(state: int, counter: int, threads: seq<Thread>,
                             refused: nat, spurious: nat, wasted: nat)

  ghost predicate SomeoneSleeps(m: Machine) {
    exists u :: 0 <= u < |m.threads| && m.threads[u].pc.Sleeping?
  }

  // A worker stops after `rounds` increments; futex_wake wakes `woken` if anybody sleeps.
  ghost predicate Enabled(m: Machine, rounds: nat, t: nat, woken: nat) {
    && t < |m.threads|
    && (m.threads[t].pc.TryFirst? ==> m.threads[t].done < rounds)
    && (m.threads[t].pc.WakeUp? && SomeoneSleeps(m) ==> woken < |m.threads| && m.threads[woken].pc.Sleeping?)
  }

  function Goto(m: Machine, t: nat, pc: PC): Machine
    requires t < |m.threads|
  {
    m.(threads := m.threads[t := m.threads[t].(pc := pc)])
  }

  function TryLock(m: Machine, t: nat): Machine
    requires t < |m.threads|
  {
    if m.state == 0 then Goto(m.(state := 1), t, Read) else Goto(m, t, Load)
  }

  function Step(m: Machine, t: nat, woken: nat): (m': Machine)
    requires t < |m.threads|
    ensures |m'.threads| == |m.threads|
  {
    var th := m.threads[t];
    match th.pc
    case TryFirst => TryLock(m, t)
    case Load => Goto(m, t, if m.state == 1 then Mark else TryAgain)
    case Mark => if m.state == 1 then Goto(m.(state := 2), t, Wait) else Goto(m, t, TryAgain)
    case Wait =>
      if m.state == 2 then Goto(m, t, Sleeping) else Goto(m.(refused := m.refused + 1), t, TryAgain)
    case Sleeping => Goto(m.(spurious := m.spurious + 1), t, TryAgain)
    case TryAgain => TryLock(m, t)
    case Read => m.(threads := m.threads[t := th.(pc := Write, tmp := m.counter)])
    case Write =>
      m.(counter := th.tmp + 1, threads := m.threads[t := th.(pc := Exchange, done := th.done + 1)])
    case Exchange => Goto(m.(state := 0), t, if m.state == 2 then WakeUp else TryFirst)
    case WakeUp =>
      if woken < |m.threads| && m.threads[woken].pc.Sleeping? then Goto(Goto(m, woken, TryAgain), t, TryFirst)
      else Goto(m.(wasted := m.wasted + 1), t, TryFirst)
  }

  ghost predicate Moves(m: Machine, m': Machine, rounds: nat) {
    exists t: nat, woken: nat :: Enabled(m, rounds, t, woken) && m' == Step(m, t, woken)
  }

  predicate Init(m: Machine) {
    && m.state == 0 && m.counter == 0
    && m.refused == 0 && m.spurious == 0 && m.wasted == 0
    && (forall t :: 0 <= t < |m.threads| ==> m.threads[t] == Thread(TryFirst, 0, 0))
  }

  ghost predicate IsRun(run: seq<Machine>, rounds: nat) {
    && run != []
    && Init(run[0])
    && (forall k :: 0 <= k < |run| - 1 ==> Moves(run[k], run[k + 1], rounds))
  }

  // ----- counting threads

  datatype Measure = Owners | Waiters | Sleepers | Wakers

  predicate Owns(th: Thread) { th.pc.Read? || th.pc.Write? || th.pc.Exchange? }

  predicate Has(k: Measure, th: Thread) {
    match k
    case Owners => Owns(th)
    case Waiters => th.pc.Wait?
    case Sleepers => th.pc.Sleeping?
    case Wakers => th.pc.WakeUp?
  }

  function Is(k: Measure): Thread -> bool { th => Has(k, th) }

  function Count(threads: seq<Thread>, k: Measure): nat { CountIf(threads, Is(k)) }

  function Total(threads: seq<Thread>): nat {
    if threads == [] then 0 else threads[0].done + Total(threads[1..])
  }

  lemma {:induction false} TotalUpdate(threads: seq<Thread>, t: nat, th: Thread)
    requires t < |threads|
    ensures Total(threads[t := th]) == Total(threads) - threads[t].done + th.done
    decreases |threads|
  {
    if t == 0 {
      assert threads[t := th][1..] == threads[1..];
    } else {
      assert threads[t := th][1..] == threads[1..][t - 1 := th];
      TotalUpdate(threads[1..], t - 1, th);
    }
  }

  lemma Update(threads: seq<Thread>, t: nat, th: Thread)
    requires t < |threads|
    ensures forall k :: Count(threads[t := th], k) == Count(threads, k) - One(Has(k, threads[t])) + One(Has(k, th))
    ensures forall k :: Has(k, threads[t]) ==> Count(threads, k) >= 1
    ensures Total(threads[t := th]) == Total(threads) - threads[t].done + th.done
  {
    forall k
      ensures Count(threads[t := th], k) == Count(threads, k) - One(Has(k, threads[t])) + One(Has(k, th))
      ensures Has(k, threads[t]) ==> Count(threads, k) >= 1
    {
      CountUpdate(threads, t, th, Is(k));
    }
    TotalUpdate(threads, t, th);
  }

  // ----- the invariant

  // The state word is nonzero exactly while one thread owns the mutex.
  ghost predicate Owned(m: Machine) {
    && 0 <= m.state <= 2
    && Count(m.threads, Owners) == One(m.state != 0)
  }

  // Every 1 -> 2 exchange sends one thread to wait; every exchange 2 -> 0 sends one wakeup.
  ghost predicate Accounted(m: Machine) {
    Count(m.threads, Waiters) + m.refused + Count(m.threads, Sleepers) + m.spurious
    == One(m.state == 2) + Count(m.threads, Wakers) + m.wasted
  }

  ghost predicate Counted(m: Machine, rounds: nat) {
    && m.counter == Total(m.threads)
    && (forall t :: 0 <= t < |m.threads| ==>
          var th := m.threads[t];
          && (th.pc.Write? ==> th.tmp == m.counter)
          && th.done <= rounds
          && (th.pc.Exchange? || th.pc.WakeUp? ==> th.done >= 1)
          && (!th.pc.TryFirst? && !th.pc.Exchange? && !th.pc.WakeUp? ==> th.done < rounds))
  }

  ghost predicate Inv(m: Machine, rounds: nat) {
    Owned(m) && Accounted(m) && Counted(m, rounds)
  }

  lemma {:induction false} TotalStart(threads: seq<Thread>)
    requires forall t :: 0 <= t < |threads| ==> threads[t].done == 0
    ensures Total(threads) == 0
    decreases |threads|
  {
    if threads != [] { TotalStart(threads[1..]); }
  }

  lemma InitInv(m: Machine, rounds: nat)
    requires Init(m)
    ensures Inv(m, rounds)
  {
    CountNone(m.threads, Is(Owners));
    CountNone(m.threads, Is(Waiters));
    CountNone(m.threads, Is(Sleepers));
    CountNone(m.threads, Is(Wakers));
    TotalStart(m.threads);
  }

  // What a wakeup does to the counts.
  lemma WakeUpdates(m: Machine, t: nat, woken: nat)
    requires t < |m.threads| && m.threads[t].pc.WakeUp?
    ensures var m' := Step(m, t, woken);
            var hit := woken < |m.threads| && m.threads[woken].pc.Sleeping?;
            && Total(m'.threads) == Total(m.threads)
            && (forall k :: Count(m'.threads, k)
                            == Count(m.threads, k) - One(k == Wakers) - One(hit && k == Sleepers))
  {
    var m' := Step(m, t, woken);
    if woken < |m.threads| && m.threads[woken].pc.Sleeping? {
      var mid := Goto(m, woken, TryAgain);
      Update(m.threads, woken, mid.threads[woken]);
      Update(mid.threads, t, m'.threads[t]);
    } else {
      Update(m.threads, t, m'.threads[t]);
    }
  }

  lemma StepWakes(m: Machine, rounds: nat, t: nat, woken: nat)
    requires Inv(m, rounds) && Enabled(m, rounds, t, woken) && m.threads[t].pc.WakeUp?
    ensures Inv(Step(m, t, woken), rounds)
  {
    WakeUpdates(m, t, woken);
    hide Count, Total;
  }

  lemma StepOwned(m: Machine, t: nat, woken: nat)
    requires Owned(m) && Accounted(m) && t < |m.threads| && !m.threads[t].pc.WakeUp?
    ensures Owned(Step(m, t, woken)) && Accounted(Step(m, t, woken))
  {
    Update(m.threads, t, Step(m, t, woken).threads[t]);
    hide Count;
  }

  lemma OnlyOwner(m: Machine, t: nat)
    requires Owned(m) && t < |m.threads| && Owns(m.threads[t])
    ensures forall u :: 0 <= u < |m.threads| && u != t ==> !Owns(m.threads[u])
  {
    forall u | 0 <= u < |m.threads| && u != t ensures !Owns(m.threads[u]) {
      if Owns(m.threads[u]) {
        CountTwo(m.threads, t, u, Is(Owners));
      }
    }
  }

  lemma StepCounted(m: Machine, rounds: nat, t: nat, woken: nat)
    requires Inv(m, rounds) && Enabled(m, rounds, t, woken) && !m.threads[t].pc.WakeUp?
    ensures Counted(Step(m, t, woken), rounds)
  {
    Update(m.threads, t, Step(m, t, woken).threads[t]);
    if Owns(m.threads[t]) {
      OnlyOwner(m, t);
    }
    hide Count, Total, Accounted;
  }

  lemma StepInv(m: Machine, rounds: nat, t: nat, woken: nat)
    requires Inv(m, rounds) && Enabled(m, rounds, t, woken)
    ensures Inv(Step(m, t, woken), rounds)
  {
    if m.threads[t].pc.WakeUp? {
      StepWakes(m, rounds, t, woken);
    } else {
      StepOwned(m, t, woken);
      StepCounted(m, rounds, t, woken);
    }
  }

  lemma {:induction false} RunInv(run: seq<Machine>, rounds: nat, k: nat)
    requires IsRun(run, rounds) && k < |run|
    ensures Inv(run[k], rounds)
    ensures |run[k].threads| == |run[0].threads|
  {
    hide Inv, Step;
    if k == 0 {
      InitInv(run[0], rounds);
    } else {
      RunInv(run, rounds, k - 1);
      assert Moves(run[k - 1], run[k], rounds);
      var t: nat, woken: nat :| Enabled(run[k - 1], rounds, t, woken) && run[k] == Step(run[k - 1], t, woken);
      StepInv(run[k - 1], rounds, t, woken);
    }
  }

  // ----- the main results

  // Exact accounting of sleeping and waking in every reachable state.
  lemma FutexAccounting(run: seq<Machine>, rounds: nat, k: nat)
    requires IsRun(run, rounds) && k < |run|
    ensures var m := run[k];
            Count(m.threads, Waiters) + m.refused + Count(m.threads, Sleepers) + m.spurious
            == One(m.state == 2) + Count(m.threads, Wakers) + m.wasted
  {
    RunInv(run, rounds, k);
  }

  // A free mutex for which no wakeup is under way has a sleeper or somebody about to sleep exactly when
  // more wakeups were wasted than waits came to nothing; without a wasted wakeup it has none.
  lemma SleepersOfFreeMutex(run: seq<Machine>, rounds: nat, k: nat)
    requires IsRun(run, rounds) && k < |run|
    requires run[k].state == 0 && Count(run[k].threads, Wakers) == 0
    ensures var m := run[k];
            && (Count(m.threads, Sleepers) + Count(m.threads, Waiters) == 0
                <==> m.wasted == m.refused + m.spurious)
            && (m.wasted == 0 ==> !SomeoneSleeps(m))
  {
    RunInv(run, rounds, k);
    if u :| 0 <= u < |run[k].threads| && run[k].threads[u].pc.Sleeping? {
      Update(run[k].threads, u, run[k].threads[u]);
    }
  }

  // The state is nonzero exactly when there is an owner, and then there is only one.
  lemma MutualExclusion(run: seq<Machine>, rounds: nat, k: nat)
    requires IsRun(run, rounds) && k < |run|
    ensures var m := run[k];
            && (m.state != 0 <==> exists t :: 0 <= t < |m.threads| && Owns(m.threads[t]))
            && (forall t, u | 0 <= t < |m.threads| && 0 <= u < |m.threads| :: Owns(m.threads[t]) && Owns(m.threads[u])
                                                                            ==> t == u)
  {
    RunInv(run, rounds, k);
    var m := run[k];
    if m.state != 0 {
      var t := CountWitness(m.threads, Is(Owners));
      assert Owns(m.threads[t]);
    } else if t :| 0 <= t < |m.threads| && Owns(m.threads[t]) {
      Update(m.threads, t, m.threads[t]);
    }
    forall t, u | 0 <= t < |m.threads| && 0 <= u < |m.threads| && Owns(m.threads[t]) && Owns(m.threads[u])
      ensures t == u
    {
      if t != u {
        CountTwo(m.threads, t, u, Is(Owners));
      }
    }
  }

  // No step of another thread, the 1 -> 2 exchange included, takes the mutex away from its owner.
  lemma OwnershipStays(run: seq<Machine>, rounds: nat, k: nat, t: nat, u: nat, woken: nat)
    requires IsRun(run, rounds) && k < |run|
    requires t < |run[k].threads| && Owns(run[k].threads[t])
    requires u != t && Enabled(run[k], rounds, u, woken)
    ensures var m' := Step(run[k], u, woken);
            && m'.threads[t] == run[k].threads[t]
            && m'.state != 0
            && m'.counter == run[k].counter
            && !Owns(m'.threads[u])
  {
    MutualExclusion(run, rounds, k);
    assert run[k].state != 0;
    assert !Owns(run[k].threads[u]);
  }

  ghost predicate AllDone(m: Machine, rounds: nat) {
    forall t :: 0 <= t < |m.threads| ==> m.threads[t].pc.TryFirst? && m.threads[t].done == rounds
  }

  lemma {:induction false} TotalDone(threads: seq<Thread>, rounds: nat)
    requires forall t :: 0 <= t < |threads| ==> threads[t].done == rounds
    ensures Total(threads) == |threads| * rounds
    decreases |threads|
  {
    if threads != [] { TotalDone(threads[1..], rounds); }
  }

  // When all the workers have finished, no increment has been lost.
  lemma FinalCounter(run: seq<Machine>, rounds: nat, k: nat)
    requires IsRun(run, rounds) && k < |run| && AllDone(run[k], rounds)
    ensures run[k].counter == |run[0].threads| * rounds
    ensures run[k].state == 0
  {
    RunInv(run, rounds, k);
    TotalDone(run[k].threads, rounds);
    CountNone(run[k].threads, Is(Owners));
  }
}
