/**
 What the threads that use the futex mutex of program 2.4 can still get done (`2.4/mutex/mutex.c`, `main_mutex.c`).
 A wakeup may be lost; but whoever tries gets a free mutex, and no state is a dead end, since a sleeper may wake up
 unasked.
 */
module FutexProgress {
  import opened Counting
  import opened Futex
  import opened FutexWakeups

  // After the end of `run`, the other run goes on with steps of thread t only.
  ghost predicate Solo(run: seq<Machine>, longer: seq<Machine>, rounds: nat, t: nat) {
    && run != [] && run <= longer
    && (forall k :: |run| - 1 <= k < |longer| - 1 ==> StepOf(longer[k], longer[k + 1], rounds, t))
  }

  ghost predicate StepOf(m: Machine, m': Machine, rounds: nat, t: nat) {
    exists woken: nat :: Enabled(m, rounds, t, woken) && m' == Step(m, t, woken)
  }

  lemma ExtendSolo(run: seq<Machine>, so: seq<Machine>, n: nat, rounds: nat, m: Machine, t: nat, woken: nat)
    returns (longer: seq<Machine>)
    requires Reaches(so, n, rounds, m) && Solo(run, so, rounds, t) && Enabled(m, rounds, t, woken)
    ensures Reaches(longer, n, rounds, Step(m, t, woken)) && Solo(run, longer, rounds, t)
  {
    longer := so + [Step(m, t, woken)];
    assert StepOf(m, Step(m, t, woken), rounds, t);
    forall k | 0 <= k < |longer| - 1 ensures Moves(longer[k], longer[k + 1], rounds) {
      if k < |so| - 1 {
        assert Moves(so[k], so[k + 1], rounds);
      }
    }
  }

  // How many steps a thread that is awake is from trying to lock a free mutex, and from locking it.
  function ToLock(pc: PC): nat {
    match pc
    case TryFirst => 1
    case TryAgain => 1
    case Load => 2
    case Mark => 2
    case Wait => 2
    case _ => 0
  }

  // A thread with rounds left that is neither asleep nor about to wake another gets a free mutex by steps of its own.
  lemma {:induction false} GetsTheMutex(run: seq<Machine>, so: seq<Machine>, n: nat, rounds: nat, m: Machine, t: nat)
    returns (longer: seq<Machine>, m': Machine)
    requires Reaches(so, n, rounds, m) && Solo(run, so, rounds, t)
    requires m.state == 0 && t < n && m.threads[t].done < rounds
    requires !m.threads[t].pc.Sleeping? && !m.threads[t].pc.WakeUp?
    ensures Reaches(longer, n, rounds, m') && Solo(run, longer, rounds, t)
    ensures m'.state == 1 && m'.counter == m.counter
    ensures m'.threads == m.threads[t := m.threads[t].(pc := Read)] && Owns(m'.threads[t])
    decreases ToLock(m.threads[t].pc)
  {
    RunInv(so, rounds, |so| - 1);
    assert !Owns(m.threads[t]) by {
      if Owns(m.threads[t]) {
        CountUpdate(m.threads, t, m.threads[t], Is(Owners));
      }
    }
    longer := ExtendSolo(run, so, n, rounds, m, t, 0);
    m' := Step(m, t, 0);
    if !Owns(m'.threads[t]) {
      longer, m' := GetsTheMutex(run, longer, n, rounds, m', t);
    }
  }

  // An owner counts once more and gives the mutex back, by steps of its own.
  lemma {:induction false} GivesItBack(run: seq<Machine>, so: seq<Machine>, n: nat, rounds: nat, m: Machine, t: nat)
    returns (longer: seq<Machine>, m': Machine)
    requires Reaches(so, n, rounds, m) && Solo(run, so, rounds, t) && t < n && Owns(m.threads[t])
    ensures Reaches(longer, n, rounds, m') && Solo(run, longer, rounds, t)
    ensures m'.state == 0 && (m'.threads[t].pc.TryFirst? || m'.threads[t].pc.WakeUp?)
    ensures m'.threads == m.threads[t := m'.threads[t]]
    ensures m'.threads[t].done == m.threads[t].done + (if m.threads[t].pc.Exchange? then 0 else 1)
    decreases if m.threads[t].pc.Read? then 2 else if m.threads[t].pc.Write? then 1 else 0
  {
    longer := ExtendSolo(run, so, n, rounds, m, t, 0);
    m' := Step(m, t, 0);
    if Owns(m'.threads[t]) {
      longer, m' := GivesItBack(run, longer, n, rounds, m', t);
    }
  }

  predicate Finished(th: Thread, rounds: nat) { th.pc.TryFirst? && th.done == rounds }

  // Others are only ever woken.
  ghost predicate Spares(m: Machine, m': Machine, t: nat) {
    && |m'.threads| == |m.threads|
    && (forall u :: 0 <= u < |m.threads| && u != t ==>
          || m'.threads[u] == m.threads[u]
          || (m.threads[u].pc.Sleeping? && m'.threads[u] == m.threads[u].(pc := TryAgain)))
  }

  lemma {:induction false} FinishThread(run: seq<Machine>, n: nat, rounds: nat, m: Machine, t: nat)
    returns (longer: seq<Machine>, m': Machine)
    requires Reaches(run, n, rounds, m) && m.state == 0 && t < n
    ensures Reaches(longer, n, rounds, m') && run <= longer
    ensures m'.state == 0 && Finished(m'.threads[t], rounds) && Spares(m, m', t)
    decreases 2 * (rounds as int - m.threads[t].done) + (if m.threads[t].pc.WakeUp? then 1 else 0)
  {
    RunInv(run, rounds, |run| - 1);
    var th := m.threads[t];
    longer, m' := run, m;
    if th.pc.WakeUp? {
      var u: nat := if SomeoneSleeps(m) then Sleeper(m) else 0;
      longer := Extend(run, n, rounds, m, t, u);
      m' := Step(m, t, u);
      longer, m' := FinishThread(longer, n, rounds, m', t);
    } else if th.done < rounds {
      if th.pc.Sleeping? {
        longer := Extend(longer, n, rounds, m', t, 0);
        m' := Step(m', t, 0);
      }
      longer, m' := GetsTheMutex(longer, longer, n, rounds, m', t);
      longer, m' := GivesItBack(longer, longer, n, rounds, m', t);
      longer, m' := FinishThread(longer, n, rounds, m', t);
    } else {
      assert !Owns(th) by {
        if Owns(th) {
          CountUpdate(m.threads, t, th, Is(Owners));
        }
      }
    }
  }

  ghost function Sleeper(m: Machine): nat
    requires SomeoneSleeps(m)
    ensures Sleeper(m) < |m.threads| && m.threads[Sleeper(m)].pc.Sleeping?
  {
    var u :| 0 <= u < |m.threads| && m.threads[u].pc.Sleeping?;
    u
  }

  lemma {:induction false} FinishFirst(run: seq<Machine>, n: nat, rounds: nat, m: Machine, k: nat)
    returns (longer: seq<Machine>, m': Machine)
    requires Reaches(run, n, rounds, m) && m.state == 0 && k <= n
    ensures Reaches(longer, n, rounds, m') && run <= longer
    ensures m'.state == 0 && forall t :: 0 <= t < k ==> Finished(m'.threads[t], rounds)
    decreases k
  {
    longer, m' := run, m;
    if k > 0 {
      longer, m' := FinishFirst(longer, n, rounds, m', k - 1);
      longer, m' := FinishThread(longer, n, rounds, m', k - 1);
    }
  }

  // Every reachable state can be continued to one in which all workers have done all their rounds, and then
  // the counter is their product.
  lemma AllCanFinish(run: seq<Machine>, n: nat, rounds: nat, m: Machine) returns (longer: seq<Machine>, m': Machine)
    requires Reaches(run, n, rounds, m)
    ensures Reaches(longer, n, rounds, m') && run <= longer
    ensures AllDone(m', rounds) && m'.counter == n * rounds
  {
    longer, m' := run, m;
    if m.state != 0 {
      RunInv(run, rounds, |run| - 1);
      var o := CountWitness(m.threads, Is(Owners));
      longer, m' := GivesItBack(longer, longer, n, rounds, m', o);
    }
    longer, m' := FinishFirst(longer, n, rounds, m', n);
    FinalCounter(longer, rounds, |longer| - 1);
  }
}
