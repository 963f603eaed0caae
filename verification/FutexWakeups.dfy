/**
 Whether a thread that waits for the futex mutex of program 2.4 is ever woken (`2.4/mutex/mutex.c`).  With T workers of
 N rounds each, a run can leave one of them asleep for good, with the mutex free and everybody else
 done, exactly when T >= 4 and N >= 1, or T == 3 and N >= 2.
 */
module FutexWakeups {
  import opened Counting
  import opened Futex

  // Nothing more can happen on its own: somebody sleeps, and every other thread has finished or sleeps too.
  ghost predicate Stranded(m: Machine, rounds: nat) {
    && m.state == 0 && SomeoneSleeps(m)
    && (forall t: nat, woken: nat :: Enabled(m, rounds, t, woken) ==> m.threads[t].pc.Sleeping?)
  }

  ghost predicate Reaches(run: seq<Machine>, n: nat, rounds: nat, m: Machine) {
    IsRun(run, rounds) && |run[0].threads| == n == |m.threads| && run[|run| - 1] == m
  }

  ghost predicate CanStrand(n: nat, rounds: nat) {
    exists run, m :: Reaches(run, n, rounds, m) && Stranded(m, rounds)
  }

  // Too few threads, or rounds, for two of them to sleep on one mark.
  predicate Few(n: nat, rounds: nat) { n <= 2 || (n == 3 && rounds <= 1) || rounds == 0 }

  // ----- with few threads a wakeup is never lost

  predicate Parked(th: Thread) { th.pc.Wait? || th.pc.Sleeping? }

  predicate Retired(th: Thread) { th.done >= 1 && (th.pc.TryFirst? || th.pc.WakeUp?) }

  // Somebody is parked only on a mark that is still there, or after somebody else has finished.
  ghost predicate MarkStands(m: Machine, rounds: nat) {
    rounds <= 1 ==>
      forall t :: 0 <= t < |m.threads| && Parked(m.threads[t]) ==>
        m.state == 2 || exists u :: 0 <= u < |m.threads| && Retired(m.threads[u])
  }

  ghost predicate OneParked(m: Machine) {
    forall t, u | 0 <= t < |m.threads| && 0 <= u < |m.threads| ::
      Parked(m.threads[t]) && Parked(m.threads[u]) ==> t == u
  }

  // Whoever sleeps is going to be woken.
  ghost predicate WakeupComes(m: Machine) {
    forall t :: 0 <= t < |m.threads| && m.threads[t].pc.Sleeping? ==>
      m.state == 2 || exists u :: 0 <= u < |m.threads| && m.threads[u].pc.WakeUp?
  }

  ghost predicate Watched(m: Machine, rounds: nat) {
    MarkStands(m, rounds) && OneParked(m) && WakeupComes(m)
  }

  lemma StepMarkStands(m: Machine, rounds: nat, t: nat, woken: nat)
    requires Inv(m, rounds) && Enabled(m, rounds, t, woken) && MarkStands(m, rounds)
    ensures MarkStands(Step(m, t, woken), rounds)
  {
    var m' := Step(m, t, woken);
    if rounds <= 1 {
      forall u | 0 <= u < |m'.threads| && Parked(m'.threads[u])
        ensures m'.state == 2 || exists v :: 0 <= v < |m'.threads| && Retired(m'.threads[v])
      {
        if m.threads[t].pc.Exchange? || m.threads[t].pc.WakeUp? {
          RetiredNow(m, rounds, t, woken);
        } else if v :| 0 <= v < |m.threads| && Retired(m.threads[v]) {
          assert v != t && m'.threads[v] == m.threads[v];
        } else {
          assert m'.state == 2;
        }
      }
    }
  }

  lemma RetiredNow(m: Machine, rounds: nat, t: nat, woken: nat)
    requires Inv(m, rounds) && Enabled(m, rounds, t, woken)
    requires m.threads[t].pc.Exchange? || m.threads[t].pc.WakeUp?
    ensures Retired(Step(m, t, woken).threads[t])
  {
  }

  // Marking the mutex while another thread is parked takes four threads: the two, the owner, and, when
  // nobody has more than one round, one that has finished.
  lemma NobodyParkedAtMark(m: Machine, rounds: nat, t: nat, u: nat)
    requires Inv(m, rounds) && MarkStands(m, rounds) && Few(|m.threads|, rounds)
    requires t < |m.threads| && m.threads[t].pc.Mark? && m.state == 1
    requires u < |m.threads|
    ensures !Parked(m.threads[u])
  {
    var o := CountWitness(m.threads, Is(Owners));
    if Parked(m.threads[u]) {
      assert |m.threads| == 3 && rounds == 1;
      var v :| 0 <= v < |m.threads| && Retired(m.threads[v]);
    }
  }

  lemma StepOneParked(m: Machine, rounds: nat, t: nat, woken: nat)
    requires Inv(m, rounds) && Enabled(m, rounds, t, woken) && Few(|m.threads|, rounds)
    requires MarkStands(m, rounds) && OneParked(m)
    ensures OneParked(Step(m, t, woken))
  {
    var m' := Step(m, t, woken);
    if m.threads[t].pc.Mark? && m.state == 1 {
      forall u | 0 <= u < |m.threads| && u != t ensures !Parked(m'.threads[u]) {
        NobodyParkedAtMark(m, rounds, t, u);
      }
    } else {
      assert forall u :: 0 <= u < |m.threads| && Parked(m'.threads[u]) ==> Parked(m.threads[u]);
    }
  }

  lemma StepWakeupComes(m: Machine, rounds: nat, t: nat, woken: nat)
    requires Enabled(m, rounds, t, woken) && OneParked(m) && WakeupComes(m)
    ensures WakeupComes(Step(m, t, woken))
  {
    var m' := Step(m, t, woken);
    forall u | 0 <= u < |m'.threads| && m'.threads[u].pc.Sleeping?
      ensures m'.state == 2 || exists v :: 0 <= v < |m'.threads| && m'.threads[v].pc.WakeUp?
    {
      if m.threads[t].pc.Exchange? && m.state == 2 {
        assert m'.threads[t].pc.WakeUp?;
      } else if m.threads[t].pc.WakeUp? {
        assert Parked(m.threads[woken]);
      } else if v :| 0 <= v < |m.threads| && m.threads[v].pc.WakeUp? {
        assert m'.threads[v].pc.WakeUp?;
      }
    }
  }

  lemma {:induction false} RunWatched(run: seq<Machine>, rounds: nat, k: nat)
    requires IsRun(run, rounds) && k < |run| && Few(|run[0].threads|, rounds)
    ensures Watched(run[k], rounds)
  {
    if k > 0 {
      RunWatched(run, rounds, k - 1);
      RunInv(run, rounds, k - 1);
      assert Moves(run[k - 1], run[k], rounds);
      var t: nat, woken: nat :| Enabled(run[k - 1], rounds, t, woken) && run[k] == Step(run[k - 1], t, woken);
      hide Inv, Enabled, MarkStands, OneParked, WakeupComes;
      StepMarkStands(run[k - 1], rounds, t, woken);
      StepOneParked(run[k - 1], rounds, t, woken);
      StepWakeupComes(run[k - 1], rounds, t, woken);
    }
  }

  lemma FewNeverStrand(run: seq<Machine>, rounds: nat, k: nat)
    requires IsRun(run, rounds) && k < |run| && Few(|run[0].threads|, rounds)
    ensures !Stranded(run[k], rounds)
  {
    RunWatched(run, rounds, k);
    var m := run[k];
    if m.state == 0 && SomeoneSleeps(m) {
      var u :| 0 <= u < |m.threads| && m.threads[u].pc.WakeUp?;
      var woken: nat :| woken < |m.threads| && m.threads[woken].pc.Sleeping?;
      assert Enabled(m, rounds, u, woken);
    }
  }

  // ----- with more, a run leaves a sleeper behind

  lemma Extend(run: seq<Machine>, n: nat, rounds: nat, m: Machine, t: nat, woken: nat) returns (longer: seq<Machine>)
    requires Reaches(run, n, rounds, m) && Enabled(m, rounds, t, woken)
    ensures Reaches(longer, n, rounds, Step(m, t, woken)) && run <= longer
  {
    var m' := Step(m, t, woken);
    longer := run + [m'];
    forall k | 0 <= k < |longer| - 1 ensures Moves(longer[k], longer[k + 1], rounds) {
      if k < |run| - 1 {
        assert Moves(run[k], run[k + 1], rounds);
      }
    }
  }

  // A free mutex is locked.
  lemma Acquire(run: seq<Machine>, n: nat, rounds: nat, m: Machine, t: nat)
    returns (longer: seq<Machine>, m': Machine)
    requires Reaches(run, n, rounds, m) && t < n && m.state == 0
    requires m.threads[t].pc.TryAgain? || (m.threads[t].pc.TryFirst? && m.threads[t].done < rounds)
    ensures Reaches(longer, n, rounds, m')
    ensures m'.state == 1 && m'.threads == m.threads[t := m.threads[t].(pc := Read)]
  {
    longer := Extend(run, n, rounds, m, t, 0);
    m' := Step(m, t, 0);
  }

  // A locked mutex is marked as contended.
  lemma Contend(run: seq<Machine>, n: nat, rounds: nat, m: Machine, t: nat)
    returns (longer: seq<Machine>, m': Machine)
    requires Reaches(run, n, rounds, m) && t < n && m.state == 1
    requires m.threads[t].pc.TryFirst? && m.threads[t].done < rounds
    ensures Reaches(longer, n, rounds, m')
    ensures m'.state == 2 && m'.threads == m.threads[t := m.threads[t].(pc := Wait)]
  {
    longer := Extend(run, n, rounds, m, t, 0);
    var m1 := Step(m, t, 0);
    longer := Extend(longer, n, rounds, m1, t, 0);
    var m2 := Step(m1, t, 0);
    longer := Extend(longer, n, rounds, m2, t, 0);
    m' := Step(m2, t, 0);
  }

  // The owner counts, and gives the mutex back; with state 2 it is then about to wake somebody.
  lemma CountAndUnlock(run: seq<Machine>, n: nat, rounds: nat, m: Machine, t: nat)
    returns (longer: seq<Machine>, m': Machine)
    requires Reaches(run, n, rounds, m) && t < n && m.threads[t].pc.Read?
    ensures Reaches(longer, n, rounds, m')
    ensures m'.state == 0
    ensures var pc := if m.state == 2 then WakeUp else TryFirst;
            m'.threads == m.threads[t := Thread(pc, m.counter, m.threads[t].done + 1)]
  {
    longer := Extend(run, n, rounds, m, t, 0);
    var m1 := Step(m, t, 0);
    longer := Extend(longer, n, rounds, m1, t, 0);
    var m2 := Step(m1, t, 0);
    longer := Extend(longer, n, rounds, m2, t, 0);
    m' := Step(m2, t, 0);
  }

  lemma FallAsleep(run: seq<Machine>, n: nat, rounds: nat, m: Machine, t: nat)
    returns (longer: seq<Machine>, m': Machine)
    requires Reaches(run, n, rounds, m) && t < n && m.threads[t].pc.Wait? && m.state == 2
    ensures Reaches(longer, n, rounds, m')
    ensures m'.state == 2 && m'.threads == m.threads[t := m.threads[t].(pc := Sleeping)]
  {
    longer := Extend(run, n, rounds, m, t, 0);
    m' := Step(m, t, 0);
  }

  // Thread 1 marks the mutex that thread 0 holds, and is delayed; the wakeup of thread 0 finds nobody.
  lemma WakeupWasted(n: nat, rounds: nat) returns (run: seq<Machine>, m: Machine)
    requires n >= 3 && rounds >= 1
    ensures Reaches(run, n, rounds, m) && m.state == 0
    ensures m.threads[0].pc.TryFirst? && m.threads[0].done == 1
    ensures m.threads[1].pc.Wait? && m.threads[1].done == 0
    ensures forall t :: 2 <= t < n ==> m.threads[t] == Thread(TryFirst, 0, 0)
  {
    m := Machine(0, 0, seq(n, _ => Thread(TryFirst, 0, 0)), 0, 0, 0);
    run := [m];
    run, m := Acquire(run, n, rounds, m, 0);
    run, m := Contend(run, n, rounds, m, 1);
    run, m := CountAndUnlock(run, n, rounds, m, 0);
    assert !SomeoneSleeps(m);
    run := Extend(run, n, rounds, m, 0, n);
    m := Step(m, 0, n);
  }

  // Thread c locks, d marks the mutex again and sleeps, and 1 falls asleep beside it on the same mark; the one
  // wakeup of c goes to 1.
  lemma TwoSleepOnOneMark(n: nat, rounds: nat, c: nat, d: nat) returns (run: seq<Machine>, m: Machine)
    requires rounds >= 1 && c < n && 2 <= d < n && c != d && c != 1 && (c == 0 ==> rounds >= 2)
    ensures Reaches(run, n, rounds, m) && m.state == 0
    ensures m.threads[1].pc.TryAgain? && m.threads[1].done == 0
    ensures m.threads[d].pc.Sleeping?
    ensures forall t :: 0 <= t < n && t != 1 && t != d ==> m.threads[t].pc.TryFirst? && m.threads[t].done <= rounds
  {
    run, m := WakeupWasted(n, rounds);
    run, m := Acquire(run, n, rounds, m, c);
    run, m := Contend(run, n, rounds, m, d);
    run, m := FallAsleep(run, n, rounds, m, d);
    run, m := FallAsleep(run, n, rounds, m, 1);
    run, m := CountAndUnlock(run, n, rounds, m, c);
    run := Extend(run, n, rounds, m, c, 1);
    m := Step(m, c, 1);
  }

  // The mutex is free, d sleeps, nobody has anything to do with the mutex at the moment.
  ghost predicate Quiet(m: Machine, rounds: nat, d: nat) {
    && m.state == 0 && d < |m.threads| && m.threads[d].pc.Sleeping?
    && forall t :: 0 <= t < |m.threads| && t != d ==> m.threads[t].pc.TryFirst? && m.threads[t].done <= rounds
  }

  // Thread 1 relocks with state 1, so its unlock wakes nobody.
  lemma SleeperForgotten(n: nat, rounds: nat, c: nat, d: nat) returns (run: seq<Machine>, m: Machine)
    requires rounds >= 1 && c < n && 2 <= d < n && c != d && c != 1 && (c == 0 ==> rounds >= 2)
    ensures Reaches(run, n, rounds, m) && Quiet(m, rounds, d)
  {
    run, m := TwoSleepOnOneMark(n, rounds, c, d);
    run, m := Acquire(run, n, rounds, m, 1);
    run, m := CountAndUnlock(run, n, rounds, m, 1);
  }

  // The others finish one after the other, and none of them wakes d.
  lemma {:induction false} FinishOne(run: seq<Machine>, n: nat, rounds: nat, m: Machine, d: nat, t: nat)
    returns (longer: seq<Machine>, m': Machine)
    requires Reaches(run, n, rounds, m) && Quiet(m, rounds, d) && t < n && t != d
    ensures Reaches(longer, n, rounds, m') && Quiet(m', rounds, d)
    ensures m'.threads[t].done == rounds
    ensures forall u :: 0 <= u < n && u != t ==> m'.threads[u] == m.threads[u]
    decreases rounds - m.threads[t].done
  {
    longer, m' := run, m;
    if m.threads[t].done < rounds {
      longer, m' := Acquire(longer, n, rounds, m', t);
      longer, m' := CountAndUnlock(longer, n, rounds, m', t);
      longer, m' := FinishOne(longer, n, rounds, m', d, t);
    }
  }

  lemma {:induction false} FinishAll(run: seq<Machine>, n: nat, rounds: nat, m: Machine, d: nat, k: nat)
    returns (longer: seq<Machine>, m': Machine)
    requires Reaches(run, n, rounds, m) && Quiet(m, rounds, d) && k <= n
    ensures Reaches(longer, n, rounds, m') && Quiet(m', rounds, d)
    ensures forall t :: 0 <= t < k && t != d ==> m'.threads[t].done == rounds
    decreases k
  {
    longer, m' := run, m;
    if k > 0 {
      longer, m' := FinishAll(longer, n, rounds, m', d, k - 1);
      if k - 1 != d {
        longer, m' := FinishOne(longer, n, rounds, m', d, k - 1);
      }
    }
  }

  lemma ManyStrand(n: nat, rounds: nat) returns (run: seq<Machine>, m: Machine)
    requires !Few(n, rounds)
    ensures Reaches(run, n, rounds, m) && Stranded(m, rounds)
  {
    var c, d := if n == 3 then 0 else 2, if n == 3 then 2 else 3;
    run, m := SleeperForgotten(n, rounds, c, d);
    run, m := FinishAll(run, n, rounds, m, d, n);
  }

  // The mutex promises that a waiting thread is woken to few threads, and to no more.
  lemma StrandsExactlyWhen(n: nat, rounds: nat)
    ensures CanStrand(n, rounds) <==> (n >= 4 && rounds >= 1) || (n == 3 && rounds >= 2)
  {
    if Few(n, rounds) {
      forall run, m | Reaches(run, n, rounds, m) ensures !Stranded(m, rounds) {
        FewNeverStrand(run, rounds, |run| - 1);
      }
    } else {
      var run, m := ManyStrand(n, rounds);
    }
  }
}
