/**
 The cooperative threads of program 1.7 (`1.7/uthread.c`).

 A routine is what its thread writes between calls of uthread_yield, and what it returns.  A saved
 context is the number of stretches already run.  `swapcontext` is the return of the name of the
 thread that gets the processor next, or null for the main context.
 */
module Uthread {
  import opened Basics

  type Output = string

  datatype State = Ready | Running | Finished

  // `stretches[i]` is written before the yield number i; after the last one the routine returns.
  datatype Routine = Routine(stretches: seq<seq<Output>>, result: int)

  function Flatten(stretches: seq<seq<Output>>): seq<Output> {
    if stretches == [] then [] else stretches[0] + Flatten(stretches[1..])
  }

  lemma FlattenFrom(stretches: seq<seq<Output>>, k: nat)
    requires k < |stretches|
    ensures Flatten(stretches[k..]) == stretches[k] + Flatten(stretches[k + 1..])
    ensures k + 1 == |stretches| ==> Flatten(stretches[k + 1..]) == []
  {
    assert stretches[k..][1..] == stretches[k + 1..];
  }

  class Thread {
    const routine: Routine
    var state: State
    var next: Thread?
    var resume: nat
    var retval: Option<int>
    var stack: bool

    constructor (routine: Routine)
      requires routine.stretches != []
      ensures this.routine == routine
      ensures state == Ready && next == null && resume == 0 && retval == None && stack
    {
      this.routine := routine;
      state := Ready;
      next := null;
      resume := 0;
      retval := None;
      stack := true;
    }

    // It can be given the processor: there is a stretch left to run.
    ghost predicate Resumable()
      reads this`resume, this`retval
    {
      resume < |routine.stretches| && retval == None
    }

    // What it still has to write.
    ghost function Rest(): seq<Output>
      reads this`resume
    {
      if resume <= |routine.stretches| then Flatten(routine.stretches[resume..]) else []
    }

    // It has written everything and left its result.
    ghost predicate Completed()
      reads this`state, this`retval
    {
      state == Finished && retval == Some(routine.result)
    }
  }

  class Scheduler {
    var readyq: Thread?
    var current: Thread?
    var trace: seq<Output>
    ghost var queue: seq<Thread>

    // The threads the scheduler has to do with.
    ghost function Known(): set<Thread>
      reads this
    {
      (set t | t in queue) + (if current == null then {} else {current})
    }

    // The pointers from readyq on are `queue`, without repetition.
    ghost predicate Chained()
      reads this`readyq, this`queue, queue
    {
      && readyq == AtOr(queue, 0, null)
      && (forall i {:trigger queue[i].next} :: 0 <= i < |queue| ==> queue[i].next == AtOr(queue, i + 1, null))
      && Distinct(queue)
    }

    ghost predicate AllReady()
      reads this`queue, queue
    {
      forall t :: t in queue ==> t.state == Ready && t.Resumable()
    }

    ghost predicate Valid()
      reads this`readyq, this`queue, queue
    {
      Chained() && AllReady()
    }

    // What the threads of the queue write when each runs to its end before the next one starts.
    static ghost function Sequential(threads: seq<Thread>): seq<Output>
      reads threads`resume
    {
      if threads == [] then [] else threads[0].Rest() + Sequential(threads[1..])
    }

    constructor ()
      ensures Valid() && queue == [] && trace == [] && current == null
    {
      readyq := null;
      current := null;
      trace := [];
      queue := [];
    }

    method QPush(t: Thread)
      requires Chained() && t !in queue
      modifies this`readyq, this`queue, t`next
      ensures Chained() && queue == [t] + old(queue)
    {
      t.next := readyq;
      readyq := t;
      queue := [t] + queue;
    }

    // Takes thread number i out of the queue.
    method Unlink(before: Thread?, t: Thread, ghost i: nat)
      requires Chained() && i < |queue| && t == queue[i]
      requires before == if i == 0 then null else queue[i - 1]
      modifies this`readyq, this`queue, queue`next
      ensures Chained()
      ensures queue == old(queue)[..i] + old(queue)[i + 1..] && t.next == null && t !in queue
    {
      assert queue[i].next == AtOr(queue, i + 1, null);
      ghost var rest := queue[..i] + queue[i + 1..];
      assert forall j :: 0 <= j < |rest| ==> rest[j] == queue[if j < i then j else j + 1];
      if before == null {
        readyq := t.next;
      } else {
        before.next := t.next;
      }
      t.next := null;
      queue := rest;
    }

    // Takes the first thread of the queue that is ready out of it.
    method QPopReady() returns (t: Thread?, ghost i: nat)
      requires Chained()
      modifies this`readyq, this`queue, queue`next
      ensures Chained()
      ensures i <= |old(queue)|
      ensures forall j :: 0 <= j < i ==> old(queue)[j].state != Ready
      ensures t == null ==> i == |old(queue)| && queue == old(queue)
      ensures t != null ==>
                && i < |old(queue)| && t == old(queue)[i] && t.state == Ready && t.next == null
                && queue == old(queue)[..i] + old(queue)[i + 1..] && t !in queue
      ensures old(AllReady()) ==>
                && AllReady()
                && (if old(queue) == [] then t == null && queue == []
                    else t == old(queue)[0] && queue == old(queue)[1..])
    {
      ghost var all := queue;
      assert AllReady() && all != [] ==> all[0] in all;
      var before: Thread? := null;
      t := readyq;
      i := 0;
      while t != null && t.state != Ready
        invariant 0 <= i <= |queue|
        invariant t == AtOr(queue, i, null)
        invariant before == if i == 0 then null else queue[i - 1]
        invariant forall j :: 0 <= j < i ==> queue[j].state != Ready
        decreases |queue| - i
      {
        assert queue[i].next == AtOr(queue, i + 1, null);
        before := t;
        t := t.next;
        i := i + 1;
      }
      if t != null {
        Unlink(before, t, i);
      }
    }

    // uthread_create; no routine stands for a null argument, `granted` is whether malloc and getcontext succeed.
    method Create(routine: Option<Routine>, granted: bool) returns (r: int, t: Thread?)
      requires Valid() && (routine.Some? ==> routine.value.stretches != [])
      modifies this`readyq, this`queue
      ensures Valid()
      ensures r == if routine.None? || !granted then -1 else 0
      ensures r == -1 ==> t == null && queue == old(queue)
      ensures r == 0 ==> t != null && fresh(t) && t.routine == routine.value && queue == [t] + old(queue)
      ensures r == 0 ==> t.resume == 0 && t.stack
    {
      if routine.None? { return -1, null; }
      if !granted { return -1, null; }
      t := new Thread(routine.value);
      QPush(t);
      r := 0;
    }

    // A running thread goes back to the queue.
    method Requeue(t: Thread)
      requires Valid() && t !in queue && t.Resumable()
      modifies this`readyq, this`queue, t`next, t`state
      ensures Valid() && queue == [t] + old(queue)
    {
      t.state := Ready;
      QPush(t);
    }

    // The first thread of the queue starts to run; null when there is none.
    method Dispatch() returns (to: Thread?)
      requires Valid()
      modifies this`readyq, this`queue, this`current, queue`next, queue`state
      ensures Valid()
      ensures if old(queue) == [] then to == null && queue == [] && current == old(current)
              else to == old(queue)[0] && queue == old(queue)[1..] && current == to
      ensures to != null ==> to.state == Running && to !in queue && to.Resumable()
      ensures forall u :: u in old(queue) && u != to ==> u.state == Ready
    {
      ghost var i;
      to, i := QPopReady();
      if to != null {
        current := to;
        to.state := Running;
      }
    }

    // uthread_yield; the result is the thread whose context gets the processor, null for the main one.
    method Yield() returns (to: Thread?)
      requires Valid()
      requires current != null ==> current !in queue
      requires current != null && current.state == Running ==> current.Resumable()
      modifies this`readyq, this`queue, this`current, Known()`next, Known()`state
      ensures Valid()
      ensures if old(current) != null && old(current.state) == Running then
                to == old(current) && queue == old(queue)
              else if old(queue) == [] then to == null && queue == []
              else to == old(queue)[0] && queue == old(queue)[1..]
      ensures current == if to == null then old(current) else to
      ensures to != null ==> to.state == Running && to !in queue && to.Resumable()
      ensures old(current) != null && old(current) != to ==> old(current).state == old(current.state)
    {
      var prev := current;
      if prev != null && prev.state == Running {
        Requeue(prev);
      }
      to := Dispatch();
    }

    // One stretch of the running thread: up to its next yield, or to its end (uthread_entry).
    method Stretch(t: Thread)
      requires Valid() && t !in queue
      requires t.Resumable() && t.state == Running
      modifies this`trace, t`resume, t`retval, t`state
      ensures Valid() && Sequential(queue) == old(Sequential(queue))
      ensures trace + t.Rest() == old(trace) + old(t.Rest())
      ensures if old(t.resume) + 1 < |t.routine.stretches|
              then t.Resumable() && t.state == Running && t.resume == old(t.resume) + 1
              else t.Completed() && t.Rest() == []
    {
      hide Flatten, Valid;
      FlattenFrom(t.routine.stretches, t.resume);
      trace := trace + t.routine.stretches[t.resume];
      t.resume := t.resume + 1;
      if t.resume == |t.routine.stretches| {
        t.retval := Some(t.routine.result);
        t.state := Finished;
      }
    }

    // How far the threads `all` have come: those before number d are completed, number d runs, the
    // others are queued; with d == |all| the main context has the processor again.
    ghost predicate Progress(all: seq<Thread>, run: Thread?, d: nat)
      reads this, queue, all
    {
      && Valid()
      && d <= |all|
      && Distinct(all)
      && (forall i :: 0 <= i < d ==> all[i].Completed())
      && (if run == null then d == |all| && queue == []
          else d < |all| && run == all[d] && queue == all[d + 1..]
               && current == run && run.state == Running && run.Resumable())
    }

    // What is still to be written by the running thread and the queued ones after it.
    ghost function Ahead(run: Thread?): seq<Output>
      reads this`queue, run, queue`resume
    {
      (if run == null then [] else run.Rest()) + Sequential(queue)
    }

    // One stretch, and the switch that follows it.
    method Turn(run: Thread, ghost all: seq<Thread>, ghost d: nat) returns (to: Thread?, ghost e: nat)
      requires Progress(all, run, d)
      modifies this`readyq, this`queue, this`current, this`trace
      modifies all`next, all`state, run`resume, run`retval
      ensures Progress(all, to, e)
      ensures trace + Ahead(to) == old(trace) + old(Ahead(run))
      ensures e == d ==> to == run && run.resume == old(run.resume) + 1
      ensures d <= e <= d + 1
    {
      hide Valid, Flatten, Thread.Rest, Thread.Resumable;
      ghost var waiting, later := queue, Sequential(queue);
      assert waiting != [] ==> later == waiting[0].Rest() + Sequential(waiting[1..]);
      ghost var before := trace + run.Rest();
      assert before + later == trace + (run.Rest() + later);
      Stretch(run);
      e := if run.state == Finished then d + 1 else d;
      assert before + later == trace + (run.Rest() + later);
      to := Yield();
      assert waiting != [] ==> waiting[1..] == all[d + 2..];
    }

    // From the switch to thread t until somebody switches back to the main context.
    method RunFrom(t: Thread, ghost all: seq<Thread>)
      requires Progress(all, t, 0)
      modifies this`readyq, this`queue, this`current, this`trace
      modifies all`next, all`state, all`resume, all`retval
      ensures Progress(all, null, |all|)
      ensures trace == old(trace) + old(Sequential(all))
    {
      var run: Thread? := t;
      ghost var d := 0;
      assert Sequential(all) == t.Rest() + Sequential(all[1..]);
      while run != null
        invariant Progress(all, run, d)
        invariant trace + Ahead(run) == old(trace) + old(Sequential(all))
        decreases |all| - d, if run == null then 0 else |run.routine.stretches| - run.resume
      {
        run, d := Turn(run, all, d);
      }
    }

    // The first thread of the queue gets the processor; the main context goes on when nobody is left.
    method RunNext() returns (t: Thread?)
      requires Valid()
      modifies this`readyq, this`queue, this`current, this`trace
      modifies queue`next, queue`state, queue`resume, queue`retval
      ensures Valid() && queue == []
      ensures trace == old(trace) + old(Sequential(queue))
      ensures forall u :: u in old(queue) ==> u.Completed()
      ensures t == if old(queue) == [] then null else old(queue)[0]
      ensures t != null ==> t.state == Finished
    {
      hide Thread.Rest;
      ghost var all, later := queue, Sequential(queue);
      t := Dispatch();
      if t != null {
        assert Progress(all, t, 0) by {
          hide Thread.Resumable;
        }
        assert Sequential(all) == later;
        RunFrom(t, all);
      }
    }

    // uthread_run_all: every thread of the queue runs to its end before the next one starts, in the order
    // of the queue, which is the reverse of the order of creation.  Only the stack of the
    // thread that the main context switched to itself is freed.
    method RunAll()
      requires Valid()
      modifies this`readyq, this`queue, this`current, this`trace
      modifies queue`next, queue`state, queue`resume, queue`retval, queue`stack
      ensures Valid() && queue == []
      ensures trace == old(trace) + old(Sequential(queue))
      ensures forall t :: t in old(queue) ==> t.Completed()
      ensures forall i :: 0 <= i < |old(queue)| ==> old(queue)[i].stack == (i > 0 && old(queue[i].stack))
    {
      ghost var all := queue;
      ghost var turn := 0;
      while true
        invariant Valid()
        invariant turn == 0 ==> queue == all && trace == old(trace) && Sequential(all) == old(Sequential(queue))
        invariant turn == 0 ==> forall t :: t in all ==> t.stack == old(t.stack)
        invariant turn > 0 ==> queue == [] && trace == old(trace) + old(Sequential(queue))
        invariant turn > 0 ==> forall t :: t in all ==> t.Completed()
        invariant turn > 0 ==> forall i :: 0 <= i < |all| ==> all[i].stack == (i > 0 && old(all[i].stack))
        decreases |queue|
      {
        var t := RunNext();
        if t == null {
          break;
        }
        if t.state == Finished && t.stack {
          t.stack := false;
        } else if t.state == Ready {
          // the thread would go back to the queue; but the main context runs again only when the
          // queue is empty, and by then t has finished
          assert false;
        }
        turn := turn + 1;
      }
    }
  }

  // What is written when the routine created last runs first, and each runs to its end.
  function Backwards(routines: seq<Routine>): seq<Output> {
    if routines == [] then []
    else Flatten(routines[|routines| - 1].stretches) + Backwards(routines[..|routines| - 1])
  }

  // The queue after threads have been created for the routines one after the other.
  ghost predicate Created(queue: seq<Thread>, routines: seq<Routine>)
    reads queue`resume
  {
    && |queue| == |routines|
    && forall i :: 0 <= i < |queue| ==> queue[i].routine == routines[|routines| - 1 - i] && queue[i].resume == 0
  }

  lemma {:induction false} SequentialIsBackwards(queue: seq<Thread>, routines: seq<Routine>)
    requires Created(queue, routines)
    ensures Scheduler.Sequential(queue) == Backwards(routines)
  {
    if queue != [] {
      var last := routines[|routines| - 1];
      assert last.stretches[0..] == last.stretches;
      SequentialIsBackwards(queue[1..], routines[..|routines| - 1]);
    }
  }

  // Create a thread for each routine, up to the first that cannot be had.
  method CreateAll(s: Scheduler, routines: seq<Routine>, granted: nat -> bool) returns (ok: bool, threads: seq<Thread>)
    requires s.Valid() && s.queue == []
    requires forall i :: 0 <= i < |routines| ==> routines[i].stretches != []
    modifies s`readyq, s`queue
    ensures ok <==> forall i :: 0 <= i < |routines| ==> granted(i)
    ensures ok ==> s.Valid() && fresh(s.queue)
    ensures ok ==> Created(s.queue, routines) && |threads| == |routines|
    ensures ok ==> forall j :: 0 <= j < |routines| ==> threads[j] == s.queue[|routines| - 1 - j]
  {
    hide Scheduler.Valid;
    threads := [];
    for i := 0 to |routines|
      invariant s.Valid() && fresh(s.queue)
      invariant Created(s.queue, routines[..i])
      invariant |threads| == i
      invariant forall j :: 0 <= j < i ==> threads[j] == s.queue[i - 1 - j] && granted(j)
    {
      var r, t := s.Create(Some(routines[i]), granted(i));
      if r != 0 { return false, threads; }
      threads := threads + [t];
    }
    assert routines[..|routines|] == routines;
    ok := true;
  }

  // A main program that creates a thread for each routine and then runs them all.
  method Program(routines: seq<Routine>, granted: nat -> bool)
    returns (code: int, trace: seq<Output>, results: seq<Option<int>>)
    requires forall i :: 0 <= i < |routines| ==> routines[i].stretches != []
    ensures code == if forall i :: 0 <= i < |routines| ==> granted(i) then 0 else 1
    ensures code != 0 ==> trace == []
    ensures code == 0 ==> trace == Backwards(routines) && |results| == |routines|
    ensures code == 0 ==> forall i :: 0 <= i < |routines| ==> results[i] == Some(routines[i].result)
  {
    hide Scheduler.Valid, Scheduler.Sequential, Backwards;
    var s := new Scheduler();
    var ok, threads := CreateAll(s, routines, granted);
    if !ok { return 1, [], []; }
    SequentialIsBackwards(s.queue, routines);
    ghost var queue := s.queue;
    s.RunAll();
    assert forall j :: 0 <= j < |routines| ==> threads[j] == queue[|routines| - 1 - j] && threads[j] in queue;
    code, trace := 0, s.trace;
    results := [];
    for i := 0 to |routines|
      invariant |results| == i
      invariant forall j :: 0 <= j < i ==> results[j] == Some(routines[j].result)
    {
      results := results + [threads[i].retval];
    }
  }
}
