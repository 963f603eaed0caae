/**
 The queue of the thread pool (`threadpool/threadpool.c`), each method as it runs under the pool's lock.
 */
module TaskQueue {
  import opened Basics

  type Job = nat

  class Task {
    const job: Job
    var next: Task?

    constructor (job: Job)
      ensures this.job == job && next == null
    {
      this.job := job;
      next := null;
    }
  }

  function Jobs(tasks: seq<Task>): (r: seq<Job>)
    ensures |r| == |tasks|
  {
    seq(|tasks|, i requires 0 <= i < |tasks| => tasks[i].job)
  }

  datatype Change = Nothing | Submitted(job: Job) | Taken | Stopped

  // Nobody else takes tasks.
  predicate Alone(changes: seq<Change>) { Taken !in changes }

  // The jobs submitted before the pool is stopped: the others are refused.
  function Added(changes: seq<Change>, stop: bool): seq<Job> {
    if stop || changes == [] then []
    else (if changes[0].Submitted? then [changes[0].job] else []) + Added(changes[1..], changes[0].Stopped?)
  }

  predicate Stops(changes: seq<Change>, stop: bool) { stop || Stopped in changes }

  lemma JobsOfMore(before: seq<Task>, after: seq<Task>, job: Job)
    requires |after| == |before| + 1 && after[..|before|] == before && after[|before|].job == job
    ensures Jobs(after) == Jobs(before) + [job]
  {
  }

  // `done` are the jobs of the tasks number mine[0] < mine[1] < ..., which were taken between `from` and `to`: all
  // of those when the worker is alone.
  ghost predicate Ran(accepted: seq<Task>, from: nat, to: nat, mine: seq<nat>, done: seq<Job>, alone: bool) {
    && from <= to <= |accepted| && |mine| == |done|
    && (forall i :: 0 <= i < |mine| ==> from <= mine[i] < to && done[i] == accepted[mine[i]].job)
    && (forall i, j :: 0 <= i < j < |mine| ==> mine[i] < mine[j])
    && (alone ==> |mine| == to - from && forall i :: 0 <= i < |mine| ==> mine[i] == from + i)
  }

  datatype Seen = Seen(accepted: seq<Task>, taken: nat, stop: bool)

  // How a worker finds the pool when these changes are still to come: it has run the tasks it has taken, and as many
  // jobs will have been accepted, and the pool stopped or not, as was to be expected at first.
  ghost predicate Goes(was: Seen, changes: seq<Change>, now: Seen, rest: seq<Change>, mine: seq<nat>, done: seq<Job>) {
    && was.accepted <= now.accepted && |rest| <= |changes|
    && Ran(now.accepted, was.taken, now.taken, mine, done, Alone(changes))
    && (Alone(changes) ==> Alone(rest))
    && Jobs(now.accepted) + Added(rest, now.stop) == Jobs(was.accepted) + Added(changes, was.stop)
    && Stops(rest, now.stop) == Stops(changes, was.stop)
  }

  lemma GoesStart(was: Seen, changes: seq<Change>)
    requires was.taken <= |was.accepted|
    ensures Goes(was, changes, was, changes, [], [])
  {
  }

  // The next of the changes.
  ghost predicate Happens(was: Seen, change: Change, now: Seen) {
    && was.accepted <= now.accepted && now.taken <= |now.accepted|
    && was.taken <= now.taken && (!change.Taken? ==> now.taken == was.taken)
    && now.stop == (was.stop || change.Stopped?)
    && Jobs(now.accepted) == Jobs(was.accepted) + if change.Submitted? && !was.stop then [change.job] else []
  }

  lemma GoesOne(was: Seen, changes: seq<Change>, now: Seen, rest: seq<Change>, next: Seen)
    requires Goes(was, changes, now, rest, [], []) && rest != [] && Happens(now, rest[0], next)
    ensures Goes(was, changes, next, rest[1..], [], [])
  {
    assert rest == [rest[0]] + rest[1..];
  }

  lemma GoesOn(was: Seen, changes: seq<Change>, now: Seen, some: seq<Change>, mine: seq<nat>, done: seq<Job>,
               next: Seen, rest: seq<Change>)
    requires Goes(was, changes, now, some, mine, done) && Goes(now, some, next, rest, [], [])
    ensures Goes(was, changes, next, rest, mine, done)
  {
  }

  lemma GoesTake(was: Seen, changes: seq<Change>, now: Seen, rest: seq<Change>, mine: seq<nat>, done: seq<Job>)
    requires Goes(was, changes, now, rest, mine, done) && now.taken < |now.accepted|
    ensures Goes(was, changes, now.(taken := now.taken + 1), rest, mine + [now.taken],
                 done + [now.accepted[now.taken].job])
  {
  }

  lemma GoesAll(was: Seen, changes: seq<Change>, now: Seen, rest: seq<Change>, mine: seq<nat>, done: seq<Job>)
    requires Goes(was, changes, now, rest, mine, done) && (now.stop || rest == [])
    requires was.taken <= |was.accepted| && now.taken == |now.accepted|
    ensures now.stop == Stops(changes, was.stop)
    ensures Ran(now.accepted, was.taken, now.taken, mine, done, Alone(changes))
    ensures Jobs(now.accepted) == Jobs(was.accepted) + Added(changes, was.stop)
    ensures Alone(changes) ==> done == Jobs(was.accepted[was.taken..]) + Added(changes, was.stop)
  {
    assert |Jobs(now.accepted)| == |was.accepted| + |Added(changes, was.stop)|;
    if Alone(changes) {
      assert done == Jobs(now.accepted)[was.taken..];
      assert Jobs(was.accepted[was.taken..]) == Jobs(was.accepted)[was.taken..];
    }
  }

  class Pool {
    var head: Task?
    var tail: Task?
    var stop: bool
    // the tasks accepted so far, in order, and how many of them have been taken out again
    ghost var accepted: seq<Task>
    ghost var taken: nat

    // The queue holds the accepted tasks that have not been taken.
    ghost predicate Valid()
      ensures Valid() ==> taken <= |accepted| && (head == null <==> taken == |accepted|)
      reads this, accepted`next
    {
      && taken <= |accepted|
      && Distinct(accepted)
      && head == AtOr(accepted, taken, null)
      && tail == (if taken < |accepted| then accepted[|accepted| - 1] else null)
      && (forall i {:trigger accepted[i].next} :: taken <= i < |accepted| ==>
            accepted[i].next == AtOr(accepted, i + 1, null))
    }

    constructor ()
      ensures Valid() && accepted == [] && !stop
    {
      head, tail, stop := null, null, false;
      accepted, taken := [], 0;
    }

    // threadPoolSubmit; no job stands for a null function, `made` is whether malloc gives a task.
    method Submit(job: Option<Job>, made: bool) returns (r: int)
      requires Valid()
      modifies this`head, this`tail, this`accepted, accepted`next
      ensures Valid()
      ensures r == if job.None? || !made || stop then -1 else 0
      ensures r == -1 ==> accepted == old(accepted)
      ensures r == 0 ==> |accepted| == |old(accepted)| + 1 && accepted[..|old(accepted)|] == old(accepted)
      ensures r == 0 ==> fresh(accepted[|old(accepted)|]) && accepted[|old(accepted)|].job == job.value
    {
      if job.None? { return -1; }
      if !made { return -1; }
      var task := new Task(job.value);
      if stop { return -1; }
      assert task !in accepted;
      if tail != null {
        tail.next := task;
        tail := task;
      } else {
        head, tail := task, task;
      }
      accepted := accepted + [task];
      return 0;
    }

    // A worker takes the first task, once it has stopped waiting; null tells it to leave.
    method Take() returns (task: Task?)
      requires Valid() && (stop || head != null)
      modifies this`head, this`tail, this`taken
      ensures Valid()
      ensures if old(taken) == |accepted| then task == null && taken == old(taken)
              else task == accepted[old(taken)] && taken == old(taken) + 1
    {
      if stop && head == null { return null; }
      assert accepted[taken].next == AtOr(accepted, taken + 1, null);
      task := head;
      head := task.next;
      if head == null { tail := null; }
      taken := taken + 1;
    }

    ghost function Now(): Seen reads this { Seen(accepted, taken, stop) }

    // What the rest of the program does to the pool before the worker next holds its lock.
    method Meanwhile(change: Change)
      requires Valid()
      modifies this`head, this`tail, this`accepted, this`taken, this`stop, accepted`next
      ensures Valid() && Happens(old(Now()), change, Now())
      ensures change.Taken? ==> taken == old(taken) + One(old(head) != null)
      ensures forall i :: |old(accepted)| <= i < |accepted| ==> fresh(accepted[i])
    {
      assert Jobs(accepted) + [] == Jobs(accepted);
      match change {
        case Nothing =>
        case Submitted(job) =>
          ghost var before := accepted;
          var r := Submit(Some(job), true);
          if r == 0 { JobsOfMore(before, accepted, job); }
        case Taken =>
          if head != null {
            var _ := Take();
          }
        case Stopped => stop := true;
      }
    }

    // A worker locks the pool and waits on has_work until there is a task or the pool is stopped; `asleep`: nothing
    // more is going to happen, and it still waits.  One change comes before each time that it gets the lock.
    method Await(changes: seq<Change>) returns (rest: seq<Change>, asleep: bool)
      requires Valid()
      modifies this`head, this`tail, this`accepted, this`taken, this`stop, accepted`next
      ensures Valid() && old(accepted) <= accepted && Goes(old(Now()), changes, Now(), rest, [], [])
      ensures forall i :: |old(accepted)| <= i < |accepted| ==> fresh(accepted[i])
      ensures asleep <==> !stop && head == null
      ensures asleep ==> rest == []
      ensures |rest| < |changes| || (rest == changes == [] && Now() == old(Now()))
    {
      hide Valid, Goes;
      GoesStart(Now(), changes);
      rest := changes;
      while true
        invariant Valid() && old(accepted) <= accepted && Goes(old(Now()), changes, Now(), rest, [], [])
        invariant forall i :: |old(accepted)| <= i < |accepted| ==> fresh(accepted[i])
        invariant |rest| < |changes| || (rest == changes && Now() == old(Now()))
        decreases |rest|
      {
        if rest != [] {
          ghost var before := Now();
          Meanwhile(rest[0]);
          GoesOne(old(Now()), changes, before, rest, Now());
          rest := rest[1..];
        }
        if stop || head != null { return rest, false; }
        if rest == [] { return rest, true; }
      }
    }

    // workerLoop: changes[k] happens before the worker gets the pool's lock for the time number k, and nothing
    // after the last of them.  The worker runs accepted tasks in their order; when nobody else takes any, those that
    // were waiting and all that are submitted before the pool is stopped.  It leaves exactly when the pool has been or
    // is stopped, and else it ends up asleep; either way every accepted task has been taken.
    method Work(changes: seq<Change>) returns (done: seq<Job>, left: bool, ghost mine: seq<nat>)
      requires Valid()
      modifies this`head, this`tail, this`accepted, this`taken, this`stop, accepted`next
      ensures Valid() && old(accepted) <= accepted
      ensures left == stop == Stops(changes, old(stop)) && taken == |accepted|
      ensures Jobs(accepted) == Jobs(old(accepted)) + Added(changes, old(stop))
      ensures Ran(accepted, old(taken), taken, mine, done, Alone(changes))
      ensures Alone(changes) ==> done == Jobs(old(accepted[taken..])) + Added(changes, old(stop))
    {
      hide Valid, Goes, Ran, Jobs, Alone, Added, Stops;
      done, mine := [], [];
      GoesStart(Now(), changes);
      var rest := changes;
      while true
        invariant Valid() && old(accepted) <= accepted && Goes(old(Now()), changes, Now(), rest, mine, done)
        invariant forall i :: |old(accepted)| <= i < |accepted| ==> fresh(accepted[i])
        decreases |rest|, |accepted| - taken
      {
        ghost var before, some := Now(), rest;
        var asleep;
        rest, asleep := Await(rest);
        GoesOn(old(Now()), changes, before, some, mine, done, Now(), rest);
        if asleep { left := false; break; }
        ghost var waited := Now();
        var task := Take();
        if task == null { left := true; break; }
        GoesTake(old(Now()), changes, waited, rest, mine, done);
        done, mine := done + [task.job], mine + [taken - 1];
      }
      GoesAll(old(Now()), changes, Now(), rest, mine, done);
    }

    // The loop at the end of threadPoolStop: what it frees without having run it.
    method Discard() returns (freed: seq<Task>)
      requires Valid()
      ensures freed == accepted[taken..]
      ensures freed == [] <==> taken == |accepted|
    {
      freed := [];
      var cur := head;
      while cur != null
        invariant taken + |freed| <= |accepted| && freed == accepted[taken..taken + |freed|]
        invariant cur == AtOr(accepted, taken + |freed|, null)
        decreases |accepted| - |freed|
      {
        assert accepted[taken + |freed|].next == AtOr(accepted, taken + |freed| + 1, null);
        var next := cur.next;
        freed := freed + [cur];
        cur := next;
      }
    }
  }
}
