/**
 No state of the proxy is a dead end: from every reachable one it can go on to serve another request, as long as it
 accepts any, and it can be shut down, with every accepted task done and everything given back.
 */
module ProxyCompletion {
  import opened Basics
  import opened Counting
  import opened ProxyMachine
  import opened ProxyInvariant
  import opened ProxyTheorems
  import opened ProxyProgress
  import H = ProxyHandler

  // A request that is not understood, a client that takes no more, an origin that has sent everything.
  const End: Choice := Choice(true, [], true, 0, Closed)

  // A worker at work, not asleep, whose next step will not put it to sleep.
  ghost predicate Moving(s: Proxy, w: Worker) {
    w.Busy? && !w.h.RWait? && (w.h.RCheck? && w.h.e < |s.entries| ==> !Undecided(s.entries[w.h.e]))
  }

  // How far a worker is from its exit, when it gets no further task.
  function Rank(w: Worker): nat {
    match w
    case Exited => 0
    case Idle => 1
    case Asleep => 2
    case Busy(_, h, _) =>
      match h
      case Close => 2
      case Parse => 3
      case Free(_) => 3
      case Release(_, _, _) => 4
      case RSend(_, _, chunk) => if chunk == [] then 7 else 5
      case RCheck(_, _) => 6
      case RWait(_, _) => 7
      case WFail(_) | WComplete(_) => 5
      case WGateway(_) | WRecv(_, _, _) => 6
      case WRequest(_) | WSend(_, _, _) => 7
      case WConnect(_) | WAppend(_, _, _, _) => 8
  }

  predicate Writing(w: Worker) { w.Busy? && Writes(w.h) }

  // Others are at most woken, and nobody begins to write.
  ghost predicate Spares(s: Proxy, s': Proxy, w: nat) {
    && |s'.workers| == |s.workers|
    && (forall u :: 0 <= u < |s.workers| && u != w ==>
          || s'.workers[u] == s.workers[u]
          || (s.workers[u].Busy? && s.workers[u].h.RWait? && s'.workers[u].Busy? && s'.workers[u].h.RCheck?))
    && (w < |s.workers| && Writing(s'.workers[w]) ==> Writing(s.workers[w]))
    && s'.stop == s.stop && s'.main == s.main && s'.accepted == s.accepted
  }

  lemma SparesOn(one: Proxy, two: Proxy, three: Proxy, w: nat)
    requires Spares(one, two, w) && Spares(two, three, w)
    ensures Spares(one, three, w)
  {
  }

  lemma HandlerNears(en: Entry, h: Handler, sent: Bytes, task: nat)
    requires EntryOf(h).Some? && HandlerOK(en, h, sent) && !h.RWait? && (h.RCheck? ==> !Undecided(en))
    ensures forall more :: Rank(Busy(task, NextPoint(en, h, End), more)) < Rank(Busy(task, h, sent))
    ensures Writes(NextPoint(en, h, End)) ==> Writes(h)
  {
  }

  // A step of a handler at work with its entry.
  lemma HandleNears(s: Proxy, w: nat, e: nat)
    requires w < |s.workers| && Moving(s, s.workers[w]) && EntryOf(s.workers[w].h) == Some(e)
    requires e < |s.entries| && HandlerOK(s.entries[e], s.workers[w].h, s.workers[w].sent)
    ensures var s' := Handle(s, w, e, End);
            && Spares(s, s', w) && s'.queue == s.queue && s'.workers[w].Busy?
            && Rank(s'.workers[w]) < Rank(s.workers[w])
  {
    HandlerNears(s.entries[e], s.workers[w].h, s.workers[w].sent, s.workers[w].task);
    hide HandlerOK, Rank, NextPoint, Touch, Sends, Signals, Undecided, Unlink, Kept;
  }

  lemma StepNears(s: Proxy, w: nat)
    requires w < |s.workers| && Moving(s, s.workers[w]) && WorkerOK(s.entries, s.workers[w])
    ensures Enabled(s, Turn(w, End))
    ensures var s' := Do(s, Turn(w, End));
            && Spares(s, s', w) && s'.queue == s.queue
            && Rank(s'.workers[w]) < Rank(s.workers[w]) && !s'.workers[w].Exited?
  {
    if EntryOf(s.workers[w].h).Some? {
      HandleNears(s, w, s.workers[w].h.e);
      hide HandlerOK, Handle, Rank, Spares, Moving;
    } else {
      hide HandlerOK, Handle, Moving;
    }
  }

  lemma OwnStep(run: seq<Proxy>, s: Proxy, w: nat) returns (longer: seq<Proxy>, s': Proxy)
    requires Reaches(run, s) && w < |s.workers| && Moving(s, s.workers[w])
    ensures Reaches(longer, s') && run <= longer && Spares(s, s', w) && s'.queue == s.queue
    ensures Rank(s'.workers[w]) < Rank(s.workers[w]) && !s'.workers[w].Exited?
  {
    RunInv(run, |run| - 1);
    assert WorkerOK(s.entries, s.workers[w]);
    StepNears(s, w);
    hide Inv, IsRun, Enabled, Do, WorkerOK, Moving, Rank;
    longer := Extend(run, s, Turn(w, End));
    s' := Do(s, Turn(w, End));
  }

  // ----- the writers

  // A writer marks its entry and comes to release it.
  lemma {:induction false} EndWriting(run: seq<Proxy>, s: Proxy, w: nat) returns (longer: seq<Proxy>, s': Proxy)
    requires Reaches(run, s) && w < |s.workers|
    ensures Reaches(longer, s') && run <= longer && Spares(s, s', w) && !Writing(s'.workers[w])
    decreases Rank(s.workers[w])
  {
    hide Rank, IsRun;
    longer, s' := run, s;
    if Writing(s.workers[w]) {
      longer, s' := OwnStep(run, s, w);
      var mid := s';
      longer, s' := EndWriting(longer, s', w);
      SparesOn(s, mid, s', w);
    }
  }

  ghost predicate Calm(s: Proxy, k: nat) {
    k <= |s.workers| && forall w :: 0 <= w < k ==> !Writing(s.workers[w])
  }

  lemma {:induction false} EndAllWriting(run: seq<Proxy>, s: Proxy, k: nat) returns (longer: seq<Proxy>, s': Proxy)
    requires Reaches(run, s) && k <= |s.workers|
    ensures Reaches(longer, s') && run <= longer && |s'.workers| == |s.workers| && Calm(s', k)
    ensures s'.stop == s.stop && s'.main == s.main && s'.accepted == s.accepted
    decreases k
  {
    hide IsRun;
    longer, s' := run, s;
    if k > 0 {
      longer, s' := EndAllWriting(longer, s', k - 1);
      longer, s' := EndWriting(longer, s', k - 1);
    }
  }

  // With no writer at work every entry is decided, and no reader sleeps.
  lemma CalmMoves(run: seq<Proxy>, s: Proxy, w: nat)
    requires Reaches(run, s) && Calm(s, |s.workers|) && w < |s.workers| && s.workers[w].Busy?
    ensures Moving(s, s.workers[w])
  {
    RunInv(run, |run| - 1);
    assert WorkerOK(s.entries, s.workers[w]);
    var h := s.workers[w].h;
    if EntryOf(h).Some? {
      assert EntryOK(s.entries, s.table, s.workers, h.e);
      CountNone(s.workers, Is(Writers(h.e)));
    }
  }

  // ----- the workers

  // What an idle worker of a stopped pool does next.
  lemma LookForWork(run: seq<Proxy>, s: Proxy, w: nat) returns (longer: seq<Proxy>, s': Proxy)
    requires Reaches(run, s) && w < |s.workers| && s.workers[w].Idle? && s.stop
    ensures Reaches(longer, s') && run <= longer && Spares(s, s', w) && !Writing(s'.workers[w])
    ensures if s.queue == [] then s'.workers[w].Exited? else |s'.queue| < |s.queue|
  {
    hide IsRun;
    longer := Extend(run, s, Turn(w, End));
    s' := Do(s, Turn(w, End));
  }

  // A worker of a stopped pool exits, whatever it is at and whatever is still queued.
  lemma {:induction false} Retire(run: seq<Proxy>, s: Proxy, w: nat) returns (longer: seq<Proxy>, s': Proxy)
    requires Reaches(run, s) && w < |s.workers| && s.stop && Calm(s, |s.workers|)
    ensures Reaches(longer, s') && run <= longer && Spares(s, s', w) && Calm(s', |s.workers|)
    ensures s'.workers[w].Exited?
    decreases |s.queue|, Rank(s.workers[w])
  {
    hide Rank, IsRun;
    longer, s' := run, s;
    if !s.workers[w].Exited? {
      if s.workers[w].Busy? {
        CalmMoves(run, s, w);
        longer, s' := OwnStep(run, s, w);
      } else {
        NobodyAsleep(run, s, w);
        longer, s' := LookForWork(run, s, w);
      }
      var mid := s';
      if !s'.workers[w].Exited? {
        longer, s' := Retire(longer, s', w);
      }
      SparesOn(s, mid, s', w);
    }
  }

  lemma NobodyAsleep(run: seq<Proxy>, s: Proxy, w: nat)
    requires Reaches(run, s) && w < |s.workers| && s.stop
    ensures !s.workers[w].Asleep?
  {
    RunInv(run, |run| - 1);
    if s.workers[w].Asleep? {
      Counted(s.workers, w, Sleeps);
    }
  }

  lemma {:induction false} RetireAll(run: seq<Proxy>, s: Proxy, k: nat) returns (longer: seq<Proxy>, s': Proxy)
    requires Reaches(run, s) && s.stop && Calm(s, |s.workers|) && k <= |s.workers|
    ensures Reaches(longer, s') && run <= longer && |s'.workers| == |s.workers| && Calm(s', |s.workers|)
    ensures forall w :: 0 <= w < k ==> s'.workers[w].Exited?
    ensures s'.stop && s'.main == s.main && s'.accepted == s.accepted
    decreases k
  {
    hide IsRun;
    longer, s' := run, s;
    if k > 0 {
      longer, s' := RetireAll(longer, s', k - 1);
      longer, s' := Retire(longer, s', k - 1);
    }
  }

  // ----- another request

  ghost predicate Quiet(s: Proxy, k: nat) {
    k <= |s.workers| && forall w :: 0 <= w < k ==> !s.workers[w].Busy?
  }

  // A worker finishes what it is at.
  lemma {:induction false} Settle(run: seq<Proxy>, s: Proxy, w: nat) returns (longer: seq<Proxy>, s': Proxy)
    requires Reaches(run, s) && w < |s.workers| && Calm(s, |s.workers|)
    ensures Reaches(longer, s') && run <= longer && Spares(s, s', w) && Calm(s', |s.workers|)
    ensures !s'.workers[w].Busy? && s'.queue == s.queue
    decreases Rank(s.workers[w])
  {
    hide Rank, IsRun;
    longer, s' := run, s;
    if s.workers[w].Busy? {
      CalmMoves(run, s, w);
      longer, s' := OwnStep(run, s, w);
      var mid := s';
      longer, s' := Settle(longer, s', w);
      SparesOn(s, mid, s', w);
    }
  }

  lemma {:induction false} SettleAll(run: seq<Proxy>, s: Proxy, k: nat) returns (longer: seq<Proxy>, s': Proxy)
    requires Reaches(run, s) && Calm(s, |s.workers|) && k <= |s.workers|
    ensures Reaches(longer, s') && run <= longer && |s'.workers| == |s.workers| && Quiet(s', k)
    ensures s'.main == s.main && s'.accepted == s.accepted && Calm(s', |s.workers|)
    decreases k
  {
    hide IsRun;
    longer, s' := run, s;
    if k > 0 {
      longer, s' := SettleAll(longer, s', k - 1);
      longer, s' := Settle(longer, s', k - 1);
    }
  }

  // The first worker takes the next task.
  lemma TakeNext(run: seq<Proxy>, s: Proxy) returns (longer: seq<Proxy>, s': Proxy)
    requires Reaches(run, s) && s.main.Accepting? && Quiet(s, |s.workers|) && s.queue != []
    ensures Reaches(longer, s') && run <= longer && s.workers != []
    ensures s' == s.(workers := s.workers[0 := Busy(s.queue[0], Parse, [])], queue := s.queue[1..],
                     started := s.started + [s.queue[0]])
  {
    RunInv(run, |run| - 1);
    hide IsRun;
    longer, s' := run, s;
    if s.workers[0].Asleep? {
      longer := Extend(longer, s', Turn(0, End));
      s' := Do(s', Turn(0, End));
    }
    longer := Extend(longer, s', Turn(0, End));
    s' := Do(s', Turn(0, End));
  }

  lemma {:induction false} TakeAll(run: seq<Proxy>, s: Proxy) returns (longer: seq<Proxy>, s': Proxy)
    requires Reaches(run, s) && s.main.Accepting? && Quiet(s, |s.workers|)
    ensures Reaches(longer, s') && run <= longer && Quiet(s', |s'.workers|) && s'.queue == []
    ensures s'.main == s.main && s'.accepted == s.accepted
    decreases |s.queue|
  {
    hide IsRun;
    longer, s' := run, s;
    if s.queue != [] {
      longer, s' := TakeNext(run, s);
      longer, s' := Settle(longer, s', 0);
      longer, s' := TakeAll(longer, s');
    }
  }

  // Every worker is free, nothing is queued, and then a client connects.
  lemma Connect(run: seq<Proxy>, s: Proxy) returns (longer: seq<Proxy>, s': Proxy)
    requires Reaches(run, s) && s.main.Accepting?
    ensures Reaches(longer, s') && run <= longer && s'.main == s.main && s'.accepted == s.accepted + 1
    ensures Quiet(s', |s'.workers|) && s'.queue == [s.accepted]
  {
    longer, s' := EndAllWriting(run, s, |s.workers|);
    longer, s' := SettleAll(longer, s', |s'.workers|);
    longer, s' := TakeAll(longer, s');
    RunInv(longer, |longer| - 1);
    var sleeper := if w :| 0 <= w < |s'.workers| && s'.workers[w].Asleep? then w else 0;
    longer := Extend(longer, s', Submit(sleeper));
    s' := Do(s', Submit(sleeper));
  }

  // A request that is served: its client has been sent all there is of an entry for this key, which is complete, or
  // was fetched for this request and is what the origin answered.
  ghost predicate Fulfilled(s: Proxy, task: nat, key: Key, answers: seq<Received>) {
    && s.done[task] == 1 && s.outcomes != []
    && (var o := s.outcomes[|s.outcomes| - 1];
        && o.task == task && o.e < |s.entries| && s.entries[o.e].key == key
        && o.sent == s.entries[o.e].data
        && (if o.full then s.entries[o.e].complete
            else o.sent == H.Arrived(answers) && s.entries[o.e].complete == H.Whole(answers)))
  }

  // As long as the proxy accepts clients, whatever it is at, another one can connect and be served.
  lemma NextRequest(run: seq<Proxy>, s: Proxy, key: Key, answers: seq<Received>)
    returns (longer: seq<Proxy>, s': Proxy)
    requires Reaches(run, s) && s.main.Accepting? && H.Conversation(answers) && Sized(answers)
    ensures Reaches(longer, s') && run <= longer && s'.main.Accepting? && s'.accepted == s.accepted + 1
    ensures Fulfilled(s', s.accepted, key, answers)
  {
    hide IsRun, H.Conversation, H.Arrived, H.Whole, Sized, Spares;
    longer, s' := Connect(run, s);
    longer, s' := TakeNext(longer, s');
    if key in s'.table {
      var all: nat -> nat := _ => 4096;
      CalmTable(longer, s', key);
      longer, s' := ReaderServes(longer, s', 0, s.accepted, key, true, all);
    } else {
      longer, s' := WriterCaches(longer, s', 0, s.accepted, key, answers);
    }
    DoneOnce(longer, s', s.accepted);
  }

  lemma DoneOnce(run: seq<Proxy>, s: Proxy, task: nat)
    requires Reaches(run, s) && s.done[task] >= 1
    ensures s.done[task] == 1
  {
    TasksInOrder(run, |run| - 1, task);
  }

  // When no worker holds an entry, those in the table are complete.
  lemma CalmTable(run: seq<Proxy>, s: Proxy, key: Key)
    requires Reaches(run, s) && key in s.table
    requires forall w :: 0 <= w < |s.workers| ==> !s.workers[w].Busy? || s.workers[w].h.Parse?
    ensures s.table[key] < |s.entries|
    ensures var en := s.entries[s.table[key]]; en.key == key && en.complete && !en.failed
  {
    RunInv(run, |run| - 1);
    var e := s.table[key];
    assert EntryOK(s.entries, s.table, s.workers, e);
    CountNone(s.workers, Is(Handles(e)));
  }

  // ----- the main thread

  lemma {:induction false} JoinAll(run: seq<Proxy>, s: Proxy) returns (longer: seq<Proxy>, s': Proxy)
    requires Reaches(run, s) && AllExited(s.workers) && s.main.Joining? && s.main.i < |s.workers|
    ensures Reaches(longer, s') && run <= longer && s'.main.Draining? && s'.accepted == s.accepted
    decreases |s.workers| - s.main.i
  {
    hide IsRun;
    longer := Extend(run, s, JoinWorker);
    s' := Do(s, JoinWorker);
    if s'.main.Joining? {
      longer, s' := JoinAll(longer, s');
    }
  }

  lemma StopAndJoin(run: seq<Proxy>, s: Proxy) returns (longer: seq<Proxy>, s': Proxy)
    requires Reaches(run, s) && (s.main.Accepting? || s.main.Joining?)
    ensures Reaches(longer, s') && run <= longer && s'.main.Draining? && s'.accepted == s.accepted
  {
    longer, s' := run, s;
    if s.main.Accepting? {
      longer := Extend(longer, s', StopPool);
      s' := Do(s', StopPool);
    }
    longer, s' := EndAllWriting(longer, s', |s'.workers|);
    RunInv(longer, |longer| - 1);
    longer, s' := RetireAll(longer, s', |s'.workers|);
    RunInv(longer, |longer| - 1);
    longer, s' := JoinAll(longer, s');
  }

  // The clean-up of threadPoolStop, and cache_table_destroy.
  lemma CleanUp(run: seq<Proxy>, s: Proxy) returns (longer: seq<Proxy>, s': Proxy)
    requires Reaches(run, s) && !s.main.Accepting? && !s.main.Joining?
    ensures Reaches(longer, s') && run <= longer && s'.main.Finished? && s'.accepted == s.accepted
  {
    hide IsRun;
    longer, s' := run, s;
    if s'.main.Draining? {
      longer := Extend(longer, s', Drain);
      s' := Do(s', Drain);
    }
    if s'.main.Clearing? {
      longer := Extend(longer, s', ClearTable);
      s' := Do(s', ClearTable);
    }
  }

  // Every run can be continued to one in which cache_table_destroy has returned.  Then each task that had been accepted
  // has been run to its end, once, nothing was dropped, and each entry ever created has been destroyed, once.
  lemma ShutsDown(run: seq<Proxy>, s: Proxy) returns (longer: seq<Proxy>, s': Proxy)
    requires Reaches(run, s)
    ensures Reaches(longer, s') && run <= longer && s'.main.Finished?
    ensures s'.accepted == s.accepted && s'.dropped == [] && s'.table == map[]
    ensures forall task: nat :: s'.done[task] == One(task < s.accepted)
    ensures forall e :: 0 <= e < |s'.entries| ==> s'.entries[e].frees == 1
  {
    longer, s' := run, s;
    if s'.main.Accepting? || s'.main.Joining? {
      longer, s' := StopAndJoin(longer, s');
    }
    longer, s' := CleanUp(longer, s');
    StopFinishesEverything(longer, |longer| - 1);
    RunInv(longer, |longer| - 1);
    forall e | 0 <= e < |s'.entries| ensures s'.entries[e].frees == 1 {
      EverythingDestroyedOnce(longer, |longer| - 1, e);
    }
  }
}
