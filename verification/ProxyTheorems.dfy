/**
 The main results about the proxy, for every run: any number of clients and keys, any number of
 workers, any schedule, any answers from the network.
 */
module ProxyTheorems {
  import opened Basics
  import opened Counting
  import opened ProxyMachine
  import opened ProxyInvariant

  lemma {:induction false} RunInv(run: seq<Proxy>, k: nat)
    requires IsRun(run) && k < |run|
    ensures Inv(run[k])
  {
    hide Inv, Init, Enabled, Do;
    if k == 0 {
      InitInv(run[0]);
    } else {
      RunInv(run, k - 1);
      assert Moves(run[k - 1], run[k]);
      RunStep(run[k - 1], run[k]);
    }
  }

  lemma RunStep(s: Proxy, s': Proxy)
    requires Inv(s) && Moves(s, s')
    ensures Inv(s')
  {
    hide Inv, Enabled, Do;
    var ev :| Enabled(s, ev) && s' == Do(s, ev);
    StepInv(s, ev);
  }

  // ----- entries live as long as their handles

  // The reference count of an entry is the number of handlers between cache_start_or_join and
  // cache_release; such an entry is in the table, has not been destroyed and is not being destroyed.
  lemma RefcountsAreHandles(run: seq<Proxy>, k: nat, e: nat)
    requires IsRun(run) && k < |run| && e < |run[k].entries|
    ensures var s := run[k];
            && s.entries[e].refcnt == Count(s.workers, Handles(e))
            && (Count(s.workers, Handles(e)) > 0 ==>
                  Listed(s.entries, s.table, e) && s.entries[e].frees == 0 && Count(s.workers, Frees(e)) == 0)
  {
    RunInv(run, k);
    assert EntryOK(run[k].entries, run[k].table, run[k].workers, e);
  }

  // Every entry is in exactly one of three places: in the table, on its way to being destroyed by one
  // worker, or destroyed, and then just once.
  lemma DestroyedOnce(run: seq<Proxy>, k: nat, e: nat)
    requires IsRun(run) && k < |run| && e < |run[k].entries|
    ensures var s := run[k];
            s.entries[e].frees + One(Listed(s.entries, s.table, e)) + Count(s.workers, Frees(e)) == 1
  {
    RunInv(run, k);
    assert EntryOK(run[k].entries, run[k].table, run[k].workers, e);
  }

  // An entry that a handler works with, other than to destroy it, has not been destroyed.
  lemma HandlersUseLiveEntries(run: seq<Proxy>, k: nat, w: nat)
    requires IsRun(run) && k < |run| && w < |run[k].workers| && run[k].workers[w].Busy?
    requires EntryOf(run[k].workers[w].h).Some?
    ensures var e := run[k].workers[w].h.e;
            && e < |run[k].entries| && run[k].entries[e].frees == 0
            && (run[k].workers[w].h.Free? ==> Count(run[k].workers, Handles(e)) == 0)
  {
    RunInv(run, k);
    var s, e := run[k], run[k].workers[w].h.e;
    assert WorkerOK(s.entries, s.workers[w]);
    assert EntryOK(s.entries, s.table, s.workers, e);
    CountUpdate(s.workers, w, Exited, Is(Handles(e)));
    CountUpdate(s.workers, w, Exited, Is(Frees(e)));
  }

  lemma WriterListed(s: Proxy, w: nat)
    requires CacheOK(s) && StreamsOK(s)
    requires w < |s.workers| && s.workers[w].Busy? && Writes(s.workers[w].h)
    ensures Listed(s.entries, s.table, s.workers[w].h.e)
  {
    var e := s.workers[w].h.e;
    assert WorkerOK(s.entries, s.workers[w]);
    assert EntryOK(s.entries, s.table, s.workers, e);
    Counted(s.workers, w, Handles(e));
  }

  // Two handlers that fetch from an origin at the same time do so for different keys.
  lemma OneWriterPerKey(run: seq<Proxy>, k: nat, u: nat, w: nat)
    requires IsRun(run) && k < |run| && u < |run[k].workers| && w < |run[k].workers| && u != w
    requires run[k].workers[u].Busy? && Writes(run[k].workers[u].h)
    requires run[k].workers[w].Busy? && Writes(run[k].workers[w].h)
    ensures var d, e := run[k].workers[u].h.e, run[k].workers[w].h.e;
            && d < |run[k].entries| && e < |run[k].entries|
            && run[k].entries[d].key != run[k].entries[e].key
  {
    RunInv(run, k);
    hide IsRun, StreamsOK, EntryOK, TableOK, TasksOK, PoolOK, MainOK, Writes;
    WriterListed(run[k], u);
    WriterListed(run[k], w);
    OneWriter(run[k], u, w);
  }

  // A writer that comes to release its entry has marked it complete or failed, and not both; an entry that is
  // neither has a writer at work; an entry in the table that nobody holds is complete.
  lemma WritersDecide(run: seq<Proxy>, k: nat, e: nat)
    requires IsRun(run) && k < |run| && e < |run[k].entries|
    ensures var s := run[k];
            && (forall w :: 0 <= w < |s.workers| && s.workers[w].Busy? && s.workers[w].h.Release?
                            && s.workers[w].h.e == e && s.workers[w].h.writer
                            ==> s.entries[e].complete != s.entries[e].failed)
            && !(s.entries[e].complete && s.entries[e].failed)
            && (!s.entries[e].complete && !s.entries[e].failed ==>
                  exists w :: 0 <= w < |s.workers| && Has(Writers(e), s.workers[w]))
            && (Listed(s.entries, s.table, e) && s.entries[e].refcnt == 0 ==>
                  s.entries[e].complete && !s.entries[e].failed)
  {
    RunInv(run, k);
    var s := run[k];
    assert EntryOK(s.entries, s.table, s.workers, e);
    forall w | 0 <= w < |s.workers| && s.workers[w].Busy? && s.workers[w].h.Release?
               && s.workers[w].h.e == e && s.workers[w].h.writer
      ensures s.entries[e].complete != s.entries[e].failed
    {
      assert WorkerOK(s.entries, s.workers[w]);
    }
    if Undecided(s.entries[e]) {
      var w := CountWitness(s.workers, Is(Writers(e)));
    }
  }

  lemma FailedEntryNeverReplaced(run: seq<Proxy>, k: nat, key: Key)
    requires IsRun(run) && k < |run| && key in run[k].table
    ensures run[k].table[key] < |run[k].entries|
    ensures !(run[k].entries[run[k].table[key]].failed && run[k].entries[run[k].table[key]].refcnt == 0)
  {
    RunInv(run, k);
    NeverDropped(run[k], key);
  }

  // ----- what clients receive

  // A client of an entry: a handler still at work on it, or one that has released it.
  ghost predicate Received(s: Proxy, e: nat, sent: Bytes) {
    || (exists w :: 0 <= w < |s.workers| && s.workers[w].Busy? && EntryOf(s.workers[w].h) == Some(e)
                    && !s.workers[w].h.Free? && s.workers[w].sent == sent)
    || (exists i :: 0 <= i < |s.outcomes| && s.outcomes[i].e == e && s.outcomes[i].sent == sent)
  }

  // What any client has been sent is the beginning of what the origin has sent for the entry.
  lemma ClientsReceivePrefixes(run: seq<Proxy>, k: nat, e: nat, sent: Bytes)
    requires IsRun(run) && k < |run| && Received(run[k], e, sent)
    ensures e < |run[k].entries|
    ensures sent <= run[k].entries[e].data <= run[k].entries[e].origin
  {
    RunInv(run, k);
    var s := run[k];
    if w :| 0 <= w < |s.workers| && s.workers[w].Busy? && EntryOf(s.workers[w].h) == Some(e)
            && !s.workers[w].h.Free? && s.workers[w].sent == sent {
      assert WorkerOK(s.entries, s.workers[w]);
      SentIsPrefix(s.entries[e], s.workers[w].h, sent);
    } else {
      var i :| 0 <= i < |s.outcomes| && s.outcomes[i].e == e && s.outcomes[i].sent == sent;
      assert OutcomeOK(s.entries, s.outcomes[i]);
    }
    assert EntryOK(s.entries, s.table, s.workers, e);
  }

  lemma SentIsPrefix(en: Entry, h: Handler, sent: Bytes)
    requires EntryOf(h).Some? && !h.Free? && HandlerOK(en, h, sent)
    ensures sent <= en.data
  {
    if h.RSend? {
      assert sent <= sent + h.chunk;
    }
  }

  // Of any two clients of one entry, one has been sent the beginning of what the other has been sent.
  lemma ClientsAgree(run: seq<Proxy>, k: nat, e: nat, one: Bytes, two: Bytes)
    requires IsRun(run) && k < |run| && Received(run[k], e, one) && Received(run[k], e, two)
    ensures one <= two || two <= one
  {
    ClientsReceivePrefixes(run, k, e, one);
    ClientsReceivePrefixes(run, k, e, two);
  }

  // A reader that stopped because the entry was complete has sent the whole body.
  lemma CompleteMeansWhole(run: seq<Proxy>, k: nat, i: nat)
    requires IsRun(run) && k < |run| && i < |run[k].outcomes| && run[k].outcomes[i].full
    ensures var o := run[k].outcomes[i];
            o.e < |run[k].entries| && o.sent == run[k].entries[o.e].data == run[k].entries[o.e].origin
  {
    RunInv(run, k);
    var o := run[k].outcomes[i];
    assert OutcomeOK(run[k].entries, o);
    assert EntryOK(run[k].entries, run[k].table, run[k].workers, o.e);
  }

  predicate Reads(h: Handler) { h.RCheck? || h.RWait? || h.RSend? }

  // A reader has come to release its entry: it has sent the whole body of a complete one, or the entry has failed, or
  // the client took only `taken` bytes of a piece.
  ghost predicate Quits(en: Entry, h: Handler, taken: nat, k: Handler, sent: Bytes) {
    && Reads(h) && k.Release? && k.e == h.e && !k.writer
    && if k.full then en.complete && sent == en.data
       else en.failed || (h.RSend? && taken < |h.chunk|)
  }

  // Every step leaves a reader reading the same entry, unless it has one of these reasons to stop: no wakeup, spurious
  // or not, makes it give up.
  lemma ReadersPersist(run: seq<Proxy>, k: nat, ev: Event, u: nat)
    requires IsRun(run) && k < |run| && Enabled(run[k], ev)
    requires u < |run[k].workers| && run[k].workers[u].Busy? && Reads(run[k].workers[u].h)
    ensures var s, s' := run[k], Do(run[k], ev);
            var w := s.workers[u];
            && w.h.e < |s.entries| && u < |s'.workers| && s'.workers[u].Busy? && s'.workers[u].task == w.task
            && var w' := s'.workers[u];
               || (Reads(w'.h) && w'.h.e == w.h.e && w.sent <= w'.sent)
               || (ev.Turn? && ev.w == u && Quits(s.entries[w.h.e], w.h, ev.c.taken, w'.h, w'.sent))
  {
    RunInv(run, k);
    var s := run[k];
    assert WorkerOK(s.entries, s.workers[u]);
    hide Inv, IsRun, Begin;
    if ev.Turn? && ev.w == u {
      ReaderStep(s.entries[s.workers[u].h.e], s.workers[u].h, s.workers[u].sent, ev.c);
      hide NextPoint, Touch, Sends, HandlerOK, Quits;
    } else {
      OthersTurn(s, ev, u);
    }
  }

  lemma ReaderStep(en: Entry, h: Handler, sent: Bytes, c: Choice)
    requires Reads(h) && HandlerOK(en, h, sent) && (h.RSend? ==> c.taken <= |h.chunk|)
    ensures var k := NextPoint(en, h, c);
            || (Reads(k) && k.e == h.e)
            || Quits(en, h, c.taken, k, sent + Sends(h, c))
  {
    assert sent + [] == sent;
    assert h.RCheck? ==> en.data[..|en.data|] == en.data;
  }

  // Another worker's step, or one of the main thread.
  lemma OthersTurn(s: Proxy, ev: Event, u: nat)
    requires Enabled(s, ev) && !(ev.Turn? && ev.w == u)
    requires u < |s.workers| && s.workers[u].Busy? && Reads(s.workers[u].h)
    ensures var s' := Do(s, ev);
            && u < |s'.workers| && s'.workers[u].Busy? && s'.workers[u].task == s.workers[u].task
            && Reads(s'.workers[u].h) && s'.workers[u].h.e == s.workers[u].h.e
            && s'.workers[u].sent == s.workers[u].sent
  {
    hide NextPoint, Touch, Sends, Signals;
  }

  ghost predicate Extends(before: seq<Entry>, after: seq<Entry>, e: nat) {
    && e < |before| <= |after|
    && before[e].key == after[e].key
    && before[e].data <= after[e].data
    && (before[e].complete ==> after[e].complete && after[e].data == before[e].data)
  }

  lemma HandleExtends(s: Proxy, w: nat, c: Choice, e: nat)
    requires w < |s.workers| && s.workers[w].Busy? && EntryOf(s.workers[w].h).Some?
    requires Allowed(s, s.workers[w].h, c) && WorkerOK(s.entries, s.workers[w]) && e < |s.entries|
    ensures Extends(s.entries, Handle(s, w, s.workers[w].h.e, c).entries, e)
  {
    var h := s.workers[w].h;
    TouchGrows(s.entries[h.e], h, s.workers[w].sent, c);
    NextPointKeeps(s.entries[h.e], h, c);
    hide Touch, NextPoint, HandlerOK;
  }

  lemma BeginExtends(s: Proxy, w: nat, c: Choice, e: nat)
    requires w < |s.workers| && s.workers[w].Busy? && e < |s.entries|
    ensures Extends(s.entries, Begin(s, w, c).entries, e)
  {
  }

  lemma OtherwiseExtends(s: Proxy, ev: Event, e: nat)
    requires Enabled(s, ev) && e < |s.entries|
    requires ev.Turn? ==> !s.workers[ev.w].Busy? || s.workers[ev.w].h.Close?
    ensures Extends(s.entries, Do(s, ev).entries, e)
  {
    hide Handle, Begin;
  }

  lemma StepExtends(s: Proxy, s': Proxy, e: nat)
    requires Inv(s) && Moves(s, s') && e < |s.entries|
    ensures Extends(s.entries, s'.entries, e)
  {
    var ev :| Enabled(s, ev) && s' == Do(s, ev);
    hide CacheOK, TasksOK, PoolOK, MainOK, Handle, Begin, Extends;
    if ev.Turn? && s.workers[ev.w].Busy? && !s.workers[ev.w].h.Close? {
      assert WorkerOK(s.entries, s.workers[ev.w]);
      hide WorkerOK, StreamsOK;
      if EntryOf(s.workers[ev.w].h).Some? {
        HandleExtends(s, ev.w, ev.c, e);
      } else {
        BeginExtends(s, ev.w, ev.c, e);
      }
    } else {
      OtherwiseExtends(s, ev, e);
    }
  }

  lemma ExtendsOn(one: seq<Entry>, two: seq<Entry>, three: seq<Entry>, e: nat)
    requires Extends(one, two, e) && Extends(two, three, e)
    ensures Extends(one, three, e)
  {
  }

  lemma RunExtends(run: seq<Proxy>, k: nat, e: nat)
    requires IsRun(run) && k + 1 < |run| && e < |run[k].entries|
    ensures Extends(run[k].entries, run[k + 1].entries, e)
  {
    RunInv(run, k);
    assert Moves(run[k], run[k + 1]);
    hide Inv, Moves, Extends, Init;
    StepExtends(run[k], run[k + 1], e);
  }

  // The bytes of an entry only grow, and those of a complete one never change: what was sent stays right.
  lemma {:induction false} BodiesOnlyGrow(run: seq<Proxy>, j: nat, k: nat, e: nat)
    requires IsRun(run) && j <= k < |run| && e < |run[j].entries|
    ensures Extends(run[j].entries, run[k].entries, e)
    decreases k
  {
    hide IsRun;
    if j < k {
      BodiesOnlyGrow(run, j, k - 1, e);
      RunExtends(run, k - 1, e);
      ExtendsOn(run[j].entries, run[k - 1].entries, run[k].entries, e);
    }
  }

  // ----- nobody waits for nobody

  // With choice c the handler that worker u runs gets to another point.
  predicate Advances(s: Proxy, u: nat, c: Choice) {
    && Enabled(s, Turn(u, c))
    && s.workers[u].Busy?
    && |Do(s, Turn(u, c)).workers| == |s.workers|
    && Do(s, Turn(u, c)).workers[u].Busy?
    && Do(s, Turn(u, c)).workers[u].h != s.workers[u].h
  }

  lemma WriterAdvances(s: Proxy, u: nat)
    requires u < |s.workers| && s.workers[u].Busy? && Writes(s.workers[u].h) && WorkerOK(s.entries, s.workers[u])
    ensures Advances(s, u, Choice(false, [], true, 0, Closed))
  {
    hide HandlerOK;
  }

  // A handler asleep on an entry has sent all there is of it, and another worker is at that moment
  // fetching the rest; some step that worker can take moves its handler on.
  lemma SleepingReaderHasWriter(run: seq<Proxy>, k: nat, w: nat)
    requires IsRun(run) && k < |run| && w < |run[k].workers|
    requires run[k].workers[w].Busy? && run[k].workers[w].h.RWait?
    ensures var s := run[k];
            var h := s.workers[w].h;
            && h.e < |s.entries| && Undecided(s.entries[h.e])
            && h.off == |s.entries[h.e].data| && s.workers[w].sent == s.entries[h.e].data
            && (exists u, c :: 0 <= u < |s.workers| && u != w && Has(Writers(h.e), s.workers[u]) && Advances(s, u, c))
  {
    RunInv(run, k);
    var s := run[k];
    var h := s.workers[w].h;
    assert WorkerOK(s.entries, s.workers[w]);
    assert EntryOK(s.entries, s.table, s.workers, h.e);
    var u := CountWitness(s.workers, Is(Writers(h.e)));
    assert WorkerOK(s.entries, s.workers[u]);
    WriterAdvances(s, u);
  }

  // A worker that needs nobody else to go on.
  predicate Awake(w: Worker) { w.Idle? || (w.Busy? && !w.h.RWait?) }

  // However few the workers: while a task is queued, or a handler is not finished, some worker is awake.
  lemma SomeWorkerAwake(run: seq<Proxy>, k: nat)
    requires IsRun(run) && k < |run|
    requires run[k].queue != [] || exists w :: 0 <= w < |run[k].workers| && run[k].workers[w].Busy?
    ensures exists u :: 0 <= u < |run[k].workers| && Awake(run[k].workers[u])
  {
    RunInv(run, k);
    var s := run[k];
    if w :| 0 <= w < |s.workers| && s.workers[w].Busy? {
      if s.workers[w].h.RWait? {
        SleepingReaderHasWriter(run, k, w);
        var u, c :| 0 <= u < |s.workers| && u != w && Has(Writers(s.workers[w].h.e), s.workers[u]) && Advances(s, u, c);
        assert Awake(s.workers[u]);
      } else {
        assert Awake(s.workers[w]);
      }
    } else if s.workers[0].Asleep? {
      CountUpdate(s.workers, 0, Exited, Is(Sleeps));
      var u := CountWitness(s.workers, Is(Idles));
      assert Awake(s.workers[u]);
    } else {
      assert Awake(s.workers[0]);
    }
  }

  // While the main thread joins the workers, one that has not exited can go on: shutting down
  // does not get stuck.
  lemma ShutdownProgresses(run: seq<Proxy>, k: nat)
    requires IsRun(run) && k < |run| && run[k].main.Joining?
    requires !AllExited(run[k].workers)
    ensures exists u :: 0 <= u < |run[k].workers| && Awake(run[k].workers[u])
  {
    RunInv(run, k);
    var s := run[k];
    var w :| 0 <= w < |s.workers| && !s.workers[w].Exited?;
    if s.workers[w].Busy? {
      SomeWorkerAwake(run, k);
    } else {
      if s.workers[w].Asleep? {
        CountUpdate(s.workers, w, Exited, Is(Sleeps));
      }
      assert Awake(s.workers[w]);
    }
  }

  // ----- the pool

  // If a worker sleeps on has_work, enough others are awake and free for everything that is queued.
  lemma WorkConserving(run: seq<Proxy>, k: nat, w: nat)
    requires IsRun(run) && k < |run| && w < |run[k].workers| && run[k].workers[w].Asleep?
    ensures Count(run[k].workers, Idles) >= |run[k].queue|
  {
    RunInv(run, k);
    CountUpdate(run[k].workers, w, Exited, Is(Sleeps));
  }

  // Accepted tasks are started in the order in which they were accepted, each once; a started task is
  // finished, once, or run by exactly one worker.
  lemma TasksInOrder(run: seq<Proxy>, k: nat, task: nat)
    requires IsRun(run) && k < |run|
    ensures run[k].started + run[k].queue == Upto(run[k].accepted)
    ensures run[k].done[task] + Count(run[k].workers, Runs(task)) == One(task < |run[k].started|)
  {
    RunInv(run, k);
  }

  // ----- shutting down

  // When threadPoolStop returns: every accepted task has been run to its end, exactly once; the clean-up
  // loop found no task to drop; every entry still in the table is complete and nobody holds it.
  ghost predicate Stopped(s: Proxy) {
    && s.queue == [] && s.dropped == []
    && s.started == Upto(s.accepted)
    && (forall task: nat :: s.done[task] == One(task < s.accepted))
    && (forall e :: 0 <= e < |s.entries| && Listed(s.entries, s.table, e) ==>
          s.entries[e].refcnt == 0 && s.entries[e].complete && !s.entries[e].failed)
  }

  lemma StopFinishesEverything(run: seq<Proxy>, k: nat)
    requires IsRun(run) && k < |run|
    requires run[k].main.Draining? || run[k].main.Clearing? || run[k].main.Finished?
    ensures Stopped(run[k])
  {
    RunInv(run, k);
    var s := run[k];
    assert s.workers[0].Exited?;
    assert s.started + [] == s.started;
    forall task: nat ensures s.done[task] == One(task < s.accepted) {
      CountNone(s.workers, Is(Runs(task)));
    }
    forall e | 0 <= e < |s.entries| && Listed(s.entries, s.table, e)
      ensures s.entries[e].refcnt == 0 && s.entries[e].complete && !s.entries[e].failed
    {
      assert EntryOK(s.entries, s.table, s.workers, e);
      CountNone(s.workers, Is(Handles(e)));
    }
  }

  // After cache_table_destroy every entry that was ever created has been destroyed exactly once.
  lemma EverythingDestroyedOnce(run: seq<Proxy>, k: nat, e: nat)
    requires IsRun(run) && k < |run| && run[k].main.Finished? && e < |run[k].entries|
    ensures run[k].table == map[]
    ensures run[k].entries[e].frees == 1
  {
    RunInv(run, k);
    DestroyedOnce(run, k, e);
    CountNone(run[k].workers, Is(Frees(e)));
  }
}
