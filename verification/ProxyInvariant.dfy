/**
 What every step of the proxy keeps: how many workers hold, write and destroy each cache entry, what each
 handler has sent, and where every accepted task is.
 */
module ProxyInvariant {
  import opened Basics
  import opened Counting
  import opened ProxyMachine

  // ----- counting workers

  datatype Measure = Handles(e: nat) | Writers(e: nat) | Frees(e: nat) | Idles | Sleeps | Runs(task: nat)

  // At these points the handler is going to mark the entry complete or failed, or has just failed to.
  predicate Writes(h: Handler) {
    h.WConnect? || h.WGateway? || h.WRequest? || h.WRecv? || h.WAppend? || h.WSend? || h.WFail? || h.WComplete?
  }

  // Between cache_start_or_join and the decrement in cache_release.
  predicate Holds(h: Handler, e: nat) { EntryOf(h) == Some(e) && !h.Free? }

  predicate Has(m: Measure, w: Worker) {
    match m
    case Handles(e) => w.Busy? && Holds(w.h, e)
    case Writers(e) => w.Busy? && Writes(w.h) && w.h.e == e
    case Frees(e) => w.Busy? && w.h == Free(e)
    case Idles => w.Idle?
    case Sleeps => w.Asleep?
    case Runs(task) => w.Busy? && w.task == task
  }

  function Is(m: Measure): Worker -> bool { w => Has(m, w) }

  function Count(workers: seq<Worker>, m: Measure): nat { CountIf(workers, Is(m)) }

  lemma Counted(workers: seq<Worker>, w: nat, m: Measure)
    requires w < |workers| && Has(m, workers[w])
    ensures Count(workers, m) >= 1
  {
    CountUpdate(workers, w, workers[w], Is(m));
  }

  lemma CountUpdates(workers: seq<Worker>, w: nat, y: Worker)
    requires w < |workers|
    ensures forall m :: Count(workers[w := y], m) == Count(workers, m) - One(Has(m, workers[w])) + One(Has(m, y))
  {
    forall m ensures Count(workers[w := y], m) == Count(workers, m) - One(Has(m, workers[w])) + One(Has(m, y)) {
      CountUpdate(workers, w, y, Is(m));
    }
  }

  // Waking the readers of an entry changes none of the counts.
  lemma BroadcastCounts(workers: seq<Worker>, e: nat)
    ensures forall m :: Count(Broadcast(workers, e), m) == Count(workers, m)
  {
    forall m ensures Count(Broadcast(workers, e), m) == Count(workers, m) {
      CountSame(Broadcast(workers, e), workers, Is(m));
    }
  }

  // ----- the invariant: entries

  // What an entry is, with the number of workers that hold, write and destroy it.
  ghost predicate Fine(en: Entry, listed: bool, handles: nat, writers: nat, frees: nat) {
    && en.refcnt == handles
    && en.frees + One(listed) + frees == 1
    && (handles > 0 ==> listed)
    && (listed && handles == 0 ==> en.complete && !en.failed)
    && writers <= 1
    && (!en.complete && !en.failed ==> writers == 1)
    && !(en.complete && en.failed)
    && en.data <= en.origin
    && (en.complete ==> en.data == en.origin)
  }

  ghost predicate EntryOK(entries: seq<Entry>, table: map<Key, nat>, workers: seq<Worker>, e: nat)
    requires e < |entries|
  {
    Fine(entries[e], Listed(entries, table, e),
         Count(workers, Handles(e)), Count(workers, Writers(e)), Count(workers, Frees(e)))
  }

  ghost predicate TableOK(entries: seq<Entry>, table: map<Key, nat>) {
    forall key :: key in table ==> table[key] < |entries| && entries[table[key]].key == key
  }

  ghost predicate CacheOK(s: Proxy) {
    && TableOK(s.entries, s.table)
    && (forall e :: 0 <= e < |s.entries| ==> EntryOK(s.entries, s.table, s.workers, e))
  }

  // ----- the invariant: handlers

  ghost predicate Undecided(en: Entry) { !en.complete && !en.failed }

  // What a handler has sent, and what it knows of its entry.
  ghost predicate HandlerOK(en: Entry, h: Handler, sent: Bytes) {
    match h
    case Parse => sent == []
    case RCheck(_, off) => off <= |en.data| && sent == en.data[..off]
    case RWait(_, off) => off == |en.data| && sent == en.data && Undecided(en)
    case RSend(_, off, chunk) => off <= |en.data| && sent + chunk == en.data[..off]
    case WConnect(_) | WGateway(_) | WRequest(_) => Undecided(en) && en.data == en.origin == sent == []
    case WRecv(_, total, alive) =>
      Undecided(en) && en.data == en.origin && total == |en.origin| && sent <= en.data && (alive ==> sent == en.data)
    case WAppend(_, total, alive, chunk) =>
      && Undecided(en) && en.origin == en.data + chunk && total == |en.origin|
      && sent <= en.data && (alive ==> sent == en.data)
    case WSend(_, total, chunk) =>
      Undecided(en) && en.data == en.origin == sent + chunk && total == |en.origin|
    case WFail(_) => !en.complete && sent <= en.data
    case WComplete(_) => Undecided(en) && en.data == en.origin && sent <= en.data
    case Release(_, writer, full) =>
      sent <= en.data && (writer ==> en.complete != en.failed) && (full ==> en.complete && sent == en.data)
    case Free(_) => true
    case Close => true
  }

  ghost predicate WorkerOK(entries: seq<Entry>, w: Worker) {
    w.Busy? ==>
      match EntryOf(w.h)
      case Some(e) => e < |entries| && HandlerOK(entries[e], w.h, w.sent)
      case None => w.h.Parse? ==> w.sent == []
  }

  ghost predicate OutcomeOK(entries: seq<Entry>, o: Outcome) {
    && o.e < |entries|
    && o.sent <= entries[o.e].data
    && (o.full ==> entries[o.e].complete && o.sent == entries[o.e].data)
  }

  ghost predicate StreamsOK(s: Proxy) {
    && (forall w :: 0 <= w < |s.workers| ==> WorkerOK(s.entries, s.workers[w]))
    && (forall i :: 0 <= i < |s.outcomes| ==> OutcomeOK(s.entries, s.outcomes[i]))
  }

  // ----- the invariant: pool

  function Upto(n: nat): seq<nat> { seq(n, i => i) }

  ghost predicate TasksOK(s: Proxy) {
    && s.started + s.queue == Upto(s.accepted)
    && s.dropped == []
    && (forall task: nat :: s.done[task] + Count(s.workers, Runs(task)) == One(task < |s.started|))
  }

  ghost predicate PoolOK(s: Proxy) {
    && (Count(s.workers, Sleeps) > 0 ==> Count(s.workers, Idles) >= |s.queue|)
    && (s.stop ==> Count(s.workers, Sleeps) == 0)
    && (forall w :: 0 <= w < |s.workers| && s.workers[w].Exited? ==> s.stop && s.queue == [])
  }

  ghost predicate AllExited(workers: seq<Worker>) {
    forall w :: 0 <= w < |workers| ==> workers[w].Exited?
  }

  ghost predicate MainOK(s: Proxy) {
    && |s.workers| >= 1
    && (s.stop <==> s.main != Accepting)
    && (match s.main
        case Accepting => true
        case Joining(i) => i < |s.workers| && forall w :: 0 <= w < i ==> s.workers[w].Exited?
        case Draining | Clearing => AllExited(s.workers)
        case Finished => AllExited(s.workers) && s.table == map[])
  }

  ghost predicate Inv(s: Proxy) {
    CacheOK(s) && StreamsOK(s) && TasksOK(s) && PoolOK(s) && MainOK(s)
  }

  lemma InitInv(s: Proxy)
    requires Init(s)
    ensures Inv(s)
  {
    CountNone(s.workers, Is(Sleeps));
    forall task ensures Count(s.workers, Runs(task)) == 0 {
      CountNone(s.workers, Is(Runs(task)));
    }
  }

  // ----- a step of a handler, as its own entry sees it

  // How the counts of entry e change when a worker at h goes to k.
  lemma OwnEntry(en: Entry, h: Handler, sent: Bytes, c: Choice, listed: bool, handles: nat, writers: nat, frees: nat)
    requires EntryOf(h).Some? && HandlerOK(en, h, sent)
    requires Fine(en, listed, handles, writers, frees)
    requires (Holds(h, h.e) ==> handles >= 1) && (Writes(h) ==> writers >= 1) && (h.Free? ==> frees >= 1)
    ensures var e := h.e;
            var k := NextPoint(en, h, c);
            Fine(Touch(en, h, c), listed && !(h.Release? && !Kept(Touch(en, h, c))),
                 handles - One(Holds(h, e)) + One(Holds(k, e)),
                 writers - One(Writes(h)) + One(Writes(k)),
                 frees - One(h.Free?) + One(k.Free?))
  {
  }

  lemma OwnReader(en: Entry, h: Handler, sent: Bytes, c: Choice)
    requires h.RCheck? || h.RWait? || h.RSend?
    requires HandlerOK(en, h, sent)
    requires h.RSend? ==> c.taken <= |h.chunk|
    ensures var k := NextPoint(en, h, c);
            EntryOf(k) == Some(h.e) && HandlerOK(en, k, sent + Sends(h, c))
  {
    match h {
      case RCheck(e, off) =>
        var k := NextPoint(en, h, c);
        if k.RSend? {
          assert en.data[..off] + en.data[off..k.off] == en.data[..k.off];
        }
      case RWait(e, off) =>
        assert en.data[..off] == en.data;
      case RSend(e, off, chunk) =>
        if c.taken == |chunk| {
          assert chunk[..c.taken] == chunk;
        } else {
          assert sent + chunk[..c.taken] == (sent + chunk)[..|sent| + c.taken];
        }
    }
  }

  lemma OwnWriter(en: Entry, h: Handler, sent: Bytes, c: Choice)
    requires EntryOf(h).Some? && !h.RCheck? && !h.RWait? && !h.RSend?
    requires HandlerOK(en, h, sent)
    requires h.WSend? ==> c.taken <= |h.chunk|
    ensures var k := NextPoint(en, h, c);
            EntryOf(k).Some? ==> k.e == h.e && HandlerOK(Touch(en, h, c), k, sent + Sends(h, c))
  {
    assert sent + [] == sent;
    if h.WSend? {
      assert h.chunk[..|h.chunk|] == h.chunk;
      assert sent + h.chunk[..c.taken] == (sent + h.chunk)[..|sent| + c.taken];
    }
  }

  lemma OwnHandler(en: Entry, h: Handler, sent: Bytes, c: Choice)
    requires EntryOf(h).Some? && HandlerOK(en, h, sent)
    requires h.RSend? ==> c.taken <= |h.chunk|
    requires h.WSend? ==> c.taken <= |h.chunk|
    ensures var k := NextPoint(en, h, c);
            EntryOf(k).Some? ==> k.e == h.e && HandlerOK(Touch(en, h, c), k, sent + Sends(h, c))
  {
    if h.RCheck? || h.RWait? || h.RSend? {
      OwnReader(en, h, sent, c);
    } else {
      OwnWriter(en, h, sent, c);
    }
  }

  // Another handler of the same entry; it is not writing when this one is.
  lemma OtherHandler(en: Entry, h: Handler, c: Choice, k: Handler, sent: Bytes)
    requires EntryOf(h).Some? && EntryOf(k) == Some(h.e) && HandlerOK(en, k, sent)
    requires Writes(h) ==> Undecided(en) || h.WFail?
    requires Writes(h) ==> !Writes(k)
    requires h.WFail? ==> !en.complete
    ensures var woken := if Signals(en, h) && k.RWait? then RCheck(k.e, k.off) else k;
            HandlerOK(Touch(en, h, c), woken, sent)
  {
  }

  // ----- a step of a handler, as the whole proxy sees it

  ghost predicate Acts(s: Proxy, w: nat, e: nat, c: Choice) {
    && w < |s.workers| && s.workers[w].Busy?
    && EntryOf(s.workers[w].h) == Some(e)
    && Allowed(s, s.workers[w].h, c)
  }

  // Two workers never write the same entry.
  lemma OneWriter(s: Proxy, u: nat, w: nat)
    requires CacheOK(s) && u < |s.workers| && w < |s.workers| && u != w
    requires s.workers[u].Busy? && s.workers[w].Busy?
    requires Writes(s.workers[u].h) && Writes(s.workers[w].h) && s.workers[u].h.e < |s.entries|
    ensures s.workers[u].h.e != s.workers[w].h.e
  {
    assert EntryOK(s.entries, s.table, s.workers, s.workers[u].h.e);
    if s.workers[u].h.e == s.workers[w].h.e {
      CountTwo(s.workers, u, w, Is(Writers(s.workers[u].h.e)));
    }
  }

  lemma HandleCounts(s: Proxy, w: nat, e: nat, c: Choice)
    requires Acts(s, w, e, c)
    ensures var s' := Handle(s, w, e, c);
            |s'.workers| == |s.workers| &&
            forall m :: Count(s'.workers, m)
                        == Count(s.workers, m) - One(Has(m, s.workers[w])) + One(Has(m, s'.workers[w]))
  {
    var h := s.workers[w].h;
    var s' := Handle(s, w, e, c);
    var woken := if Signals(s.entries[e], h) then Broadcast(s.workers, e) else s.workers;
    BroadcastCounts(s.workers, e);
    CountUpdates(woken, w, s'.workers[w]);
  }

  // Entries that the handler does not work with.
  lemma HandleOthers(s: Proxy, w: nat, e: nat, c: Choice, i: nat)
    requires Acts(s, w, e, c) && e < |s.entries| && i < |s.entries| && i != e
    requires EntryOK(s.entries, s.table, s.workers, i)
    ensures var s' := Handle(s, w, e, c); EntryOK(s'.entries, s'.table, s'.workers, i)
  {
    HandleCounts(s, w, e, c);
    NextPointKeeps(s.entries[e], s.workers[w].h, c);
    hide Fine, NextPoint, Touch, Sends;
  }

  // A handler stays with its entry, and does not change whose entry it is.
  lemma NextPointKeeps(en: Entry, h: Handler, c: Choice)
    requires EntryOf(h).Some?
    ensures EntryOf(NextPoint(en, h, c)).Some? ==> NextPoint(en, h, c).e == h.e
    ensures Writes(NextPoint(en, h, c)) ==> EntryOf(NextPoint(en, h, c)).Some?
    ensures Touch(en, h, c).key == en.key
  {
  }

  lemma HandleOwn(s: Proxy, w: nat, e: nat, c: Choice)
    requires Acts(s, w, e, c) && WorkerOK(s.entries, s.workers[w])
    requires e < |s.entries| && EntryOK(s.entries, s.table, s.workers, e)
    ensures var s' := Handle(s, w, e, c); EntryOK(s'.entries, s'.table, s'.workers, e)
  {
    var worker := s.workers[w];
    HandleCounts(s, w, e, c);
    CountUpdate(s.workers, w, Exited, Is(Handles(e)));
    CountUpdate(s.workers, w, Exited, Is(Writers(e)));
    CountUpdate(s.workers, w, Exited, Is(Frees(e)));
    OwnEntry(s.entries[e], worker.h, worker.sent, c, Listed(s.entries, s.table, e),
             Count(s.workers, Handles(e)), Count(s.workers, Writers(e)), Count(s.workers, Frees(e)));
    NextPointKeeps(s.entries[e], worker.h, c);
    hide Fine, HandlerOK, NextPoint, Touch, Sends;
  }

  lemma HandleCache(s: Proxy, w: nat, e: nat, c: Choice)
    requires CacheOK(s) && Acts(s, w, e, c) && WorkerOK(s.entries, s.workers[w])
    ensures CacheOK(Handle(s, w, e, c))
  {
    var s' := Handle(s, w, e, c);
    NextPointKeeps(s.entries[e], s.workers[w].h, c);
    hide NextPoint, Touch, Sends, WorkerOK;
    forall i | 0 <= i < |s'.entries| ensures EntryOK(s'.entries, s'.table, s'.workers, i) {
      assert EntryOK(s.entries, s.table, s.workers, i);
      if i == e {
        HandleOwn(s, w, e, c);
      } else {
        HandleOthers(s, w, e, c, i);
      }
    }
  }

  lemma HandleStreams(s: Proxy, w: nat, e: nat, c: Choice)
    requires CacheOK(s) && StreamsOK(s) && Acts(s, w, e, c)
    ensures StreamsOK(Handle(s, w, e, c))
  {
    var worker, en := s.workers[w], s.entries[e];
    var s' := Handle(s, w, e, c);
    assert WorkerOK(s.entries, worker);
    assert EntryOK(s.entries, s.table, s.workers, e);
    forall u | 0 <= u < |s'.workers| ensures WorkerOK(s'.entries, s'.workers[u]) {
      assert WorkerOK(s.entries, s.workers[u]);
      if u == w {
        OwnHandler(en, worker.h, worker.sent, c);
        ParseIsFirst(en, worker.h, c);
      } else {
        OtherWorker(s, w, e, c, u);
      }
    }
    forall i | 0 <= i < |s'.outcomes| ensures OutcomeOK(s'.entries, s'.outcomes[i]) {
      if i < |s.outcomes| {
        assert OutcomeOK(s.entries, s.outcomes[i]);
        TouchGrows(en, worker.h, worker.sent, c);
      }
    }
  }

  lemma ParseIsFirst(en: Entry, h: Handler, c: Choice)
    requires EntryOf(h).Some?
    ensures !NextPoint(en, h, c).Parse?
  {
  }

  // A step only ever adds to the data of an entry, and not to the data of a complete one.
  lemma TouchGrows(en: Entry, h: Handler, sent: Bytes, c: Choice)
    requires EntryOf(h).Some? && HandlerOK(en, h, sent)
    ensures en.data <= Touch(en, h, c).data
    ensures en.complete ==> Touch(en, h, c).complete && Touch(en, h, c).data == en.data
  {
  }

  lemma OtherWorker(s: Proxy, w: nat, e: nat, c: Choice, u: nat)
    requires CacheOK(s) && Acts(s, w, e, c) && WorkerOK(s.entries, s.workers[w])
    requires u < |s.workers| && u != w && WorkerOK(s.entries, s.workers[u])
    ensures WorkerOK(Handle(s, w, e, c).entries, Handle(s, w, e, c).workers[u])
  {
    var h := s.workers[w].h;
    if s.workers[u].Busy? && EntryOf(s.workers[u].h) == Some(e) {
      if Writes(h) && Writes(s.workers[u].h) {
        OneWriter(s, u, w);
      }
      OtherHandler(s.entries[e], h, c, s.workers[u].h, s.workers[u].sent);
      hide HandlerOK, Touch, NextPoint, Sends;
    } else {
      hide HandlerOK, Touch, NextPoint, Sends;
    }
  }

  // ----- joining an entry

  ghost predicate Begins(s: Proxy, w: nat) {
    w < |s.workers| && s.workers[w].Busy? && s.workers[w].h.Parse?
  }

  // A failed entry that nobody holds is never in the table, so cache_start_or_join never drops one.
  lemma NeverDropped(s: Proxy, key: Key)
    requires CacheOK(s) && key in s.table
    ensures s.table[key] < |s.entries|
    ensures !(s.entries[s.table[key]].failed && s.entries[s.table[key]].refcnt == 0)
  {
    assert EntryOK(s.entries, s.table, s.workers, s.table[key]);
  }

  // No worker holds, writes or destroys an entry that does not exist yet.
  lemma NobodyYet(s: Proxy, e: nat)
    requires forall u :: 0 <= u < |s.workers| ==> WorkerOK(s.entries, s.workers[u])
    requires e >= |s.entries|
    ensures Count(s.workers, Handles(e)) == Count(s.workers, Writers(e)) == Count(s.workers, Frees(e)) == 0
  {
    forall u | 0 <= u < |s.workers|
      ensures !Has(Handles(e), s.workers[u]) && !Has(Writers(e), s.workers[u]) && !Has(Frees(e), s.workers[u])
    {
      assert WorkerOK(s.entries, s.workers[u]);
    }
    CountNone(s.workers, Is(Handles(e)));
    CountNone(s.workers, Is(Writers(e)));
    CountNone(s.workers, Is(Frees(e)));
  }

  predicate Creates(s: Proxy, c: Choice) { !c.reject && c.key !in s.table && c.ok }

  predicate Shares(s: Proxy, c: Choice) { !c.reject && c.key in s.table }

  lemma CreateCache(s: Proxy, w: nat, c: Choice)
    requires CacheOK(s) && StreamsOK(s) && Begins(s, w) && Creates(s, c)
    ensures CacheOK(Begin(s, w, c))
  {
    var s' := Begin(s, w, c);
    CountUpdates(s.workers, w, s'.workers[w]);
    NobodyYet(s, |s.entries|);
    forall i | 0 <= i < |s'.entries| ensures EntryOK(s'.entries, s'.table, s'.workers, i) {
      if i < |s.entries| {
        assert EntryOK(s.entries, s.table, s.workers, i);
      }
    }
  }

  lemma ShareCache(s: Proxy, w: nat, c: Choice)
    requires CacheOK(s) && Begins(s, w) && Shares(s, c)
    ensures CacheOK(Begin(s, w, c))
  {
    var s' := Begin(s, w, c);
    NeverDropped(s, c.key);
    CountUpdates(s.workers, w, s'.workers[w]);
    forall i | 0 <= i < |s'.entries| ensures EntryOK(s'.entries, s'.table, s'.workers, i) {
      assert EntryOK(s.entries, s.table, s.workers, i);
    }
  }

  lemma BeginStreams(s: Proxy, w: nat, c: Choice)
    requires CacheOK(s) && StreamsOK(s) && Begins(s, w) && (Creates(s, c) || Shares(s, c))
    ensures StreamsOK(Begin(s, w, c))
  {
    var s' := Begin(s, w, c);
    if c.key in s.table {
      NeverDropped(s, c.key);
    }
    forall u | 0 <= u < |s'.workers| ensures WorkerOK(s'.entries, s'.workers[u]) {
      assert WorkerOK(s.entries, s.workers[u]);
    }
    forall i | 0 <= i < |s'.outcomes| ensures OutcomeOK(s'.entries, s'.outcomes[i]) {
      assert OutcomeOK(s.entries, s.outcomes[i]);
    }
  }

  // ----- steps that leave the cache alone

  // No worker starts, stops or changes what it does with an entry.
  ghost predicate SameWork(one: seq<Worker>, two: seq<Worker>) {
    && |one| == |two|
    && (forall w, e :: 0 <= w < |one| ==>
          && Has(Handles(e), one[w]) == Has(Handles(e), two[w])
          && Has(Writers(e), one[w]) == Has(Writers(e), two[w])
          && Has(Frees(e), one[w]) == Has(Frees(e), two[w]))
  }

  lemma CacheAlone(s: Proxy, s': Proxy)
    requires CacheOK(s) && s'.entries == s.entries && s'.table == s.table
    requires SameWork(s.workers, s'.workers)
    ensures CacheOK(s')
  {
    forall e | 0 <= e < |s.entries| ensures EntryOK(s'.entries, s'.table, s'.workers, e) {
      assert EntryOK(s.entries, s.table, s.workers, e);
      CountSame(s.workers, s'.workers, Is(Handles(e)));
      CountSame(s.workers, s'.workers, Is(Writers(e)));
      CountSame(s.workers, s'.workers, Is(Frees(e)));
    }
  }

  predicate OffWork(w: Worker) { !w.Busy? || (w.Busy? && (w.h == Close || (w.h == Parse && w.sent == []))) }

  // A worker that takes a task, finishes one, falls asleep, wakes up or exits.
  lemma AwayFromCache(s: Proxy, s': Proxy)
    requires CacheOK(s) && StreamsOK(s)
    requires s'.entries == s.entries && s'.table == s.table && s'.outcomes == s.outcomes
    requires |s'.workers| == |s.workers|
    requires forall w :: 0 <= w < |s.workers| ==>
               s'.workers[w] == s.workers[w] || (OffWork(s.workers[w]) && OffWork(s'.workers[w]))
    ensures CacheOK(s') && StreamsOK(s')
  {
    CacheAlone(s, s');
    forall u | 0 <= u < |s'.workers| ensures WorkerOK(s'.entries, s'.workers[u]) {
      assert WorkerOK(s.entries, s.workers[u]);
    }
  }

  // cache_table_destroy, when every worker has exited.
  lemma ClearCache(s: Proxy)
    requires CacheOK(s) && StreamsOK(s) && AllExited(s.workers)
    ensures var s' := s.(entries := DestroyAll(s.entries, s.table), table := map[], main := Finished);
            CacheOK(s') && StreamsOK(s')
  {
    var s' := s.(entries := DestroyAll(s.entries, s.table), table := map[], main := Finished);
    forall e | 0 <= e < |s.entries| ensures EntryOK(s'.entries, s'.table, s'.workers, e) {
      assert EntryOK(s.entries, s.table, s.workers, e);
      CountNone(s.workers, Is(Handles(e)));
      CountNone(s.workers, Is(Frees(e)));
    }
    forall i | 0 <= i < |s'.outcomes| ensures OutcomeOK(s'.entries, s'.outcomes[i]) {
      assert OutcomeOK(s.entries, s.outcomes[i]);
    }
  }

  // ----- the pool

  // A step of a busy worker that stays with its task.
  lemma WorkOn(s: Proxy, s': Proxy, w: nat)
    requires TasksOK(s) && PoolOK(s) && MainOK(s)
    requires w < |s.workers| == |s'.workers| && s.workers[w].Busy? && s'.workers[w].Busy?
    requires s'.workers[w].task == s.workers[w].task
    requires forall u :: 0 <= u < |s.workers| && u != w ==>
               s'.workers[u] == s.workers[u]
               || (s.workers[u].Busy? && s'.workers[u].Busy? && s'.workers[u].task == s.workers[u].task)
    requires s'.queue == s.queue && s'.stop == s.stop && s'.main == s.main && s'.accepted == s.accepted
    requires s'.started == s.started && s'.done == s.done && s'.dropped == s.dropped
    requires s.main == Finished ==> s'.table == s.table
    ensures TasksOK(s') && PoolOK(s') && MainOK(s')
  {
    CountSame(s.workers, s'.workers, Is(Idles));
    CountSame(s.workers, s'.workers, Is(Sleeps));
    forall task: nat ensures Count(s'.workers, Runs(task)) == Count(s.workers, Runs(task)) {
      CountSame(s.workers, s'.workers, Is(Runs(task)));
    }
  }

  lemma TakeTask(s: Proxy, w: nat)
    requires TasksOK(s) && PoolOK(s) && MainOK(s)
    requires w < |s.workers| && s.workers[w].Idle?
    ensures TasksOK(Take(s, w)) && PoolOK(Take(s, w)) && MainOK(Take(s, w))
  {
    var s' := Take(s, w);
    CountUpdates(s.workers, w, s'.workers[w]);
    hide Count;
    if s.queue != [] {
      assert s.started + s.queue == s'.started + s'.queue;
      assert (s.started + s.queue)[|s.started|] == |s.started|;
    }
  }

  lemma EndTask(s: Proxy, w: nat)
    requires TasksOK(s) && PoolOK(s) && MainOK(s)
    requires w < |s.workers| && s.workers[w].Busy?
    ensures var s' := s.(done := s.done + multiset{s.workers[w].task}, workers := s.workers[w := Idle]);
            TasksOK(s') && PoolOK(s') && MainOK(s')
  {
    CountUpdates(s.workers, w, Idle);
  }

  lemma WakeOne(s: Proxy, w: nat)
    requires TasksOK(s) && PoolOK(s) && MainOK(s)
    requires w < |s.workers| && s.workers[w].Asleep?
    ensures var s' := s.(workers := s.workers[w := Idle]); TasksOK(s') && PoolOK(s') && MainOK(s')
  {
    CountUpdates(s.workers, w, Idle);
  }

  lemma SubmitTask(s: Proxy, w: nat)
    requires TasksOK(s) && PoolOK(s) && MainOK(s) && Enabled(s, Submit(w))
    ensures var s' := Do(s, Submit(w)); TasksOK(s') && PoolOK(s') && MainOK(s')
  {
    var s' := Do(s, Submit(w));
    if w < |s.workers| && s.workers[w].Asleep? {
      CountUpdates(s.workers, w, Idle);
    } else {
      CountNone(s.workers, Is(Sleeps));
    }
    assert s'.started + s'.queue == (s.started + s.queue) + [s.accepted];
  }

  lemma StopThePool(s: Proxy)
    requires TasksOK(s) && PoolOK(s) && MainOK(s) && s.main == Accepting
    ensures var s' := Do(s, StopPool); TasksOK(s') && PoolOK(s') && MainOK(s')
  {
    var s' := Do(s, StopPool);
    CountNone(s'.workers, Is(Sleeps));
    forall task: nat ensures Count(s'.workers, Runs(task)) == Count(s.workers, Runs(task)) {
      CountSame(s.workers, s'.workers, Is(Runs(task)));
    }
  }

  // ----- every step keeps the invariant

  lemma TurnInv(s: Proxy, w: nat, c: Choice)
    requires Inv(s) && Enabled(s, Turn(w, c))
    ensures Inv(Do(s, Turn(w, c)))
  {
    var s' := Do(s, Turn(w, c));
    hide CacheOK, StreamsOK, TasksOK, PoolOK, MainOK;
    match s.workers[w] {
      case Idle =>
        AwayFromCache(s, s');
        TakeTask(s, w);
      case Asleep =>
        AwayFromCache(s, s');
        WakeOne(s, w);
      case Busy(task, h, sent) =>
        BusyInv(s, w, c);
    }
  }

  lemma BusyInv(s: Proxy, w: nat, c: Choice)
    requires Inv(s) && Enabled(s, Turn(w, c)) && s.workers[w].Busy?
    ensures Inv(Do(s, Turn(w, c)))
  {
    var s' := Do(s, Turn(w, c));
    var h := s.workers[w].h;
    assert WorkerOK(s.entries, s.workers[w]);
    hide CacheOK, StreamsOK, TasksOK, PoolOK;
    if EntryOf(h).Some? {
      HandleCache(s, w, h.e, c);
      HandleStreams(s, w, h.e, c);
      WorkOn(s, s', w);
    } else if h.Parse? {
      BeginInv(s, w, c);
    } else {
      AwayFromCache(s, s');
      EndTask(s, w);
    }
  }

  lemma BeginInv(s: Proxy, w: nat, c: Choice)
    requires Inv(s) && Begins(s, w) && WorkerOK(s.entries, s.workers[w])
    ensures Inv(Begin(s, w, c))
  {
    hide CacheOK, StreamsOK, TasksOK, PoolOK;
    if Creates(s, c) {
      CreateCache(s, w, c);
      BeginStreams(s, w, c);
    } else if Shares(s, c) {
      ShareCache(s, w, c);
      BeginStreams(s, w, c);
    } else {
      AwayFromCache(s, Begin(s, w, c));
    }
    WorkOn(s, Begin(s, w, c), w);
  }

  lemma StepInv(s: Proxy, ev: Event)
    requires Inv(s) && Enabled(s, ev)
    ensures Inv(Do(s, ev))
  {
    match ev {
      case Turn(w, c) => TurnInv(s, w, c);
      case Submit(w) => SubmitTask(s, w); AwayFromCache(s, Do(s, ev));
      case StopPool => StopThePool(s); AwayFromCache(s, Do(s, ev));
      case JoinWorker => AwayFromCache(s, Do(s, ev));
      case Drain => DrainQueue(s); AwayFromCache(s, Do(s, ev));
      case ClearTable => ClearCache(s);
    }
  }

  lemma DrainQueue(s: Proxy)
    requires TasksOK(s) && PoolOK(s) && MainOK(s) && s.main == Draining
    ensures s.queue == []
    ensures var s' := Do(s, Drain); TasksOK(s') && PoolOK(s') && MainOK(s')
  {
    assert s.workers[0].Exited?;
  }
}
