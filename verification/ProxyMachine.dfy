/**
 The caching proxy as a whole: the accepting thread, the pool of workers (`threadpool/threadpool.c`),
 the handler that each worker runs for a client (`proxy/proxy.c`) and the table of cache entries
 they share (`cache/cache.c`).

 One step is one critical section of a lock, one blocking call, or one step of a thread on its
 own.  What the network answers is chosen by the step: any chunks, in any sizes, ending in any way.
 */
module ProxyMachine {
  import opened Basics

  type Bytes = seq<Byte>

  // `origin` and `frees` are history: what the writer received for the entry, and how often
  // the entry was destroyed.
  datatype Entry = Entry(key: Key, data: Bytes, origin: Bytes, complete: bool, failed: bool, refcnt: int, frees: nat)

  // Where a handler is; `e` is the entry it works with.
  datatype Handler =
    | Parse
    // stream_from_cache
    | RCheck(e: nat, off: nat)
    | RWait(e: nat, off: nat)
    | RSend(e: nat, off: nat, chunk: Bytes)
    // the writer's part of handle_client
    | WConnect(e: nat)
    | WGateway(e: nat)
    | WRequest(e: nat)
    | WRecv(e: nat, total: nat, alive: bool)
    | WAppend(e: nat, total: nat, alive: bool, chunk: Bytes)
    | WSend(e: nat, total: nat, chunk: Bytes)
    | WFail(e: nat)
    | WComplete(e: nat)
    // cache_release
    | Release(e: nat, writer: bool, full: bool)
    | Free(e: nat)
    | Close

  // `sent` is history: what the handler has sent to its client, a 502 reply apart.
  datatype Worker = Idle | Asleep | Exited | Busy(task: nat, h: Handler, sent: Bytes)

  datatype Main = Accepting | Joining(i: nat) | Draining | Clearing | Finished

  // What a handler that had an entry sent to its client; `full`: it stopped because the entry was complete.
  datatype Outcome = Outcome(task: nat, e: nat, sent: Bytes, full: bool)

  // `accepted`, `started`, `done`, `dropped` and `outcomes` are history.
  datatype Proxy = Proxy(
    entries: seq<Entry>,
    table: map<Key, nat>,
    workers: seq<Worker>,
    queue: seq<nat>,
    stop: bool,
    main: Main,
    accepted: nat,
    started: seq<nat>,
    done: multiset<nat>,
    dropped: seq<nat>,
    outcomes: seq<Outcome>)

  datatype Received = Data(chunk: Bytes) | Closed | Reset | Broken | Interrupted

  // What a step of a worker leaves open: which key a request names or that it is rejected, whether a
  // call succeeds, how many bytes of a chunk the client takes, what the origin answers.
  datatype Choice = Choice(reject: bool, key: Key, ok: bool, taken: nat, received: Received)

  // Turn: the next step of a worker; for one that waits on a condition variable, a spurious wakeup.
  datatype Event =
    | Submit(signalled: nat)
    | StopPool
    | JoinWorker
    | Drain
    | ClearTable
    | Turn(w: nat, c: Choice)

  // ----- the cache

  predicate Listed(entries: seq<Entry>, table: map<Key, nat>, e: nat) {
    e < |entries| && entries[e].key in table && table[entries[e].key] == e
  }

  function NewEntry(key: Key): Entry { Entry(key, [], [], false, false, 1, 0) }

  datatype Joined = Joined(entries: seq<Entry>, table: map<Key, nat>, e: Option<nat>, writer: bool)

  function Create(entries: seq<Entry>, table: map<Key, nat>, key: Key, ok: bool): Joined {
    if ok then Joined(entries + [NewEntry(key)], table[key := |entries|], Some(|entries|), true)
    else Joined(entries, table, None, true)
  }

  // cache_start_or_join; `ok`: a new entry can be allocated.
  function StartOrJoin(entries: seq<Entry>, table: map<Key, nat>, key: Key, ok: bool): Joined {
    if key in table && table[key] < |entries| then
      var e := table[key];
      if entries[e].failed && entries[e].refcnt == 0 then
        Create(entries[e := entries[e].(frees := entries[e].frees + 1)], table - {key}, key, ok)
      else
        Joined(entries[e := entries[e].(refcnt := entries[e].refcnt + 1)], table, Some(e), false)
    else Create(entries, table, key, ok)
  }

  // cache_release: true when the last handle is gone and the entry is kept.
  predicate Kept(entry: Entry) { entry.refcnt > 0 || (entry.complete && !entry.failed) }

  function Unlink(entries: seq<Entry>, table: map<Key, nat>, e: nat): map<Key, nat> {
    if Listed(entries, table, e) then table - {entries[e].key} else table
  }

  // cache_table_destroy
  function DestroyAll(entries: seq<Entry>, table: map<Key, nat>): seq<Entry> {
    seq(|entries|, i requires 0 <= i < |entries| =>
      if Listed(entries, table, i) then entries[i].(frees := entries[i].frees + 1) else entries[i])
  }

  // pthread_cond_broadcast on the entry's condition variable.
  function Wake(w: Worker, e: nat): Worker {
    if w.Busy? && w.h.RWait? && w.h.e == e then w.(h := RCheck(e, w.h.off)) else w
  }

  function Broadcast(workers: seq<Worker>, e: nat): seq<Worker> {
    seq(|workers|, i requires 0 <= i < |workers| => Wake(workers[i], e))
  }

  // ----- the pool

  function WakeAll(workers: seq<Worker>): seq<Worker> {
    seq(|workers|, i requires 0 <= i < |workers| => if workers[i].Asleep? then Idle else workers[i])
  }

  // One turn of workerLoop up to the task or the wait.
  function Take(s: Proxy, w: nat): Proxy
    requires w < |s.workers|
  {
    if s.queue == [] then s.(workers := s.workers[w := if s.stop then Exited else Asleep])
    else s.(workers := s.workers[w := Busy(s.queue[0], Parse, [])], queue := s.queue[1..],
            started := s.started + [s.queue[0]])
  }

  // ----- steps

  function EntryOf(h: Handler): Option<nat> {
    match h
    case Parse => None
    case Close => None
    case _ => Some(h.e)
  }

  predicate Allowed(s: Proxy, h: Handler, c: Choice) {
    && (EntryOf(h).Some? ==> EntryOf(h).value < |s.entries|)
    && (h.RSend? ==> c.taken <= |h.chunk|)
    && (h.WSend? ==> c.taken <= |h.chunk|)
    && (h.WRecv? && c.received.Data? ==> 1 <= |c.received.chunk| <= 8192)
  }

  predicate Enabled(s: Proxy, ev: Event) {
    match ev
    case Submit(w) =>
      s.main == Accepting && ((exists u :: 0 <= u < |s.workers| && s.workers[u].Asleep?)
                              ==> w < |s.workers| && s.workers[w].Asleep?)
    case StopPool => s.main == Accepting
    case JoinWorker => s.main.Joining? && s.main.i < |s.workers| && s.workers[s.main.i].Exited?
    case Drain => s.main == Draining
    case ClearTable => s.main == Clearing
    case Turn(w, c) =>
      && w < |s.workers|
      && !s.workers[w].Exited?
      && (s.workers[w].Busy? ==> Allowed(s, s.workers[w].h, c))
  }

  // The pass of stream_from_cache through the entry's lock.
  function Look(en: Entry, e: nat, off: nat): Handler {
    if off == |en.data| && !en.complete && !en.failed then RWait(e, off)
    else if en.failed then Release(e, false, false)
    else if off == |en.data| && en.complete then Release(e, false, true)
    else
      var avail := if off <= |en.data| then |en.data| - off else 0;
      var chunk := if avail < 4096 then avail else 4096;
      RSend(e, off + chunk, if off <= |en.data| then en.data[off..off + chunk] else [])
  }

  // What the writer does with an answer of recv.
  function Receive(e: nat, total: nat, alive: bool, r: Received): Handler {
    match r
    case Data(chunk) => WAppend(e, total + |chunk|, alive, chunk)
    case Closed => WComplete(e)
    case Reset => if total > 0 then WComplete(e) else WFail(e)
    case Broken => WFail(e)
    case Interrupted => WRecv(e, total, alive)
  }

  // What a step of a handler does to its entry.
  function Touch(en: Entry, h: Handler, c: Choice): Entry {
    match h
    case WRecv(_, _, _) =>
      if c.received.Data? then en.(origin := en.origin + c.received.chunk) else en
    case WAppend(_, _, _, chunk) =>
      // cache_append_data; c.ok: memory can be had when it is needed
      if en.failed then en else if c.ok then en.(data := en.data + chunk) else en.(failed := true)
    case WFail(_) => en.(failed := true)
    case WComplete(_) => en.(complete := true)
    case Release(_, _, _) => en.(refcnt := en.refcnt - 1)
    case Free(_) => en.(frees := en.frees + 1)
    case _ => en
  }

  // Whether it wakes those that wait for the entry.
  predicate Signals(en: Entry, h: Handler) {
    h.WFail? || h.WComplete? || (h.WAppend? && !en.failed)
  }

  // Where it goes next.
  function NextPoint(en: Entry, h: Handler, c: Choice): Handler {
    match h
    case RCheck(e, off) => Look(en, e, off)
    case RWait(e, off) => RCheck(e, off)
    case RSend(e, off, chunk) => if c.taken == |chunk| then RCheck(e, off) else Release(e, false, false)
    case WConnect(e) => if c.ok then WRequest(e) else WGateway(e)
    case WGateway(e) => WFail(e)
    case WRequest(e) => if c.ok then WRecv(e, 0, true) else WFail(e)
    case WRecv(e, total, alive) => Receive(e, total, alive, c.received)
    case WAppend(e, total, alive, chunk) =>
      if en.failed || !c.ok then WFail(e)
      else if alive then WSend(e, total, chunk)
      else WRecv(e, total, false)
    case WSend(e, total, chunk) => WRecv(e, total, c.taken == |chunk|)
    case WFail(e) => Release(e, true, false)
    case WComplete(e) => Release(e, true, false)
    case Release(e, _, _) => if Kept(Touch(en, h, c)) then Close else Free(e)
    case Free(_) => Close
    case _ => h
  }

  // What it sends to the client.
  function Sends(h: Handler, c: Choice): Bytes {
    match h
    case RSend(_, _, chunk) => if c.taken <= |chunk| then chunk[..c.taken] else []
    case WSend(_, _, chunk) => if c.taken <= |chunk| then chunk[..c.taken] else []
    case _ => []
  }

  // A step of a handler that works with entry e.
  function Handle(s: Proxy, w: nat, e: nat, c: Choice): Proxy
    requires w < |s.workers| && s.workers[w].Busy? && e < |s.entries|
  {
    var worker := s.workers[w];
    var en := Touch(s.entries[e], worker.h, c);
    s.(entries := s.entries[e := en],
       table := if worker.h.Release? && !Kept(en) then Unlink(s.entries, s.table, e) else s.table,
       workers := (if Signals(s.entries[e], worker.h) then Broadcast(s.workers, e) else s.workers)
                  [w := Busy(worker.task, NextPoint(s.entries[e], worker.h, c), worker.sent + Sends(worker.h, c))],
       outcomes := if worker.h.Release? then s.outcomes + [Outcome(worker.task, e, worker.sent, worker.h.full)]
                   else s.outcomes)
  }

  // The request is rejected, or an entry is joined or started for it.
  function Begin(s: Proxy, w: nat, c: Choice): Proxy
    requires w < |s.workers| && s.workers[w].Busy?
  {
    var worker := s.workers[w];
    if c.reject then s.(workers := s.workers[w := Busy(worker.task, Close, worker.sent)])
    else
      var j := StartOrJoin(s.entries, s.table, c.key, c.ok);
      var h := match j.e
               case None => Close
               case Some(e) => if j.writer then WConnect(e) else RCheck(e, 0);
      s.(entries := j.entries, table := j.table, workers := s.workers[w := Busy(worker.task, h, worker.sent)])
  }

  function Do(s: Proxy, ev: Event): Proxy
    requires Enabled(s, ev)
  {
    match ev
    case Submit(w) =>
      if s.stop then s
      else
        s.(queue := s.queue + [s.accepted], accepted := s.accepted + 1,
           workers := if w < |s.workers| && s.workers[w].Asleep? then s.workers[w := Idle] else s.workers)
    case StopPool =>
      s.(stop := true, workers := WakeAll(s.workers), main := if s.workers == [] then Draining else Joining(0))
    case JoinWorker => s.(main := if s.main.i + 1 < |s.workers| then Joining(s.main.i + 1) else Draining)
    case Drain => s.(dropped := s.queue, queue := [], main := Clearing)
    case ClearTable => s.(entries := DestroyAll(s.entries, s.table), table := map[], main := Finished)
    case Turn(w, c) =>
      match s.workers[w]
      case Idle => Take(s, w)
      case Asleep => s.(workers := s.workers[w := Idle])
      case Busy(task, h, _) =>
        (match EntryOf(h)
         case Some(e) => Handle(s, w, e, c)
         case None =>
           if h.Parse? then Begin(s, w, c)
           else s.(done := s.done + multiset{task}, workers := s.workers[w := Idle]))
      case Exited => s
  }

  predicate Init(s: Proxy) {
    && s.entries == [] && s.table == map[] && s.queue == [] && !s.stop && s.main == Accepting
    && s.accepted == 0 && s.started == [] && s.done == multiset{} && s.dropped == [] && s.outcomes == []
    && |s.workers| >= 1
    && (forall w :: 0 <= w < |s.workers| ==> s.workers[w].Idle?)
  }

  ghost predicate Moves(s: Proxy, s': Proxy) {
    exists ev :: Enabled(s, ev) && s' == Do(s, ev)
  }

  ghost predicate IsRun(run: seq<Proxy>) {
    && run != []
    && Init(run[0])
    && (forall k :: 0 <= k < |run| - 1 ==> Moves(run[k], run[k + 1]))
  }
}
