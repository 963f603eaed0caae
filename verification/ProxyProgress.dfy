/**
 What the proxy gets done: for every request and every conversation with an origin, what a worker's own steps lead to,
 whatever the other workers are at.
 */
module ProxyProgress {
  import opened Basics
  import opened ProxyMachine
  import opened ProxyInvariant
  import opened ProxyTheorems
  import H = ProxyHandler

  // ----- runs

  ghost predicate Reaches(run: seq<Proxy>, s: Proxy) { IsRun(run) && run[|run| - 1] == s }

  lemma Extend(run: seq<Proxy>, s: Proxy, ev: Event) returns (longer: seq<Proxy>)
    requires Reaches(run, s) && Enabled(s, ev)
    ensures Reaches(longer, Do(s, ev)) && run <= longer
  {
    hide Init, Enabled, Do;
    longer := run + [Do(s, ev)];
    forall k | 0 <= k < |longer| - 1 ensures Moves(longer[k], longer[k + 1]) {
      if k < |run| - 1 {
        assert Moves(run[k], run[k + 1]);
      }
    }
  }

  // ----- one worker

  // Worker w runs this task; it is at h, has sent this much, and works with entry e, which is en.
  ghost predicate Works(s: Proxy, w: nat, task: nat, h: Handler, sent: Bytes, e: nat, en: Entry) {
    && w < |s.workers| && s.workers[w] == Busy(task, h, sent)
    && e < |s.entries| && s.entries[e] == en
  }

  // The rest of the proxy has not been touched, apart from readers that may have been woken.
  ghost predicate Leaves(s: Proxy, s': Proxy, w: nat, e: nat) {
    && |s'.workers| == |s.workers| && |s'.entries| == |s.entries|
    && (forall d :: 0 <= d < |s.entries| && d != e ==> s'.entries[d] == s.entries[d])
    && (forall u :: 0 <= u < |s.workers| && u != w ==>
          s'.workers[u] == s.workers[u] || s'.workers[u] == Wake(s.workers[u], e))
    && s'.queue == s.queue && s'.stop == s.stop && s'.main == s.main && s'.accepted == s.accepted
    && s'.started == s.started && s'.done == s.done
  }

  lemma LeavesOn(one: Proxy, two: Proxy, three: Proxy, w: nat, e: nat)
    requires Leaves(one, two, w, e) && Leaves(two, three, w, e)
    ensures Leaves(one, three, w, e)
  {
  }

  // A step of the worker with its entry.
  lemma Act(run: seq<Proxy>, s: Proxy, w: nat, task: nat, h: Handler, sent: Bytes, e: nat, en: Entry, c: Choice)
    returns (longer: seq<Proxy>, s': Proxy)
    requires Reaches(run, s) && Works(s, w, task, h, sent, e, en)
    requires EntryOf(h) == Some(e) && Allowed(s, h, c)
    ensures Reaches(longer, s') && run <= longer && Leaves(s, s', w, e)
    ensures Works(s', w, task, NextPoint(en, h, c), sent + Sends(h, c), e, Touch(en, h, c))
    ensures h.Release? ==> s'.outcomes == s.outcomes + [Outcome(task, e, sent, h.full)]
    ensures !h.Release? ==> s'.outcomes == s.outcomes && s'.table == s.table
    ensures h.Release? ==> s'.table == if Kept(Touch(en, h, c)) then s.table else Unlink(s.entries, s.table, e)
  {
    longer := Extend(run, s, Turn(w, c));
    s' := Do(s, Turn(w, c));
    hide NextPoint, Touch, Sends, Signals, Allowed;
  }

  // ----- the writer

  // The entry is still the one with this key, and as many hold it.
  predicate Kin(one: Entry, two: Entry) { two.key == one.key && two.refcnt == one.refcnt && two.frees == one.frees }

  predicate Sized(answers: seq<Received>) {
    forall i :: 0 <= i < |answers| && answers[i].Data? ==> 1 <= |answers[i].chunk| <= 8192
  }

  function Say(r: Received): Choice { Choice(false, [], true, 0, r) }

  function Can(ok: bool, taken: nat): Choice { Choice(false, [], ok, taken, Interrupted) }

  // The writer has marked the entry and comes to release it.
  ghost predicate Settled(s: Proxy, s': Proxy, w: nat, task: nat, sent: Bytes, e: nat, en: Entry, en': Entry) {
    && Works(s', w, task, Release(e, true, false), sent, e, en')
    && Kin(en, en') && en'.failed == !en'.complete && Leaves(s, s', w, e)
    && s'.outcomes == s.outcomes && s'.table == s.table
  }

  lemma SettledOn(one: Proxy, two: Proxy, three: Proxy, w: nat, task: nat, sent: Bytes, e: nat, en: Entry, mid: Entry,
                  en': Entry)
    requires Leaves(one, two, w, e) && two.outcomes == one.outcomes && two.table == one.table && Kin(en, mid)
    requires Settled(two, three, w, task, sent, e, mid, en')
    ensures Settled(one, three, w, task, sent, e, en, en')
  {
    LeavesOn(one, two, three, w, e);
  }

  // From a point where it only has to mark the entry.
  lemma Mark(run: seq<Proxy>, s: Proxy, w: nat, task: nat, h: Handler, sent: Bytes, e: nat, en: Entry)
    returns (longer: seq<Proxy>, s': Proxy, en': Entry)
    requires Reaches(run, s) && Works(s, w, task, h, sent, e, en)
    requires (h == WFail(e) && !en.complete) || (h == WComplete(e) && !en.complete && !en.failed)
    ensures Reaches(longer, s') && run <= longer && Settled(s, s', w, task, sent, e, en, en')
    ensures en'.complete == h.WComplete? && en'.data == en.data && en'.origin == en.origin
  {
    longer, s' := Act(run, s, w, task, h, sent, e, en, Can(true, 0));
    en' := s'.entries[e];
    assert sent + [] == sent;
  }

  // The state of a writer before answer number i.
  ghost predicate Receiving(s: Proxy, w: nat, task: nat, sent: Bytes, e: nat, en: Entry, answers: seq<Received>,
                            taken: nat -> nat, i: nat, alive: bool) {
    && Works(s, w, task, WRecv(e, |en.data|, alive), sent, e, en)
    && !en.complete && !en.failed && en.origin == en.data
    && H.Fetching(answers, taken, i, en.data, sent, alive)
  }

  // One chunk; the writer goes on, or fails.
  lemma TakeChunk(run: seq<Proxy>, s: Proxy, w: nat, task: nat, sent: Bytes, e: nat, en: Entry, answers: seq<Received>,
                  granted: nat -> bool, taken: nat -> nat, i: nat, alive: bool)
    returns (longer: seq<Proxy>, s': Proxy, sent': Bytes, en': Entry, alive': bool)
    requires Reaches(run, s) && Receiving(s, w, task, sent, e, en, answers, taken, i, alive)
    requires H.Conversation(answers) && Sized(answers) && answers[i].Data?
    ensures Reaches(longer, s') && run <= longer && Leaves(s, s', w, e) && Kin(en, en')
    ensures s'.outcomes == s.outcomes && s'.table == s.table
    ensures if granted(i) then Receiving(s', w, task, sent', e, en', answers, taken, i + 1, alive')
            else Works(s', w, task, WFail(e), sent', e, en') && sent' == sent && en'.data == en.data && !en'.complete
  {
    hide Leaves, IsRun, H.Conversation, H.Arrived, H.Delivered, H.Patient;
    var chunk, total := answers[i].chunk, |en.data|;
    longer, s' := Act(run, s, w, task, WRecv(e, total, alive), sent, e, en, Say(answers[i]));
    en', sent', alive' := s'.entries[e], sent, alive;
    var one := s';
    assert sent + [] == sent;
    longer, s' := Act(longer, s', w, task, WAppend(e, total + |chunk|, alive, chunk), sent, e, en', Can(granted(i), 0));
    en' := s'.entries[e];
    LeavesOn(s, one, s', w, e);
    if granted(i) {
      H.FetchesOn(answers, taken, i, en.data, sent, alive);
      if alive {
        var two, some := s', if taken(i) < |chunk| then taken(i) else |chunk|;
        longer, s' := Act(longer, s', w, task, WSend(e, total + |chunk|, chunk), sent, e, en', Can(true, some));
        sent', alive' := sent + chunk[..some], some == |chunk|;
        LeavesOn(s, two, s', w, e);
      } else {
        assert sent + [] == sent;
      }
    }
  }

  // The conversation, from answer number i on.
  lemma {:induction false} Converse(run: seq<Proxy>, s: Proxy, w: nat, task: nat, sent: Bytes, e: nat, en: Entry,
                                    answers: seq<Received>, granted: nat -> bool, taken: nat -> nat, i: nat,
                                    alive: bool)
    returns (longer: seq<Proxy>, s': Proxy, sent': Bytes, en': Entry, upto: nat)
    requires Reaches(run, s) && Receiving(s, w, task, sent, e, en, answers, taken, i, alive)
    requires H.Conversation(answers) && Sized(answers)
    ensures Reaches(longer, s') && run <= longer && Settled(s, s', w, task, sent', e, en, en')
    ensures H.Fetched(answers, granted, taken, upto, en'.data, en'.complete, sent')
    decreases |answers| - i
  {
    hide Leaves, IsRun, H.Fetched, H.Arrived, H.Delivered, H.Patient;
    H.ArrivedStep(answers, i);
    var mid, mids := s, en;
    if answers[i].Data? {
      var still;
      longer, mid, sent', mids, still := TakeChunk(run, s, w, task, sent, e, en, answers, granted, taken, i, alive);
      if granted(i) {
        longer, s', sent', en', upto :=
          Converse(longer, mid, w, task, sent', e, mids, answers, granted, taken, i + 1, still);
      } else {
        longer, s', en' := Mark(longer, mid, w, task, WFail(e), sent', e, mids);
        upto := i;
        H.FetchEnds(answers, granted, taken, i, en.data, sent, alive, false);
      }
    } else {
      longer, mid := Act(run, s, w, task, WRecv(e, |en.data|, alive), sent, e, en, Say(answers[i]));
      assert sent + [] == sent;
      if answers[i].Interrupted? {
        H.FetchesOn(answers, taken, i, en.data, sent, alive);
        longer, s', sent', en', upto :=
          Converse(longer, mid, w, task, sent, e, en, answers, granted, taken, i + 1, alive);
      } else {
        var whole := answers[i].Closed? || (answers[i].Reset? && en.data != []);
        longer, s', en' := Mark(longer, mid, w, task, if whole then WComplete(e) else WFail(e), sent, e, en);
        sent', upto := sent, i;
        H.FetchEnds(answers, granted, taken, i, en.data, sent, alive, whole);
      }
    }
    SettledOn(s, mid, s', w, task, sent', e, en, mids, en');
  }

  // ----- the end of a handler

  // Worker w has finished the task.  Of the entries only number e has changed, of the workers only those asleep on it.
  ghost predicate Served(s: Proxy, s': Proxy, w: nat, task: nat, e: nat) {
    && |s'.workers| == |s.workers| && w < |s'.workers| && s'.workers[w] == Idle
    && |s'.entries| >= |s.entries|
    && (forall d :: 0 <= d < |s.entries| && d != e ==> s'.entries[d] == s.entries[d])
    && (forall u :: 0 <= u < |s.workers| && u != w ==>
          s'.workers[u] == s.workers[u] || s'.workers[u] == Wake(s.workers[u], e))
    && s'.queue == s.queue && s'.stop == s.stop && s'.main == s.main && s'.accepted == s.accepted
    && s'.started == s.started && s'.done == s.done + multiset{task}
  }

  lemma ServedOn(one: Proxy, two: Proxy, three: Proxy, w: nat, task: nat, e: nat)
    requires Leaves(one, two, w, e) && Served(two, three, w, task, e)
    ensures Served(one, three, w, task, e)
  {
  }

  lemma CloseClient(run: seq<Proxy>, s: Proxy, w: nat, task: nat, sent: Bytes, e: nat)
    returns (longer: seq<Proxy>, s': Proxy)
    requires Reaches(run, s) && w < |s.workers| && s.workers[w] == Busy(task, Close, sent)
    ensures Reaches(longer, s') && run <= longer && Served(s, s', w, task, e)
    ensures s'.entries == s.entries && s'.table == s.table && s'.outcomes == s.outcomes
  {
    longer := Extend(run, s, Turn(w, Can(true, 0)));
    s' := Do(s, Turn(w, Can(true, 0)));
  }

  // cache_release, the destruction of the entry if it comes to that, and the end of the task.
  lemma Finish(run: seq<Proxy>, s: Proxy, w: nat, task: nat, writer: bool, full: bool, sent: Bytes, e: nat, en: Entry)
    returns (longer: seq<Proxy>, s': Proxy)
    requires Reaches(run, s) && Works(s, w, task, Release(e, writer, full), sent, e, en)
    ensures Reaches(longer, s') && run <= longer && Served(s, s', w, task, e) && |s'.entries| == |s.entries|
    ensures s'.outcomes == s.outcomes + [Outcome(task, e, sent, full)]
    ensures var kept := en.refcnt > 1 || (en.complete && !en.failed);
            && s'.entries[e] == en.(refcnt := en.refcnt - 1, frees := en.frees + One(!kept))
            && s'.table == if kept || !Listed(s.entries, s.table, e) then s.table else s.table - {en.key}
  {
    hide IsRun;
    var kept := en.refcnt > 1 || (en.complete && !en.failed);
    var h := Release(e, writer, full);
    longer, s' := Act(run, s, w, task, h, sent, e, en, Can(true, 0));
    var mid := s';
    if !kept {
      longer, s' := Act(longer, s', w, task, Free(e), sent + [], e, s'.entries[e], Can(true, 0));
      LeavesOn(s, mid, s', w, e);
    }
    var last := s';
    longer, s' := CloseClient(longer, s', w, task, s'.workers[w].sent, e);
    ServedOn(s, last, s', w, task, e);
  }

  // ----- a request for a key that is not in the cache

  ghost predicate Began(s: Proxy, s': Proxy, w: nat, task: nat, key: Key) {
    && w < |s.workers| && s'.workers == s.workers[w := Busy(task, WConnect(|s.entries|), [])]
    && s'.entries == s.entries + [NewEntry(key)] && s'.table == s.table[key := |s.entries|]
    && s'.outcomes == s.outcomes
    && s'.queue == s.queue && s'.stop == s.stop && s'.main == s.main && s'.accepted == s.accepted
    && s'.started == s.started && s'.done == s.done
  }

  lemma BeginMiss(run: seq<Proxy>, s: Proxy, w: nat, task: nat, key: Key) returns (longer: seq<Proxy>, s': Proxy)
    requires Reaches(run, s) && w < |s.workers| && s.workers[w] == Busy(task, Parse, []) && key !in s.table
    ensures Reaches(longer, s') && run <= longer && Began(s, s', w, task, key)
  {
    var c := Choice(false, key, true, 0, Interrupted);
    longer := Extend(run, s, Turn(w, c));
    s' := Do(s, Turn(w, c));
  }

  // A request that is rejected, or for which no entry can be had, ends with the cache as it was.
  lemma GivesUp(run: seq<Proxy>, s: Proxy, w: nat, task: nat, c: Choice) returns (longer: seq<Proxy>, s': Proxy)
    requires Reaches(run, s) && w < |s.workers| && s.workers[w] == Busy(task, Parse, [])
    requires c.reject || (c.key !in s.table && !c.ok)
    ensures Reaches(longer, s') && run <= longer && Served(s, s', w, task, |s.entries|)
    ensures s'.entries == s.entries && s'.table == s.table && s'.outcomes == s.outcomes
  {
    longer := Extend(run, s, Turn(w, c));
    s' := Do(s, Turn(w, c));
    longer, s' := CloseClient(longer, s', w, task, [], |s.entries|);
  }

  lemma BeganServed(one: Proxy, two: Proxy, three: Proxy, w: nat, task: nat, key: Key)
    requires Began(one, two, w, task, key) && Served(two, three, w, task, |one.entries|)
    ensures Served(one, three, w, task, |one.entries|)
  {
  }

  // From the connection to the mark.
  lemma Attempt(run: seq<Proxy>, s: Proxy, w: nat, task: nat, e: nat, en: Entry, connects: bool, requested: bool,
                answers: seq<Received>, granted: nat -> bool, taken: nat -> nat)
    returns (longer: seq<Proxy>, s': Proxy, sent: Bytes, en': Entry, upto: nat)
    requires Reaches(run, s) && Works(s, w, task, WConnect(e), [], e, en)
    requires !en.complete && !en.failed && en.data == en.origin == []
    requires H.Conversation(answers) && Sized(answers)
    ensures Reaches(longer, s') && run <= longer && Settled(s, s', w, task, sent, e, en, en')
    ensures if connects && requested then H.Fetched(answers, granted, taken, upto, en'.data, en'.complete, sent)
            else sent == [] && en'.data == [] && !en'.complete
  {
    hide Leaves, IsRun, H.Fetched, H.Arrived, H.Delivered;
    upto := 0;
    longer, s' := Act(run, s, w, task, WConnect(e), [], e, en, Can(connects, 0));
    var mid := s';
    var nothing: Bytes := [];
    assert nothing + [] == nothing;
    if !connects {
      longer, s' := Act(longer, s', w, task, WGateway(e), [], e, en, Can(true, 0));
      LeavesOn(s, mid, s', w, e);
      mid := s';
      sent := [];
      longer, s', en' := Mark(longer, s', w, task, WFail(e), sent, e, en);
    } else {
      longer, s' := Act(longer, s', w, task, WRequest(e), [], e, en, Can(requested, 0));
      LeavesOn(s, mid, s', w, e);
      mid := s';
      if !requested {
        sent := [];
        longer, s', en' := Mark(longer, s', w, task, WFail(e), sent, e, en);
      } else {
        StartsFetching(answers, taken);
        longer, s', sent, en', upto := Converse(longer, s', w, task, [], e, en, answers, granted, taken, 0, true);
      }
    }
    SettledOn(s, mid, s', w, task, sent, e, en, en, en');
  }

  lemma StartsFetching(answers: seq<Received>, taken: nat -> nat)
    requires H.Conversation(answers)
    ensures H.Fetching(answers, taken, 0, [], [], true)
  {
    H.ArrivedStart(answers);
    assert answers[..0] == [];
  }

  // Whatever state the proxy is in, a worker that has just got a request for a key not in the cache can serve it by its
  // own steps alone.  If it connects and its request goes out, the entry becomes what the conversation makes of it, as
  // for the loop in memory; else it fails, with no data.  A complete entry stays in the cache and is held by nobody; a
  // failed one is destroyed.
  lemma WriterServes(run: seq<Proxy>, s: Proxy, w: nat, task: nat, key: Key, connects: bool, requested: bool,
                     answers: seq<Received>, granted: nat -> bool, taken: nat -> nat)
    returns (longer: seq<Proxy>, s': Proxy, sent: Bytes, upto: nat)
    requires Reaches(run, s) && w < |s.workers| && s.workers[w] == Busy(task, Parse, []) && key !in s.table
    requires H.Conversation(answers) && Sized(answers)
    ensures Reaches(longer, s') && run <= longer && Served(s, s', w, task, |s.entries|)
    ensures |s'.entries| == |s.entries| + 1
    ensures s'.outcomes == s.outcomes + [Outcome(task, |s.entries|, sent, false)]
    ensures var en := s'.entries[|s.entries|];
            && en.key == key && en.refcnt == 0 && en.failed == !en.complete && en.frees == One(!en.complete)
            && s'.table == (if en.complete then s.table[key := |s.entries|] else s.table)
            && if connects && requested then H.Fetched(answers, granted, taken, upto, en.data, en.complete, sent)
               else sent == [] && en.data == [] && !en.complete
  {
    hide IsRun, H.Fetched, H.Conversation, Sized;
    var e := |s.entries|;
    var en;
    longer, s' := BeginMiss(run, s, w, task, key);
    var one := s';
    longer, s', sent, en, upto :=
      Attempt(longer, s', w, task, e, NewEntry(key), connects, requested, answers, granted, taken);
    var two := s';
    longer, s' := Finish(longer, s', w, task, true, false, sent, e, en);
    SettledServed(one, two, s', w, task, sent, e, NewEntry(key), en);
    BeganServed(s, one, s', w, task, key);
    assert s.table[key := e] - {key} == s.table;
  }

  lemma SettledServed(one: Proxy, two: Proxy, three: Proxy, w: nat, task: nat, sent: Bytes, e: nat, en: Entry,
                      en': Entry)
    requires Settled(one, two, w, task, sent, e, en, en') && Served(two, three, w, task, e)
    ensures Served(one, three, w, task, e)
  {
    ServedOn(one, two, three, w, task, e);
  }

  // When everything goes well, the cache and a client that takes everything have exactly what the origin sent.
  lemma WriterCaches(run: seq<Proxy>, s: Proxy, w: nat, task: nat, key: Key, answers: seq<Received>)
    returns (longer: seq<Proxy>, s': Proxy)
    requires Reaches(run, s) && w < |s.workers| && s.workers[w] == Busy(task, Parse, []) && key !in s.table
    requires H.Conversation(answers) && Sized(answers)
    ensures Reaches(longer, s') && run <= longer && Served(s, s', w, task, |s.entries|)
    ensures |s'.entries| == |s.entries| + 1
    ensures s'.outcomes == s.outcomes + [Outcome(task, |s.entries|, H.Arrived(answers), false)]
    ensures var en := s'.entries[|s.entries|];
            && en.data == H.Arrived(answers) && en.complete == H.Whole(answers) && en.failed == !en.complete
            && en.key == key && en.refcnt == 0 && en.frees == One(!en.complete)
            && s'.table == if en.complete then s.table[key := |s.entries|] else s.table
  {
    var sent, upto;
    longer, s', sent, upto := WriterServes(run, s, w, task, key, true, true, answers, _ => true, _ => 8192);
    var en := s'.entries[|s.entries|];
    H.FetchedMeans(answers, _ => true, _ => 8192, upto, en.data, en.complete, sent);
  }

  // ----- a request for a key that is in the cache

  // The reader has sent what there is, or has lost its client.
  ghost predicate Streamed(s: Proxy, s': Proxy, w: nat, task: nat, e: nat, en: Entry, sent: Bytes, all: bool) {
    && Leaves(s, s', w, e) && s'.outcomes == s.outcomes && s'.table == s.table
    && Works(s', w, task, if all && !en.complete then RWait(e, |en.data|) else Release(e, false, all), sent, e, en)
  }

  // What there is for a client at `off`, of which it takes `took` bytes.
  lemma NextPiece(en: Entry, e: nat, off: nat, took: nat) returns (chunk: Bytes, some: nat)
    requires off < |en.data| && !en.failed
    ensures |chunk| == (if |en.data| - off < 4096 then |en.data| - off else 4096)
    ensures some == if took < |chunk| then took else |chunk|
    ensures NextPoint(en, RCheck(e, off), Can(true, 0)) == RSend(e, off + |chunk|, chunk)
    ensures en.data[..off] + [] == en.data[..off] && en.data[..off] + chunk[..some] == en.data[..off + some]
  {
    chunk := en.data[off..off + (if |en.data| - off < 4096 then |en.data| - off else 4096)];
    some := if took < |chunk| then took else |chunk|;
  }

  // One piece: the reader is back at the entry, or has lost its client.
  lemma Piece(run: seq<Proxy>, s: Proxy, w: nat, task: nat, e: nat, en: Entry, off: nat, took: nat)
    returns (longer: seq<Proxy>, s': Proxy)
    requires off < |en.data| && !en.failed
    requires Reaches(run, s) && Works(s, w, task, RCheck(e, off), en.data[..off], e, en)
    ensures Reaches(longer, s') && run <= longer && Leaves(s, s', w, e)
    ensures s'.outcomes == s.outcomes && s'.table == s.table
    ensures var size := if |en.data| - off < 4096 then |en.data| - off else 4096;
            if took < size then Works(s', w, task, Release(e, false, false), en.data[..off + took], e, en)
            else Works(s', w, task, RCheck(e, off + size), en.data[..off + size], e, en)
  {
    var chunk, some := NextPiece(en, e, off, took);
    assert Works(s, w, task, RCheck(e, off), en.data[..off], e, en) && e < |s.entries|;
    hide Leaves, IsRun, Look, Works, Do, Enabled;
    longer, s' := Act(run, s, w, task, RCheck(e, off), en.data[..off], e, en, Can(true, 0));
    var one := s';
    assert e < |s'.entries| by { assert Leaves(s, s', w, e); }
    longer, s' := Act(longer, s', w, task, RSend(e, off + |chunk|, chunk), en.data[..off], e, en, Can(true, some));
    LeavesOn(s, one, s', w, e);
  }

  lemma {:induction false} Stream(run: seq<Proxy>, s: Proxy, w: nat, task: nat, e: nat, en: Entry, off: nat, k: nat,
                                  taken: nat -> nat)
    returns (longer: seq<Proxy>, s': Proxy)
    requires off <= |en.data| && !en.failed
    requires Reaches(run, s) && Works(s, w, task, RCheck(e, off), en.data[..off], e, en)
    ensures Reaches(longer, s') && run <= longer
    ensures var (sent, all) := H.Cut(en.data, off, k, taken); Streamed(s, s', w, task, e, en, sent, all)
    decreases |en.data| - off
  {
    hide Leaves, IsRun;
    if off < |en.data| {
      hide Works;
      var size := if |en.data| - off < 4096 then |en.data| - off else 4096;
      longer, s' := Piece(run, s, w, task, e, en, off, taken(k));
      if taken(k) >= size {
        var mid := s';
        longer, s' := Stream(longer, s', w, task, e, en, off + size, k + 1, taken);
        LeavesOn(s, mid, s', w, e);
      }
    } else {
      longer, s' := Act(run, s, w, task, RCheck(e, off), en.data[..off], e, en, Can(true, 0));
      assert en.data[..off] + [] == en.data[..off];
      assert en.data[..off] == en.data;
    }
  }

  lemma BeginHit(run: seq<Proxy>, s: Proxy, w: nat, task: nat, key: Key, memory: bool)
    returns (longer: seq<Proxy>, s': Proxy)
    requires Reaches(run, s) && w < |s.workers| && s.workers[w] == Busy(task, Parse, []) && key in s.table
    ensures s.table[key] < |s.entries|
    ensures var e := s.table[key];
            var en := s.entries[e];
            && Listed(s.entries, s.table, e)
            && (!en.complete || en.failed ==> en.refcnt >= 1)
            && Reaches(longer, s') && run <= longer && Leaves(s, s', w, e)
            && s'.outcomes == s.outcomes && s'.table == s.table
            && Works(s', w, task, RCheck(e, 0), [], e, en.(refcnt := en.refcnt + 1))
  {
    RunInv(run, |run| - 1);
    var e := s.table[key];
    NeverDropped(s, key);
    assert EntryOK(s.entries, s.table, s.workers, e);
    var c := Choice(false, key, memory, 0, Interrupted);
    longer := Extend(run, s, Turn(w, c));
    s' := Do(s, Turn(w, c));
    hide Inv, IsRun, EntryOK;
  }

  // What has become of the request: its worker sleeps until the writer goes on, or has finished the task.
  ghost predicate Answered(s: Proxy, s': Proxy, w: nat, task: nat, e: nat, en: Entry, taken: nat -> nat) {
    var (sent, all) := if en.failed then ([], false) else H.Cut(en.data, 0, 0, taken);
    if all && !en.complete then
      Leaves(s, s', w, e) && s'.outcomes == s.outcomes
      && Works(s', w, task, RWait(e, |en.data|), en.data, e, en.(refcnt := en.refcnt + 1))
    else
      Served(s, s', w, task, e) && s'.entries == s.entries
      && s'.outcomes == s.outcomes + [Outcome(task, e, sent, all)]
  }

  // Whatever state the proxy is in, a worker that has just got a request for a key in the cache serves it by its own
  // steps alone, and needs no memory for a new entry: it sends nothing of a failed entry, and all there is of another,
  // as far as the client takes it; if that is everything it stops with a complete entry, and waits for more with one
  // that is not.
  lemma ReaderServes(run: seq<Proxy>, s: Proxy, w: nat, task: nat, key: Key, memory: bool, taken: nat -> nat)
    returns (longer: seq<Proxy>, s': Proxy)
    requires Reaches(run, s) && w < |s.workers| && s.workers[w] == Busy(task, Parse, []) && key in s.table
    ensures Reaches(longer, s') && run <= longer && s'.table == s.table
    ensures s.table[key] < |s.entries|
    ensures Answered(s, s', w, task, s.table[key], s.entries[s.table[key]], taken)
  {
    hide IsRun, Leaves, Served;
    longer, s' := BeginHit(run, s, w, task, key, memory);
    var one, e := s', s.table[key];
    var en := s.entries[e].(refcnt := s.entries[e].refcnt + 1);
    var sent, all := [], false;
    if en.failed {
      longer, s' := Act(longer, s', w, task, RCheck(e, 0), [], e, en, Can(true, 0));
      assert sent + [] == sent;
    } else {
      longer, s' := Stream(longer, s', w, task, e, en, 0, 0, taken);
      var cut := H.Cut(en.data, 0, 0, taken);
      sent, all := cut.0, cut.1;
    }
    LeavesOn(s, one, s', w, e);
    if !all || en.complete {
      var two := s';
      longer, s' := Finish(longer, s', w, task, false, all, sent, e, en);
      ServedOn(s, two, s', w, task, e);
      EntriesBack(s, s', w, task, e);
    }
  }

  lemma EntriesBack(s: Proxy, s': Proxy, w: nat, task: nat, e: nat)
    requires Served(s, s', w, task, e) && |s'.entries| == |s.entries| && e < |s.entries|
    requires s'.entries[e] == s.entries[e]
    ensures s'.entries == s.entries
  {
  }

  // One fetch serves both: when the client that asked first has been served and its origin's answer was whole, one that
  // asks for the same key gets the same bytes from the cache.
  lemma HitAfterMiss(run: seq<Proxy>, s: Proxy, w: nat, task: nat, u: nat, next: nat, key: Key, answers: seq<Received>)
    returns (longer: seq<Proxy>, s': Proxy)
    requires Reaches(run, s) && key !in s.table && w < |s.workers| && u < |s.workers| && w != u
    requires s.workers[w] == Busy(task, Parse, []) && s.workers[u] == Busy(next, Parse, [])
    requires H.Conversation(answers) && Sized(answers) && H.Whole(answers)
    ensures Reaches(longer, s') && run <= longer
    ensures var e, body := |s.entries|, H.Arrived(answers);
            && |s'.entries| == e + 1 && s'.entries[e].data == body && s'.table == s.table[key := e]
            && s'.outcomes == s.outcomes + [Outcome(task, e, body, false), Outcome(next, e, body, true)]
            && s'.done == s.done + multiset{task, next}
  {
    hide IsRun, H.Conversation, Sized, H.Whole, H.Arrived;
    longer, s' := WriterCaches(run, s, w, task, key, answers);
    var mid := s';
    var all: nat -> nat := _ => 4096;
    longer, s' := ReaderServes(longer, s', u, next, key, true, all);
    assert H.Cut(mid.entries[|s.entries|].data, 0, 0, all).1;
  }
}
