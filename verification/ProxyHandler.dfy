/**
 The two loops of the handler (`proxy/proxy.c`) on an entry in memory, each as it runs when no other thread comes
 between: the writer's, which fetches a body from an origin, and the reader's, which streams it.  How they
 run together is the subject of ProxyMachine.
 */
module ProxyHandler {
  import C = CacheStore
  import opened ProxyMachine

  // An origin sends chunks, with interrupted calls in between, and then something that ends the loop.
  predicate Conversation(answers: seq<Received>) {
    && answers != []
    && (forall i :: 0 <= i < |answers| - 1 ==> answers[i].Data? || answers[i].Interrupted?)
    && !answers[|answers| - 1].Data? && !answers[|answers| - 1].Interrupted?
  }

  // The bytes that arrive.
  function Arrived(answers: seq<Received>): Bytes {
    if answers == [] then []
    else Arrived(answers[..|answers| - 1])
         + (if answers[|answers| - 1].Data? then answers[|answers| - 1].chunk else [])
  }

  // A connection that is closed ends a body, and so does one that is reset once there is any of it.
  predicate Whole(answers: seq<Received>) {
    answers != [] &&
      match answers[|answers| - 1]
      case Closed => true
      case Reset => Arrived(answers) != []
      case _ => false
  }

  lemma {:induction false} ArrivedGrows(answers: seq<Received>, i: nat)
    requires i <= |answers|
    ensures Arrived(answers[..i]) <= Arrived(answers)
    decreases |answers| - i
  {
    if i < |answers| {
      assert answers[..i + 1][..i] == answers[..i];
      ArrivedGrows(answers, i + 1);
    } else {
      assert answers[..i] == answers;
    }
  }

  lemma ArrivedStep(answers: seq<Received>, i: nat)
    requires Conversation(answers) && i < |answers|
    ensures Arrived(answers[..i + 1]) == Arrived(answers[..i]) + (if answers[i].Data? then answers[i].chunk else [])
    ensures Arrived(answers[..i]) <= Arrived(answers[..i + 1]) <= Arrived(answers)
    ensures if answers[i].Data? || answers[i].Interrupted? then i + 1 < |answers|
            else i + 1 == |answers| && Arrived(answers) == Arrived(answers[..i])
  {
    var longer := answers[..i + 1];
    assert longer[..i] == answers[..i] && longer[|longer| - 1] == answers[i];
    assert i + 1 == |answers| ==> longer == answers;
    ArrivedGrows(answers, i + 1);
  }

  lemma ArrivedStart(answers: seq<Received>)
    ensures Arrived(answers[..0]) == []
  {
  }

  // What the client gets of a chunk.
  function Piece(chunk: Bytes, alive: bool, taken: nat): Bytes {
    if !alive then [] else if taken < |chunk| then chunk[..taken] else chunk
  }

  lemma PieceFits(sent: Bytes, body: Bytes, chunk: Bytes, alive: bool, taken: nat)
    requires sent <= body && (alive ==> sent == body)
    ensures var longer := sent + Piece(chunk, alive, taken);
            longer <= body + chunk && (alive && taken >= |chunk| ==> longer == body + chunk)
  {
  }

  // One turn of the writer's loop: a chunk is stored, and passed on while the client takes everything; any other
  // answer than an interrupted call settles the entry.
  method Answer(e: C.Entry, r: Received, total: nat, granted: bool, alive: bool, taken: nat)
    returns (ended: bool, piece: Bytes, still: bool)
    requires e.Holding() && !e.complete && !e.failed
    requires r.Data? ==> |e.Body()| + |r.chunk| < C.WORD
    modifies e`data, e`size, e`capacity, e`failed, e`complete, e`copied, e.Block()
    ensures e.Holding() && fresh(e.Block() - old(e.Block()))
    ensures if ended then e.complete != e.failed else !e.complete && !e.failed
    ensures e.Body() == if r.Data? && !ended then old(e.Body()) + r.chunk else old(e.Body())
    ensures !ended ==> r.Interrupted? || r.Data?
    ensures r.Interrupted? ==> !ended
    ensures ended && r.Data? ==> !granted && e.failed
    ensures e.complete <==> r.Closed? || (r.Reset? && total > 0)
    ensures piece == if r.Data? && !ended then Piece(r.chunk, alive, taken) else []
    ensures still == (alive && !(r.Data? && !ended && taken < |r.chunk|))
  {
    ended, piece, still := false, [], alive;
    if r.Interrupted? { return; }
    if r.Data? {
      var stored, _ := e.Append(r.chunk, granted);
      if stored != 0 {
        e.MarkFailed();
        return true, [], alive;
      }
      if alive {
        piece := if taken < |r.chunk| then r.chunk[..taken] else r.chunk;
        still := taken >= |r.chunk|;
      }
      return;
    }
    if r.Closed? || (r.Reset? && total > 0) {
      e.MarkComplete();
    } else {
      e.MarkFailed();
    }
    ended := true;
  }

  // Whether the client takes all the chunks among the first i answers.
  predicate Patient(answers: seq<Received>, taken: nat -> nat, i: nat)
    requires i <= |answers|
  {
    forall j :: 0 <= j < i && answers[j].Data? ==> taken(j) >= |answers[j].chunk|
  }

  // What the client gets of the answers: all chunks up to the first of which it does not take everything.
  function Delivered(answers: seq<Received>, taken: nat -> nat): Bytes {
    if answers == [] then []
    else
      var n := |answers| - 1;
      Delivered(answers[..n], taken)
      + (if answers[n].Data? then Piece(answers[n].chunk, Patient(answers, taken, n), taken(n)) else [])
  }

  lemma DeliveredStep(answers: seq<Received>, taken: nat -> nat, i: nat)
    requires i < |answers|
    ensures Delivered(answers[..i + 1], taken)
            == Delivered(answers[..i], taken)
               + (if answers[i].Data? then Piece(answers[i].chunk, Patient(answers, taken, i), taken(i)) else [])
  {
    assert answers[..i + 1][..i] == answers[..i];
    assert Patient(answers[..i + 1], taken, i) == Patient(answers, taken, i);
  }

  // Before answer number i: what has been stored and what has been sent.
  ghost predicate Fetching(answers: seq<Received>, taken: nat -> nat, i: nat, body: Bytes, sent: Bytes, alive: bool) {
    && i < |answers|
    && body == Arrived(answers[..i]) && sent == Delivered(answers[..i], taken)
    && sent <= body && (alive ==> sent == body)
    && alive == Patient(answers, taken, i)
  }

  // At the end, answer number upto: either memory could not be had for it, and the entry has failed; or it is the last
  // one, and the entry is complete exactly when it makes the body a whole one.
  ghost predicate Fetched(answers: seq<Received>, granted: nat -> bool, taken: nat -> nat, upto: nat,
                          body: Bytes, complete: bool, sent: Bytes) {
    && upto < |answers|
    && body == Arrived(answers[..upto]) && sent == Delivered(answers[..upto], taken) && sent <= body
    && (Patient(answers, taken, upto) ==> sent == body)
    && if answers[upto].Data? || answers[upto].Interrupted? then answers[upto].Data? && !granted(upto) && !complete
       else upto + 1 == |answers| && complete == (answers[upto].Closed? || (answers[upto].Reset? && body != []))
  }

  // So the entry is complete exactly when the origin has sent the whole body, provided memory could be had for it,
  // and then it holds that body; the client has the beginning of it, and all of it if it was patient.
  lemma FetchedMeans(answers: seq<Received>, granted: nat -> bool, taken: nat -> nat, upto: nat, body: Bytes,
                     complete: bool, sent: Bytes)
    requires Conversation(answers) && Fetched(answers, granted, taken, upto, body, complete, sent)
    ensures sent <= body <= Arrived(answers)
    ensures complete ==> Whole(answers) && body == Arrived(answers)
    ensures (forall i :: 0 <= i < |answers| ==> granted(i)) ==> complete == Whole(answers) && body == Arrived(answers)
    ensures complete && Patient(answers, taken, |answers|) ==> sent == body
  {
    ArrivedStep(answers, upto);
  }

  lemma ArrivedRoom(answers: seq<Received>, taken: nat -> nat, i: nat, body: Bytes, sent: Bytes, alive: bool)
    requires Conversation(answers) && Fetching(answers, taken, i, body, sent, alive)
    ensures i < |answers|
    ensures answers[i].Data? ==> |body| + |answers[i].chunk| <= |Arrived(answers)|
  {
    ArrivedStep(answers, i);
  }

  lemma FetchesOn(answers: seq<Received>, taken: nat -> nat, i: nat, body: Bytes, sent: Bytes, alive: bool)
    requires Conversation(answers) && Fetching(answers, taken, i, body, sent, alive)
    requires answers[i].Data? || answers[i].Interrupted?
    ensures var (chunk, piece, still) := if answers[i].Data?
                                         then (answers[i].chunk, Piece(answers[i].chunk, alive, taken(i)),
                                               alive && taken(i) >= |answers[i].chunk|)
                                         else ([], [], alive);
            Fetching(answers, taken, i + 1, body + chunk, sent + piece, still)
  {
    ArrivedStep(answers, i);
    DeliveredStep(answers, taken, i);
    if answers[i].Data? {
      PieceFits(sent, body, answers[i].chunk, alive, taken(i));
    } else {
      assert body + [] == body && sent + [] == sent;
    }
  }

  lemma FetchEnds(answers: seq<Received>, granted: nat -> bool, taken: nat -> nat, i: nat, body: Bytes, sent: Bytes,
                  alive: bool, complete: bool)
    requires Conversation(answers) && Fetching(answers, taken, i, body, sent, alive)
    requires answers[i].Data? ==> !granted(i)
    requires !answers[i].Interrupted?
    requires complete <==> answers[i].Closed? || (answers[i].Reset? && body != [])
    ensures Fetched(answers, granted, taken, i, body, complete, sent)
  {
    ArrivedStep(answers, i);
  }

  // The writer's loop.  `granted(i)`: realloc would succeed for answer number i; `taken(i)`: how many bytes of it
  // the client takes.
  method Fetch(e: C.Entry, answers: seq<Received>, granted: nat -> bool, taken: nat -> nat)
    returns (sent: Bytes, ghost upto: nat)
    requires e.Holding() && e.Body() == [] && !e.complete && !e.failed
    requires Conversation(answers) && |Arrived(answers)| < C.WORD
    modifies e`data, e`size, e`capacity, e`failed, e`complete, e`copied, e.Block()
    ensures e.Holding() && e.complete != e.failed
    ensures Fetched(answers, granted, taken, upto, e.Body(), e.complete, sent)
  {
    hide C.Entry.Holding, C.Entry.Body, Arrived, Piece, Fetched;
    var alive, total, i, ended := true, 0, 0, false;
    sent := [];
    assert Fetching(answers, taken, 0, [], [], true) by { ArrivedStart(answers); }
    hide Fetching, Conversation;
    while !ended
      invariant e.Holding() && fresh(e.Block() - old(e.Block()))
      invariant !ended ==> Fetching(answers, taken, i, e.Body(), sent, alive) && total == |e.Body()|
      invariant if ended then e.complete != e.failed else !e.complete && !e.failed
      invariant ended ==> Fetched(answers, granted, taken, i, e.Body(), e.complete, sent)
      decreases !ended, |answers| - i
    {
      ghost var body := e.Body();
      ArrivedRoom(answers, taken, i, body, sent, alive);
      if answers[i].Data? {
        total := total + |answers[i].chunk|;
      }
      var piece, still;
      ended, piece, still := Answer(e, answers[i], total, granted(i), alive, taken(i));
      if ended {
        FetchEnds(answers, granted, taken, i, body, sent, alive, e.complete);
        assert sent + piece == sent;
      } else {
        FetchesOn(answers, taken, i, body, sent, alive);
        i := i + 1;
      }
      sent, alive := sent + piece, still;
    }
    upto := i;
  }

  // What the writer may do to the entry before the reader next holds the entry's lock.
  datatype Change = Nothing | Grow(chunk: Bytes, granted: bool) | Finish | Fail

  function Volume(changes: seq<Change>): nat {
    if changes == [] then 0
    else (if changes[0].Grow? then |changes[0].chunk| else 0) + Volume(changes[1..])
  }

  // What there is to see of an entry.
  datatype Doc = Doc(body: Bytes, complete: bool, failed: bool)

  ghost function DocOf(e: C.Entry): Doc
    requires e.Holding()
    reads e`data, e`size, e`capacity, e`copied, e`complete, e`failed, e.data
  {
    Doc(e.Body(), e.complete, e.failed)
  }

  predicate Marked(d: Doc) { d.complete || d.failed }

  // A writer leaves an entry alone that it has marked.
  function Changed(d: Doc, change: Change): Doc {
    if Marked(d) then d
    else match change
         case Nothing => d
         case Grow(chunk, _) => d.(body := d.body + chunk)
         case Finish => d.(complete := true)
         case Fail => d.(failed := true)
  }

  // All the changes, one after the other, when memory can be had for every chunk.
  function Evolved(d: Doc, changes: seq<Change>): Doc {
    if changes == [] then d else Changed(Evolved(d, changes[..|changes| - 1]), changes[|changes| - 1])
  }

  predicate Granted(changes: seq<Change>) {
    forall i :: 0 <= i < |changes| && changes[i].Grow? ==> changes[i].granted
  }

  function Chunks(changes: seq<Change>): Bytes {
    if changes == [] then []
    else Chunks(changes[..|changes| - 1])
         + (if changes[|changes| - 1].Grow? then changes[|changes| - 1].chunk else [])
  }

  // Up to the first mark the chunks are stored one behind the other.
  lemma {:induction false} EvolvedBody(d: Doc, changes: seq<Change>)
    requires !Marked(d) && Finish !in changes && Fail !in changes
    ensures Evolved(d, changes) == d.(body := d.body + Chunks(changes))
    decreases |changes|
  {
    if changes != [] {
      EvolvedBody(d, changes[..|changes| - 1]);
    }
  }

  // After a mark nothing changes.
  lemma {:induction false} EvolvedMarked(d: Doc, changes: seq<Change>, k: nat)
    requires k <= |changes| && Marked(Evolved(d, changes[..k]))
    ensures Evolved(d, changes) == Evolved(d, changes[..k])
    decreases |changes|
  {
    if k < |changes| {
      assert changes[..|changes| - 1][..k] == changes[..k];
      EvolvedMarked(d, changes[..|changes| - 1], k);
    } else {
      assert changes[..k] == changes;
    }
  }

  // The first mark, change number f, decides what becomes of the entry.
  lemma EvolvedMeans(d: Doc, changes: seq<Change>, f: nat)
    requires !Marked(d) && f < |changes| && (changes[f].Finish? || changes[f].Fail?)
    requires Finish !in changes[..f] && Fail !in changes[..f]
    ensures Evolved(d, changes) == Doc(d.body + Chunks(changes[..f]), changes[f].Finish?, changes[f].Fail?)
  {
    EvolvedBody(d, changes[..f]);
    assert changes[..f + 1][..f] == changes[..f];
    EvolvedMarked(d, changes, f + 1);
  }

  // What a change does to an entry, also when there is no memory for a chunk.
  ghost predicate Happens(was: Doc, change: Change, now: Doc) {
    && was.body <= now.body && |now.body| <= |was.body| + Volume([change])
    && ((change.Grow? ==> change.granted) || !now.failed ==> now == Changed(was, change))
    && (Marked(was) ==> now == was)
    && (change.Finish? || change.Fail? ==> Marked(now))
  }

  method Meanwhile(e: C.Entry, change: Change)
    requires e.Holding() && |e.Body()| + Volume([change]) < C.WORD
    modifies e`data, e`size, e`capacity, e`failed, e`complete, e`copied, e.Block()
    ensures e.Holding() && fresh(e.Block() - old(e.Block()))
    ensures Happens(old(DocOf(e)), change, DocOf(e))
  {
    if !e.complete && !e.failed {
      match change {
        case Nothing =>
        case Grow(chunk, granted) =>
          var _, _ := e.Append(chunk, granted);
        case Finish => e.MarkComplete();
        case Fail => e.MarkFailed();
      }
    }
  }

  datatype End = Waiting | Served | Failed | Gone

  lemma EvolvedStep(d: Doc, changes: seq<Change>, k: nat)
    requires k < |changes|
    ensures Evolved(d, changes[..k + 1]) == Changed(Evolved(d, changes[..k]), changes[k])
    ensures Granted(changes) && changes[k].Grow? ==> changes[k].granted
  {
    assert changes[..k + 1][..k] == changes[..k];
  }

  lemma EvolvedRest(d: Doc, changes: seq<Change>, k: nat)
    requires k <= |changes|
    ensures Marked(Evolved(d, changes[..k])) || k == |changes| ==> Evolved(d, changes) == Evolved(d, changes[..k])
  {
    if k == |changes| {
      assert changes[..k] == changes;
    } else if Marked(Evolved(d, changes[..k])) {
      EvolvedMarked(d, changes, k);
    }
  }

  // ----- what a reader sends, and when

  // What a client gets of these bytes from `off` on, in pieces of at most 4096 of which it takes taken(k),
  // taken(k + 1), and so on; and whether it takes everything.
  function Cut(data: Bytes, off: nat, k: nat, taken: nat -> nat): (r: (Bytes, bool))
    ensures (off <= |data| ==> off <= |r.0|) && r.0 <= data && (r.1 ==> r.0 == data)
    ensures (forall j :: taken(j) >= 4096) ==> r.1
    decreases if off < |data| then |data| - off else 0
  {
    if off >= |data| then (data, true)
    else
      var chunk := if |data| - off < 4096 then |data| - off else 4096;
      if taken(k) < chunk then (data[..off + taken(k)], false) else Cut(data, off + chunk, k + 1, taken)
  }

  // How many bytes a reader has sent, in how many pieces, and whether its client has refused some.
  datatype Pace = Pace(sent: nat, pieces: nat, gone: bool)

  // One turn through the lock of an entry that is then like d.
  function Paces(p: Pace, d: Doc, taken: nat -> nat): Pace {
    if p.gone || d.failed || p.sent >= |d.body| then p
    else
      var chunk := if |d.body| - p.sent < 4096 then |d.body| - p.sent else 4096;
      if taken(p.pieces) < chunk then Pace(p.sent + taken(p.pieces), p.pieces + 1, true)
      else Pace(p.sent + chunk, p.pieces + 1, false)
  }

  // One turn after each of the changes.
  function Paced(d: Doc, changes: seq<Change>, taken: nat -> nat): Pace {
    if changes == [] then Pace(0, 0, false)
    else Paces(Paced(d, changes[..|changes| - 1], taken), Evolved(d, changes), taken)
  }

  // How it ends: the client refuses bytes, or the entry fails first, or else, when the changes are over, the
  // client gets the rest.
  ghost predicate Streams(d: Doc, changes: seq<Change>, taken: nat -> nat, sent: nat, end: End) {
    var last, p := Evolved(d, changes), Paced(d, changes, taken);
    if p.gone then end.Gone? && sent == p.sent
    else if last.failed then end.Failed? && sent == p.sent
    else
      var (bytes, all) := Cut(last.body, p.sent, p.pieces, taken);
      sent == |bytes| && end == if !all then Gone else if last.complete then Served else Waiting
  }

  // Where the reader is after k of the changes.
  ghost predicate Reading(d: Doc, changes: seq<Change>, taken: nat -> nat, k: nat, off: nat, turn: nat)
    requires k <= |changes|
  {
    var now, p := Evolved(d, changes[..k]), Paced(d, changes[..k], taken);
    && !p.gone && off <= |now.body|
    && if k < |changes| || now.failed then off == p.sent && turn == p.pieces
       else Cut(now.body, p.sent, p.pieces, taken) == Cut(now.body, off, turn, taken)
  }

  lemma PacedStep(d: Doc, changes: seq<Change>, taken: nat -> nat, k: nat)
    requires k < |changes|
    ensures Paced(d, changes[..k + 1], taken)
            == Paces(Paced(d, changes[..k], taken), Evolved(d, changes[..k + 1]), taken)
    ensures Evolved(d, changes[..k]).body <= Evolved(d, changes[..k + 1]).body
  {
    assert changes[..k + 1][..k] == changes[..k];
  }

  // A reader whose client is gone, whose entry has failed, or that has all of a marked one has stopped.
  lemma {:induction false} PacedStops(d: Doc, changes: seq<Change>, taken: nat -> nat, k: nat)
    requires k <= |changes|
    requires var now, p := Evolved(d, changes[..k]), Paced(d, changes[..k], taken);
             p.gone || now.failed || (now.complete && p.sent >= |now.body|)
    ensures Paced(d, changes, taken) == Paced(d, changes[..k], taken)
    decreases |changes|
  {
    if k < |changes| {
      var front := changes[..|changes| - 1];
      assert front[..k] == changes[..k];
      PacedStops(d, front, taken, k);
      if Marked(Evolved(d, changes[..k])) {
        EvolvedMarked(d, changes, k);
      }
    } else {
      assert changes[..k] == changes;
    }
  }

  // What becomes of a reader at its turn through the lock, after k of the changes.
  ghost predicate Turned(d: Doc, changes: seq<Change>, taken: nat -> nat, k: nat, off: nat, turn: nat)
    requires k <= |changes|
  {
    var now := Evolved(d, changes[..k]);
    var chunk := if |now.body| - off < 4096 then |now.body| - off else 4096;
    && off <= |now.body|
    && if now.failed then Streams(d, changes, taken, off, Failed)
       else if off == |now.body| then
         if now.complete then Streams(d, changes, taken, off, Served)
         else if k == |changes| then Streams(d, changes, taken, off, Waiting)
         else Reading(d, changes, taken, k, off, turn)
       else if taken(turn) < chunk then Streams(d, changes, taken, off + taken(turn), Gone)
       else Reading(d, changes, taken, k, off + chunk, turn + 1)
  }

  // A turn after a change.
  lemma TurnAfterChange(d: Doc, changes: seq<Change>, taken: nat -> nat, k: nat, off: nat, turn: nat)
    requires k < |changes| && Reading(d, changes, taken, k, off, turn)
    ensures Turned(d, changes, taken, k + 1, off, turn)
  {
    var now, p := Evolved(d, changes[..k + 1]), Paced(d, changes[..k + 1], taken);
    PacedStep(d, changes, taken, k);
    EvolvedRest(d, changes, k + 1);
    if p.gone || now.failed || (now.complete && p.sent >= |now.body|) {
      PacedStops(d, changes, taken, k + 1);
    }
    if k + 1 == |changes| {
      assert changes[..k + 1] == changes;
    }
    hide Evolved, Paced;
  }

  // A turn when the changes are over.
  lemma TurnAfterAll(d: Doc, changes: seq<Change>, taken: nat -> nat, off: nat, turn: nat)
    requires Reading(d, changes, taken, |changes|, off, turn)
    ensures Turned(d, changes, taken, |changes|, off, turn)
  {
    assert changes[..|changes|] == changes;
    hide Evolved, Paced;
  }

  // The reader between two turns: k changes have happened, the entry is like `now`, and it has sent these bytes
  // in so many pieces.
  ghost predicate Follows(d: Doc, changes: seq<Change>, taken: nat -> nat, k: nat, now: Doc, sent: Bytes, turn: nat) {
    && k <= |changes| && d.body <= now.body && |now.body| + Volume(changes[k..]) < C.WORD
    && sent <= now.body
    && (d.failed ==> now.failed && sent == [])
    && (Granted(changes) || !now.failed ==> now == Evolved(d, changes[..k]))
    && (Granted(changes) ==> Reading(d, changes, taken, k, |sent|, turn))
  }

  // The reader with the entry's lock.
  ghost predicate Looks(d: Doc, changes: seq<Change>, taken: nat -> nat, k: nat, now: Doc, sent: Bytes, turn: nat) {
    && k <= |changes| && d.body <= now.body && |now.body| + Volume(changes[k..]) < C.WORD
    && sent <= now.body
    && (d.failed ==> now.failed && sent == [])
    && (Granted(changes) || !now.failed ==> now == Evolved(d, changes[..k]))
    && (Granted(changes) ==> Turned(d, changes, taken, k, |sent|, turn))
  }

  lemma FollowsStart(d: Doc, changes: seq<Change>, taken: nat -> nat)
    requires |d.body| + Volume(changes) < C.WORD
    ensures Follows(d, changes, taken, 0, d, [], 0)
  {
    assert changes[0..] == changes;
  }

  lemma VolumeStep(changes: seq<Change>, k: nat)
    requires k < |changes|
    ensures Volume(changes[k..]) == Volume([changes[k]]) + Volume(changes[k + 1..])
  {
    assert changes[k..][1..] == changes[k + 1..];
  }

  lemma FollowsRoom(d: Doc, changes: seq<Change>, taken: nat -> nat, k: nat, now: Doc, sent: Bytes, turn: nat)
    requires Follows(d, changes, taken, k, now, sent, turn) && k < |changes|
    ensures |now.body| + Volume([changes[k]]) < C.WORD
  {
    VolumeStep(changes, k);
  }

  lemma LooksAfterChange(d: Doc, changes: seq<Change>, taken: nat -> nat, k: nat, now: Doc, sent: Bytes, turn: nat,
                         next: Doc)
    requires Follows(d, changes, taken, k, now, sent, turn) && k < |changes| && Happens(now, changes[k], next)
    ensures Looks(d, changes, taken, k + 1, next, sent, turn)
  {
    VolumeStep(changes, k);
    EvolvedStep(d, changes, k);
    if Granted(changes) { TurnAfterChange(d, changes, taken, k, |sent|, turn); }
    hide Evolved, Changed, Granted, Reading, Turned;
  }

  lemma LooksAfterAll(d: Doc, changes: seq<Change>, taken: nat -> nat, now: Doc, sent: Bytes, turn: nat)
    requires Follows(d, changes, taken, |changes|, now, sent, turn)
    ensures Looks(d, changes, taken, |changes|, now, sent, turn)
  {
    if Granted(changes) { TurnAfterAll(d, changes, taken, |sent|, turn); }
    hide Evolved, Granted, Reading, Turned;
  }

  // Nothing new, and the reader goes on waiting.
  lemma FollowsWaiting(d: Doc, changes: seq<Change>, taken: nat -> nat, k: nat, now: Doc, sent: Bytes, turn: nat)
    requires Looks(d, changes, taken, k, now, sent, turn) && !Marked(now) && |sent| == |now.body| && k < |changes|
    ensures Follows(d, changes, taken, k, now, sent, turn)
  {
    hide Evolved, Granted, Reading, Streams;
  }

  // The client takes a whole piece.
  lemma FollowsPiece(d: Doc, changes: seq<Change>, taken: nat -> nat, k: nat, now: Doc, sent: Bytes, turn: nat,
                     piece: Bytes)
    requires Looks(d, changes, taken, k, now, sent, turn) && !now.failed && |sent| != |now.body|
    requires |piece| == (if |now.body| - |sent| < 4096 then |now.body| - |sent| else 4096) <= taken(turn)
    requires sent + piece <= now.body
    ensures Follows(d, changes, taken, k, now, sent + piece, turn + 1)
  {
    hide Evolved, Granted, Reading, Streams;
  }

  // What holds when stream_from_cache returns, and the entry is like `now`.
  ghost predicate Ends(d: Doc, changes: seq<Change>, taken: nat -> nat, now: Doc, sent: Bytes, end: End) {
    && d.body <= now.body && sent <= now.body
    && (match end
        case Served => now.complete && !now.failed && sent == now.body
        case Failed => now.failed
        case Waiting => !Marked(now) && sent == now.body
        case Gone => exists k :: taken(k) < 4096)
    && (d.failed ==> sent == [] && end.Failed?)
    && (!end.Gone? && (Granted(changes) || !now.failed) ==> now == Evolved(d, changes))
    && (Granted(changes) ==> Streams(d, changes, taken, |sent|, end))
  }

  lemma EndsLooking(d: Doc, changes: seq<Change>, taken: nat -> nat, k: nat, now: Doc, sent: Bytes, turn: nat)
    requires Looks(d, changes, taken, k, now, sent, turn)
    requires now.failed || (|sent| == |now.body| && (now.complete || k == |changes|))
    ensures Ends(d, changes, taken, now, sent, if now.failed then Failed else if now.complete then Served else Waiting)
  {
    EvolvedRest(d, changes, k);
    hide Evolved, Granted, Reading, Streams;
  }

  lemma EndsGone(d: Doc, changes: seq<Change>, taken: nat -> nat, k: nat, now: Doc, sent: Bytes, turn: nat,
                 piece: Bytes)
    requires Looks(d, changes, taken, k, now, sent, turn) && !now.failed && |sent| != |now.body|
    requires |piece| == taken(turn) < 4096 && taken(turn) < |now.body| - |sent|
    requires sent + piece <= now.body
    ensures Ends(d, changes, taken, now, sent + piece, Gone)
  {
    hide Evolved, Granted, Reading, Streams;
  }

  // A client that takes every piece, of an entry for which memory can always be had: it gets the final body,
  // or its beginning if the entry fails; Waiting is the end exactly when no change marks the entry.
  lemma EndsMeans(d: Doc, changes: seq<Change>, taken: nat -> nat, now: Doc, sent: Bytes, end: End)
    requires Ends(d, changes, taken, now, sent, end) && Granted(changes) && forall k :: taken(k) >= 4096
    ensures now == Evolved(d, changes)
    ensures end == if now.failed then Failed else if now.complete then Served else Waiting
    ensures !now.failed ==> sent == now.body
  {
    hide Streams;
  }

  // stream_from_cache: changes[k] happens before turn number k of the reader through the entry's lock, and nothing
  // after the last of them; `taken(k)`: how many bytes the client takes of piece number k.  Waiting:
  // the reader is asleep, and nobody is going to wake it.
  method StreamFromCache(e: C.Entry, changes: seq<Change>, taken: nat -> nat) returns (sent: Bytes, end: End)
    requires e.Holding() && |e.Body()| + Volume(changes) < C.WORD
    modifies e`data, e`size, e`capacity, e`failed, e`complete, e`copied, e.Block()
    ensures e.Holding() && Ends(old(DocOf(e)), changes, taken, DocOf(e), sent, end)
  {
    hide C.Entry.Holding, C.Entry.Body, Follows, Looks, Ends;
    ghost var d := DocOf(e);
    FollowsStart(d, changes, taken);
    sent := [];
    var offset: nat, k: nat, turn: nat := 0, 0, 0;
    while true
      invariant e.Holding() && fresh(e.Block() - old(e.Block()))
      invariant k <= |changes| && offset == |sent|
      invariant Follows(d, changes, taken, k, DocOf(e), sent, turn)
      decreases |changes| - k, e.size - offset
    {
      ghost var before := DocOf(e);
      if k < |changes| {
        FollowsRoom(d, changes, taken, k, before, sent, turn);
        Meanwhile(e, changes[k]);
        LooksAfterChange(d, changes, taken, k, before, sent, turn, DocOf(e));
        k := k + 1;
      } else {
        LooksAfterAll(d, changes, taken, before, sent, turn);
      }
      ghost var now := DocOf(e);
      LooksWithin(d, changes, taken, k, now, sent, turn);
      if offset == e.size && !e.complete && !e.failed {
        if k == |changes| {
          EndsLooking(d, changes, taken, k, now, sent, turn);
          return sent, Waiting;
        }
        FollowsWaiting(d, changes, taken, k, now, sent, turn);
      } else if e.failed {
        EndsLooking(d, changes, taken, k, now, sent, turn);
        return sent, Failed;
      } else if offset == e.size && e.complete {
        EndsLooking(d, changes, taken, k, now, sent, turn);
        return sent, Served;
      } else {
        var piece, gone := Send(e, offset, taken(turn));
        if gone {
          EndsGone(d, changes, taken, k, now, sent, turn, piece);
          return sent + piece, Gone;
        }
        FollowsPiece(d, changes, taken, k, now, sent, turn, piece);
        sent, offset, turn := sent + piece, offset + |piece|, turn + 1;
      }
    }
  }

  lemma LooksWithin(d: Doc, changes: seq<Change>, taken: nat -> nat, k: nat, now: Doc, sent: Bytes, turn: nat)
    requires Looks(d, changes, taken, k, now, sent, turn)
    ensures sent <= now.body && |sent| <= |now.body|
  {
  }

  // The next piece of the entry, and what the client takes of it.
  method Send(e: C.Entry, offset: nat, taken: nat) returns (piece: Bytes, gone: bool)
    requires e.Holding() && offset < e.size
    ensures offset + |piece| <= e.size && piece == e.Body()[offset..offset + |piece|]
    ensures gone <==> taken < 4096 && taken < e.size - offset
    ensures |piece| == if gone then taken else if e.size - offset < 4096 then e.size - offset else 4096
  {
    var avail := e.size - offset;
    var chunk := if avail < 4096 then avail else 4096;
    gone := taken < chunk;
    if gone { chunk := taken; }
    piece := e.data[offset..offset + chunk];
    assert piece == e.Body()[offset..offset + chunk];
  }
}
