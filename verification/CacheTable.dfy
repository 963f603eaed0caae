/**
 The bucket chains of the cache (`cache/cache.c`), each method as it runs under the table's lock.  They are shown
 to be a map from keys to entries: a key is in the table at most once, in the bucket that
 its hash gives, and taking an entry out disturbs no other.
 */
module CacheTable {
  import opened Basics
  import opened CacheStore

  ghost predicate Linked(head: Entry?, chain: seq<Entry>)
    reads chain`next
  {
    && head == AtOr(chain, 0, null)
    && (forall i {:trigger chain[i].next} :: 0 <= i < |chain| ==> chain[i].next == AtOr(chain, i + 1, null))
  }

  ghost function Members(chains: seq<seq<Entry>>): (r: set<Entry>)
    ensures forall b, e :: 0 <= b < |chains| && e in chains[b] ==> e in r
  {
    set b, e | 0 <= b < |chains| && e in chains[b] :: e
  }

  // The chains hold the entries of the map, each once and where its key belongs.
  ghost predicate Represents(chains: seq<seq<Entry>>, table: map<Key, Entry>) {
    && |chains| > 0
    && (forall b :: 0 <= b < |chains| ==> Distinct(chains[b]))
    && (forall b, e :: 0 <= b < |chains| && e in chains[b] ==>
          b == Home(e.key, |chains|) && e.key in table && table[e.key] == e)
    && (forall k :: k in table ==> table[k].key == k && table[k] in chains[Home(k, |chains|)])
  }

  lemma MapMembers(chains: seq<seq<Entry>>, table: map<Key, Entry>, key: Key)
    requires Represents(chains, table) && key in table
    ensures table[key] in Members(chains)
  {
  }

  lemma OneChain(chains: seq<seq<Entry>>, table: map<Key, Entry>, b: nat, e: Entry)
    requires Represents(chains, table) && b < |chains| && e in chains[b]
    ensures forall c :: 0 <= c < |chains| && c != b ==> e !in chains[c]
  {
    hide Home;
    forall c | 0 <= c < |chains| && e in chains[c] ensures c == b {
      assert b == Home(e.key, |chains|) == c;
    }
  }

  lemma RepresentsInsert(chains: seq<seq<Entry>>, table: map<Key, Entry>, e: Entry)
    requires Represents(chains, table) && e.key !in table
    ensures var b := Home(e.key, |chains|);
            Represents(chains[b := [e] + chains[b]], table[e.key := e])
  {
    hide Home;
    var n := |chains|;
    var b := Home(e.key, n);
    var chains' := chains[b := [e] + chains[b]];
    assert forall x :: x in chains'[b] <==> x == e || x in chains[b];
  }

  lemma RepresentsRemove(chains: seq<seq<Entry>>, table: map<Key, Entry>, b: nat, i: nat)
    requires Represents(chains, table) && b < |chains| && i < |chains[b]|
    ensures Represents(chains[b := chains[b][..i] + chains[b][i + 1..]], table - {chains[b][i].key})
  {
    hide Home;
    var n, e := |chains|, chains[b][i];
    var rest := chains[b][..i] + chains[b][i + 1..];
    var chains' := chains[b := rest];
    assert e in chains[b];
    assert forall j :: 0 <= j < |rest| ==> rest[j] == chains[b][if j < i then j else j + 1];
    assert e !in rest;
    assert forall x :: x in rest ==> x in chains[b];
    forall k | k in table && k != e.key ensures table[k] in chains'[Home(k, n)] {
      if Home(k, n) == b {
        var j :| 0 <= j < |chains[b]| && chains[b][j] == table[k];
        assert j != i;
        assert rest[if j < i then j else j - 1] == table[k];
      }
    }
  }

  // The effect of `*pp = e->next`; the result is the head of the chain.
  method Splice(head: Entry?, before: Entry?, e: Entry, ghost chain: seq<Entry>, ghost i: nat) returns (h: Entry?)
    requires Linked(head, chain) && Distinct(chain) && i < |chain| && e == chain[i]
    requires before == if i == 0 then null else chain[i - 1]
    modifies (if before == null then {} else {before})`next
    ensures Linked(h, chain[..i] + chain[i + 1..])
  {
    ghost var rest := chain[..i] + chain[i + 1..];
    assert chain[i].next == AtOr(chain, i + 1, null);
    assert forall j :: 0 <= j < |rest| ==> rest[j] == chain[if j < i then j else j + 1];
    h := head;
    if before == null {
      h := e.next;
    } else {
      before.next := e.next;
    }
  }

  function Flat(chains: seq<seq<Entry>>): seq<Entry> {
    if chains == [] then [] else Flat(chains[..|chains| - 1]) + chains[|chains| - 1]
  }

  lemma {:induction false} FlatOnce(chains: seq<seq<Entry>>, table: map<Key, Entry>, m: nat)
    requires Represents(chains, table) && m <= |chains|
    ensures Distinct(Flat(chains[..m]))
    ensures forall e :: e in Flat(chains[..m]) <==> e.key in table && table[e.key] == e && Home(e.key, |chains|) < m
  {
    if m > 0 {
      assert chains[..m][..m - 1] == chains[..m - 1];
      FlatOnce(chains, table, m - 1);
      var front, last := Flat(chains[..m - 1]), chains[m - 1];
      forall i, j | 0 <= i < j < |front + last| ensures (front + last)[i] != (front + last)[j] {
        assert i < |front| ==> front[i] in front;
        assert j >= |front| ==> last[j - |front|] in last;
      }
    }
  }

  ghost predicate AllLinked(buckets: array<Entry?>, chains: seq<seq<Entry>>)
    reads buckets, Members(chains)`next
  {
    && |chains| == buckets.Length
    && (forall b :: 0 <= b < |chains| ==> Linked(buckets[b], chains[b]))
  }

  class Table {
    const buckets: array<Entry?>
    ghost var chains: seq<seq<Entry>>
    ghost var table: map<Key, Entry>

    ghost predicate Valid()
      ensures Valid() ==> buckets.Length > 0 && Represents(chains, table)
      reads this`chains, this`table, buckets, Members(chains)`next
    {
      && Represents(chains, table)
      && AllLinked(buckets, chains)
    }

    // cache_table_init
    constructor ()
      ensures Valid() && table == map[] && buckets.Length == DEFAULT_BUCKETS && fresh(buckets)
    {
      buckets := new Entry?[DEFAULT_BUCKETS](_ => null);
      chains := seq(DEFAULT_BUCKETS, _ => []);
      table := map[];
    }

    // The walk down one bucket.
    method Find(idx: nat, key: Key) returns (e: Entry?)
      requires Valid() && idx == Home(key, buckets.Length)
      ensures e == if key in table then table[key] else null
      ensures e != null ==> e.key == key
    {
      ghost var i := 0;
      ghost var chain := chains[idx];
      assert key in table ==> table[key] in chain;
      e := buckets[idx];
      while e != null
        invariant 0 <= i <= |chain| && e == AtOr(chain, i, null)
        invariant forall j :: 0 <= j < i ==> chain[j].key != key
        decreases |chain| - i
      {
        assert chain[i] in chains[idx];
        assert chain[i].next == AtOr(chain, i + 1, null);
        if e.key == key { return; }
        e := e.next;
        i := i + 1;
      }
    }

    // A new entry goes to the head of its bucket.
    method Insert(idx: nat, e: Entry)
      requires Valid() && e.key !in table && idx == Home(e.key, buckets.Length)
      modifies this`chains, this`table, buckets, e`next
      ensures Valid() && table == old(table)[e.key := e]
    {
      RepresentsInsert(chains, table, e);
      e.next := buckets[idx];
      buckets[idx] := e;
      chains := chains[idx := [e] + chains[idx]];
      table := table[e.key := e];
    }

    // Entry number i of the bucket is taken out of its chain; `before` is the one in front of it.
    method Detach(idx: nat, before: Entry?, e: Entry, ghost i: nat)
      requires AllLinked(buckets, chains) && idx < |chains| && i < |chains[idx]| && e == chains[idx][i]
      requires Distinct(chains[idx])
      requires before == if i == 0 then null else chains[idx][i - 1]
      requires before != null ==> forall b :: 0 <= b < |chains| && b != idx ==> before !in chains[b]
      modifies buckets, Members(chains)`next
      ensures AllLinked(buckets, chains[idx := chains[idx][..i] + chains[idx][i + 1..]])
    {
      hide Linked, Distinct;
      buckets[idx] := Splice(buckets[idx], before, e, chains[idx], i);
    }

    method Cut(idx: nat, before: Entry?, e: Entry, ghost i: nat)
      requires Valid() && idx < |chains| && i < |chains[idx]| && e == chains[idx][i]
      requires before == if i == 0 then null else chains[idx][i - 1]
      modifies this`chains, this`table, buckets, Members(chains)`next
      ensures Valid() && table == old(table) - {e.key}
    {
      hide Home, AllLinked;
      RepresentsRemove(chains, table, idx, i);
      if before != null {
        OneChain(chains, table, idx, before);
      }
      Detach(idx, before, e, i);
      chains := chains[idx := chains[idx][..i] + chains[idx][i + 1..]];
      table := table - {e.key};
    }

    // The walk of `pp` through one bucket.
    method Unlink(idx: nat, e: Entry)
      requires Valid() && e.key in table && table[e.key] == e && idx == Home(e.key, buckets.Length)
      modifies this`chains, this`table, buckets, Members(chains)`next
      ensures Valid() && table == old(table) - {e.key}
    {
      ghost var chain, i := chains[idx], 0;
      assert e in chain;
      var before: Entry? := null;
      var cur := buckets[idx];
      while cur != null
        invariant 0 <= i <= |chain| && cur == AtOr(chain, i, null)
        invariant before == if i == 0 then null else chain[i - 1]
        invariant e !in chain[..i]
        decreases |chain| - i
      {
        assert chain[i].next == AtOr(chain, i + 1, null);
        if cur == e {
          Cut(idx, before, e, i);
          return;
        }
        before := cur;
        cur := cur.next;
        i := i + 1;
      }
      assert false;
    }

    // cache_start_or_join.  `created` is whether a new entry can be had, should one be needed; the result is the
    // handle, whether its holder is the writer, and the entry that has been destroyed.
    method StartOrJoin(key: Key, created: bool) returns (e: Entry?, amWriter: bool, dropped: Entry?)
      requires Valid()
      modifies this`chains, this`table, buckets, Members(chains)`next, Members(chains)`refcnt
      ensures Valid()
      ensures dropped == if key in old(table) && old(table[key].failed && table[key].refcnt == 0)
                         then old(table)[key] else null
      ensures key in old(table) && dropped == null ==>
                e == old(table)[key] && !amWriter && table == old(table) && e.refcnt == old(table[key].refcnt) + 1
      ensures (key !in old(table) || dropped != null) && created ==>
                && e != null && fresh(e) && amWriter && table == old(table)[key := e]
                && e.key == key && e.refcnt == 1 && e.data == null && e.Holding() && e.Body() == []
                && !e.complete && !e.failed
      ensures (key !in old(table) || dropped != null) && !created ==>
                e == null && table == old(table) - {key}
      ensures forall k :: k in old(table) && old(table)[k] != e ==> old(table)[k].refcnt == old(table[k].refcnt)
      ensures forall x :: x in old(Members(chains)) && x != e ==> x.refcnt == old(x.refcnt)
    {
      hide Valid;
      hide Represents;
      amWriter, dropped := false, null;
      var h := HashKey(key);
      var idx := h % buckets.Length;
      e := Find(idx, key);
      if e != null {
        assert e in Members(chains) by { MapMembers(chains, table, key); }
        if !(e.failed && e.refcnt == 0) {
          e.refcnt := e.refcnt + 1;
          return;
        }
        dropped := e;
        Unlink(idx, e);
      }
      if !created { return null, false, dropped; }
      e := new Entry(key);
      assert e !in Members(chains);
      Insert(idx, e);
      amWriter := true;
    }

    // cache_release; the result is the entry that has been destroyed.
    method Release(e: Entry) returns (dropped: Entry?)
      requires Valid() && e.key in table && table[e.key] == e
      modifies this`chains, this`table, buckets, Members(chains)`next, e`refcnt
      ensures Valid() && e.refcnt == old(e.refcnt) - 1
      ensures dropped == if e.refcnt > 0 || (e.complete && !e.failed) then null else e
      ensures table == if dropped == null then old(table) else old(table) - {e.key}
    {
      hide Valid;
      e.refcnt := e.refcnt - 1;
      if e.refcnt > 0 { return null; }
      var keep := e.complete && !e.failed;
      if keep { return null; }
      var h := HashKey(e.key);
      Unlink(h % buckets.Length, e);
      return e;
    }

    // cache_table_destroy: the entries that are destroyed, in order.  Each one's `next` is read before that.
    method Destroy() returns (destroyed: seq<Entry>)
      requires Valid()
      ensures Distinct(destroyed) && forall e :: e in destroyed <==> e.key in table && table[e.key] == e
    {
      destroyed := [];
      for b := 0 to buckets.Length
        invariant destroyed == Flat(chains[..b])
      {
        ghost var chain, i := chains[b], 0;
        var e := buckets[b];
        while e != null
          invariant 0 <= i <= |chain| && e == AtOr(chain, i, null)
          invariant destroyed == Flat(chains[..b]) + chain[..i]
          decreases |chain| - i
        {
          assert chain[i].next == AtOr(chain, i + 1, null);
          var next := e.next;
          destroyed := destroyed + [e];
          e := next;
          i := i + 1;
        }
        assert chains[..b + 1][..b] == chains[..b];
      }
      FlatOnce(chains, table, |chains|);
      assert chains[..|chains|] == chains;
    }
  }
}
