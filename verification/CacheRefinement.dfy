/**
 The cache in memory (CacheStore, CacheTable) does what the steps of ProxyMachine say.  `ids` lists the entries ever
 created, in order: number i of the machine's entries stands for ids[i].  A destroyed entry is not looked at.
 */
module CacheRefinement {
  import opened Basics
  import C = CacheStore
  import T = CacheTable
  import M = ProxyMachine

  // What an entry in memory is, apart from its key and its place in a chain.
  datatype Image = Image(holding: bool, block: array?<Byte>, body: M.Bytes, complete: bool, failed: bool, refcnt: int)

  ghost function ImageOf(e: C.Entry): Image
    reads e, e.data
  {
    Image(e.Holding(), e.data, if e.Holding() then e.Body() else [], e.complete, e.failed, e.refcnt)
  }

  ghost function Blocks(ids: seq<C.Entry>): (r: set<object>)
    reads ids
    ensures forall i :: 0 <= i < |ids| && ids[i].data != null ==> ids[i].data in r
  {
    set e | e in ids && e.data != null :: e.data
  }

  ghost predicate Shows(ids: seq<C.Entry>, images: seq<Image>)
    reads ids, Blocks(ids)
  {
    |images| == |ids| && forall i :: 0 <= i < |ids| ==> ImageOf(ids[i]) == images[i]
  }

  // ----- on values: the entries in memory are the machine's

  predicate Fits(image: Image, m: M.Entry) {
    && image.holding && image.body == m.data
    && image.complete == m.complete && image.failed == m.failed && image.refcnt == m.refcnt
  }

  // So is every entry that has not been destroyed; no two entries share a buffer.
  ghost predicate SameEntries(images: seq<Image>, entries: seq<M.Entry>) {
    && |images| == |entries|
    && (forall i :: 0 <= i < |images| && entries[i].frees == 0 ==> Fits(images[i], entries[i]))
    && (forall i, j :: 0 <= i < j < |images| ==> images[i].block == null || images[i].block != images[j].block)
  }

  ghost predicate SameTable(ids: seq<C.Entry>, entries: seq<M.Entry>, table: map<Key, C.Entry>, tab: map<Key, nat>) {
    && |ids| == |entries| && Distinct(ids)
    && (forall i :: 0 <= i < |ids| ==> ids[i].key == entries[i].key)
    && (forall k :: k in table <==> k in tab)
    && (forall k :: k in tab ==>
          && tab[k] < |ids| && ids[tab[k]] == table[k]
          && entries[tab[k]].key == k && entries[tab[k]].frees == 0)
  }

  ghost predicate Mirrors(ids: seq<C.Entry>, images: seq<Image>, table: map<Key, C.Entry>,
                          entries: seq<M.Entry>, tab: map<Key, nat>)
  {
    SameEntries(images, entries) && SameTable(ids, entries, table, tab)
  }

  lemma EntryCounts(ids: seq<C.Entry>, images: seq<Image>, table: map<Key, C.Entry>,
                    entries: seq<M.Entry>, tab: map<Key, nat>, i: nat, n: int)
    requires Mirrors(ids, images, table, entries, tab) && i < |ids| && entries[i].frees == 0
    ensures i < |entries| == |images|
    ensures Mirrors(ids, images[i := images[i].(refcnt := n)], table, entries[i := entries[i].(refcnt := n)], tab)
  {
  }

  // One entry changes, and the machine's with it; or it is destroyed.
  lemma EntryChanges(ids: seq<C.Entry>, images: seq<Image>, table: map<Key, C.Entry>,
                     entries: seq<M.Entry>, tab: map<Key, nat>, i: nat, image: Image, m: M.Entry)
    requires Mirrors(ids, images, table, entries, tab) && i < |ids|
    requires m.key == entries[i].key && m.frees == entries[i].frees == 0 && Fits(image, m)
    requires image.block == null || forall j :: 0 <= j < |images| && j != i ==> images[j].block != image.block
    ensures Mirrors(ids, images[i := image], table, entries[i := m], tab)
  {
    hide Fits;
  }

  lemma EntryLeaves(ids: seq<C.Entry>, images: seq<Image>, table: map<Key, C.Entry>,
                    entries: seq<M.Entry>, tab: map<Key, nat>, key: Key)
    requires Mirrors(ids, images, table, entries, tab) && key in tab
    ensures Mirrors(ids, images, table - {key}, entries, tab - {key})
  {
    hide Fits;
  }

  lemma EntryDies(ids: seq<C.Entry>, images: seq<Image>, table: map<Key, C.Entry>,
                  entries: seq<M.Entry>, tab: map<Key, nat>, i: nat)
    requires Mirrors(ids, images, table, entries, tab) && i < |ids| && !M.Listed(entries, tab, i)
    ensures Mirrors(ids, images, table, entries[i := entries[i].(frees := entries[i].frees + 1)], tab)
  {
    hide Fits;
  }

  lemma EntryComes(ids: seq<C.Entry>, images: seq<Image>, table: map<Key, C.Entry>,
                   entries: seq<M.Entry>, tab: map<Key, nat>, e: C.Entry, image: Image)
    requires Mirrors(ids, images, table, entries, tab) && e !in ids && e.key !in tab
    requires image.block == null && Fits(image, M.NewEntry(e.key))
    ensures Mirrors(ids + [e], images + [image], table[e.key := e], entries + [M.NewEntry(e.key)], tab[e.key := |ids|])
  {
    hide Fits;
  }

  // ----- the operations

  // ----- cache_start_or_join

  // Where the entry of a key is.
  lemma Located(ids: seq<C.Entry>, images: seq<Image>, table: map<Key, C.Entry>, entries: seq<M.Entry>,
                tab: map<Key, nat>, key: Key)
    requires Mirrors(ids, images, table, entries, tab)
    ensures Distinct(ids) && |ids| == |images| == |entries|
    ensures key in table <==> key in tab
    ensures key in table ==>
              && tab[key] < |ids| && ids[tab[key]] == table[key] && entries[tab[key]].key == key
              && entries[tab[key]].frees == 0 && Fits(images[tab[key]], entries[tab[key]])
  {
    hide Fits;
  }

  lemma JoinHit(ids: seq<C.Entry>, images: seq<Image>, table: map<Key, C.Entry>, entries: seq<M.Entry>,
                tab: map<Key, nat>, key: Key, created: bool)
    requires Mirrors(ids, images, table, entries, tab) && key in tab && tab[key] < |images|
    requires !(images[tab[key]].failed && images[tab[key]].refcnt == 0)
    ensures var i := tab[key];
            var j := M.StartOrJoin(entries, tab, key, created);
            && j.e == Some(i) && !j.writer
            && Mirrors(ids, images[i := images[i].(refcnt := images[i].refcnt + 1)], table, j.entries, j.table)
  {
    var i := tab[key];
    Located(ids, images, table, entries, tab, key);
    EntryCounts(ids, images, table, entries, tab, i, entries[i].refcnt + 1);
    hide Mirrors;
  }

  const NEWCOMER := Image(true, null, [], false, false, 1)

  lemma CreateMirrors(ids: seq<C.Entry>, images: seq<Image>, table: map<Key, C.Entry>, entries: seq<M.Entry>,
                      tab: map<Key, nat>, key: Key, created: bool, e: C.Entry?)
    requires Mirrors(ids, images, table, entries, tab) && key !in table
    requires created ==> e != null && e !in ids && e.key == key
    ensures var j := M.Create(entries, tab, key, created);
            if created then
              j.e == Some(|ids|) && j.writer
              && Mirrors(ids + [e], images + [NEWCOMER], table[key := e], j.entries, j.table)
            else
              j.e == None && Mirrors(ids, images, table, j.entries, j.table)
  {
    if created {
      EntryComes(ids, images, table, entries, tab, e, NEWCOMER);
    }
    hide SameEntries, SameTable;
  }

  lemma JoinMiss(ids: seq<C.Entry>, images: seq<Image>, table: map<Key, C.Entry>, entries: seq<M.Entry>,
                 tab: map<Key, nat>, key: Key, created: bool, e: C.Entry?)
    requires Mirrors(ids, images, table, entries, tab)
    requires key in tab ==> tab[key] < |images| && images[tab[key]].failed && images[tab[key]].refcnt == 0
    requires created ==> e != null && e !in ids && e.key == key
    ensures var j := M.StartOrJoin(entries, tab, key, created);
            if created then
              j.e == Some(|ids|) && j.writer
              && Mirrors(ids + [e], images + [NEWCOMER], table[key := e], j.entries, j.table)
            else
              j.e == None && Mirrors(ids, images, table - {key}, j.entries, j.table)
  {
    Located(ids, images, table, entries, tab, key);
    if key in table {
      var i := tab[key];
      EntryLeaves(ids, images, table, entries, tab, key);
      hide Mirrors;
      EntryDies(ids, images, table - {key}, entries, tab - {key}, i);
      CreateMirrors(ids, images, table - {key}, entries[i := entries[i].(frees := entries[i].frees + 1)], tab - {key},
                    key, created, e);
      if created {
        assert table[key := e] == (table - {key})[key := e];
      }
    } else {
      hide Mirrors;
      assert table - {key} == table;
      CreateMirrors(ids, images, table, entries, tab, key, created, e);
    }
  }

  // In memory, only the count of the entry that is joined changes.
  method JoinImages(t: T.Table, key: Key, created: bool, ghost ids: seq<C.Entry>, ghost images: seq<Image>)
    returns (e: C.Entry?, amWriter: bool, ghost hit: bool)
    requires t.Valid() && Shows(ids, images)
    modifies t`chains, t`table, t.buckets, T.Members(t.chains)`next, T.Members(t.chains)`refcnt
    ensures t.Valid()
    ensures hit == (key in old(t.table) && !old(t.table[key].failed && t.table[key].refcnt == 0))
    ensures hit ==> e == old(t.table)[key] && !amWriter && t.table == old(t.table)
    ensures !hit && !created ==> e == null && t.table == old(t.table) - {key}
    ensures !hit && created ==>
              && e != null && e !in ids && e.key == key && amWriter && t.table == old(t.table)[key := e]
              && ImageOf(e) == NEWCOMER
    ensures forall i :: 0 <= i < |ids| ==>
              ImageOf(ids[i]) == if ids[i] == e then images[i].(refcnt := images[i].refcnt + 1) else images[i]
  {
    hide T.Represents;
    var dropped;
    e, amWriter, dropped := t.StartOrJoin(key, created);
    hit := key in old(t.table) && dropped == null;
    forall i | 0 <= i < |ids|
      ensures ImageOf(ids[i]) == if ids[i] == e then images[i].(refcnt := images[i].refcnt + 1) else images[i]
    {
      assert images[i] == old(ImageOf(ids[i]));
    }
  }

  // The caller has the handle, and the part, that the machine gives it.
  ghost predicate Joins(j: M.Joined, ids: seq<C.Entry>, images: seq<Image>, table: map<Key, C.Entry>, e: C.Entry?,
                        amWriter: bool)
  {
    && Mirrors(ids, images, table, j.entries, j.table)
    && match j.e
       case None => e == null
       case Some(i) => i < |ids| && e == ids[i] && amWriter == j.writer
  }

  lemma JoinCases(ids: seq<C.Entry>, images: seq<Image>, table: map<Key, C.Entry>, entries: seq<M.Entry>,
                  tab: map<Key, nat>, key: Key, created: bool, e: C.Entry?, amWriter: bool, hit: bool)
    returns (ids': seq<C.Entry>, images': seq<Image>)
    requires Mirrors(ids, images, table, entries, tab)
    requires key in tab ==> tab[key] < |images| && hit == !(images[tab[key]].failed && images[tab[key]].refcnt == 0)
    requires key !in tab ==> !hit
    requires hit ==> key in table && e == table[key] && !amWriter
    requires !hit && created ==> amWriter
    requires !hit ==> if created then e != null && e !in ids && e.key == key else e == null
    ensures var table' := if hit then table else if created then table[key := e] else table - {key};
            Joins(M.StartOrJoin(entries, tab, key, created), ids', images', table', e, amWriter)
    ensures hit ==> ids' == ids && tab[key] < |ids| == |images|
                    && images' == images[tab[key] := images[tab[key]].(refcnt := images[tab[key]].refcnt + 1)]
    ensures !hit && created ==> ids' == ids + [e] && images' == images + [NEWCOMER]
    ensures !hit && !created ==> ids' == ids && images' == images
  {
    Located(ids, images, table, entries, tab, key);
    hide Mirrors, M.StartOrJoin;
    if hit {
      JoinHit(ids, images, table, entries, tab, key, created);
      ids', images' := ids, images[tab[key] := images[tab[key]].(refcnt := images[tab[key]].refcnt + 1)];
    } else {
      JoinMiss(ids, images, table, entries, tab, key, created, e);
      ids', images' := if created then ids + [e] else ids, if created then images + [NEWCOMER] else images;
    }
  }

  lemma HeldImage(ids: seq<C.Entry>, images: seq<Image>, table: map<Key, C.Entry>, entries: seq<M.Entry>,
                  tab: map<Key, nat>, key: Key)
    requires Shows(ids, images) && Mirrors(ids, images, table, entries, tab)
    ensures Distinct(ids) && |ids| == |images| && (key in table <==> key in tab)
    ensures key in table ==>
              && tab[key] < |ids| && ids[tab[key]] == table[key]
              && images[tab[key]].failed == table[key].failed && images[tab[key]].refcnt == table[key].refcnt
  {
    Located(ids, images, table, entries, tab, key);
    hide Mirrors;
    assert key in table ==> ImageOf(ids[tab[key]]) == images[tab[key]];
  }

  method Join(t: T.Table, key: Key, created: bool, ghost ids: seq<C.Entry>, ghost images: seq<Image>,
              ghost entries: seq<M.Entry>, ghost tab: map<Key, nat>)
    returns (e: C.Entry?, amWriter: bool, ghost ids': seq<C.Entry>, ghost images': seq<Image>)
    requires t.Valid() && Shows(ids, images) && Mirrors(ids, images, t.table, entries, tab)
    modifies t`chains, t`table, t.buckets, T.Members(t.chains)`next, T.Members(t.chains)`refcnt
    ensures t.Valid() && Shows(ids', images')
    ensures Joins(M.StartOrJoin(entries, tab, key, created), ids', images', t.table, e, amWriter)
  {
    hide Joins, Mirrors, ImageOf, Blocks, M.StartOrJoin, T.Represents, T.Table.Valid, T.AllLinked;
    ghost var table := t.table;
    HeldImage(ids, images, table, entries, tab, key);
    ghost var hit;
    e, amWriter, hit := JoinImages(t, key, created, ids, images);
    ids', images' := JoinCases(ids, images, table, entries, tab, key, created, e, amWriter, hit);
  }

  // ----- cache_release

  lemma ReleaseMirrors(ids: seq<C.Entry>, images: seq<Image>, table: map<Key, C.Entry>, entries: seq<M.Entry>,
                       tab: map<Key, nat>, i: nat)
    requires Mirrors(ids, images, table, entries, tab) && M.Listed(entries, tab, i)
    ensures i < |ids| == |images| && ids[i].key == entries[i].key && ids[i].key in table && table[ids[i].key] == ids[i]
    ensures Fits(images[i], entries[i])
    ensures var m := entries[i].(refcnt := entries[i].refcnt - 1);
            var image := images[i].(refcnt := images[i].refcnt - 1);
            && Mirrors(ids, images[i := image], table, entries[i := m], tab)
            && Mirrors(ids, images[i := image], table - {ids[i].key}, entries[i := m], M.Unlink(entries, tab, i))
  {
    var n := entries[i].refcnt - 1;
    Located(ids, images, table, entries, tab, entries[i].key);
    EntryCounts(ids, images, table, entries, tab, i, n);
    hide Mirrors;
    EntryLeaves(ids, images[i := images[i].(refcnt := n)], table, entries[i := entries[i].(refcnt := n)], tab,
                entries[i].key);
  }

  // In memory, only the count of e changes.
  method LeaveImages(t: T.Table, e: C.Entry, ghost ids: seq<C.Entry>, ghost images: seq<Image>)
    returns (dropped: C.Entry?)
    requires t.Valid() && Shows(ids, images) && e.key in t.table && t.table[e.key] == e
    modifies t`chains, t`table, t.buckets, T.Members(t.chains)`next, e`refcnt
    ensures t.Valid()
    ensures dropped == if old(e.refcnt) > 1 || (old(e.complete) && !old(e.failed)) then null else e
    ensures t.table == if dropped == null then old(t.table) else old(t.table) - {e.key}
    ensures forall i :: 0 <= i < |ids| ==>
              ImageOf(ids[i]) == if ids[i] == e then images[i].(refcnt := images[i].refcnt - 1) else images[i]
  {
    hide T.Represents;
    dropped := t.Release(e);
    forall i | 0 <= i < |ids|
      ensures ImageOf(ids[i]) == if ids[i] == e then images[i].(refcnt := images[i].refcnt - 1) else images[i]
    {
      assert images[i] == old(ImageOf(ids[i]));
    }
  }

  lemma ListedImage(ids: seq<C.Entry>, images: seq<Image>, table: map<Key, C.Entry>, entries: seq<M.Entry>,
                    tab: map<Key, nat>, i: nat)
    requires Shows(ids, images) && Mirrors(ids, images, table, entries, tab) && M.Listed(entries, tab, i)
    ensures Distinct(ids) && i < |ids| == |images|
    ensures ids[i].key == entries[i].key && ids[i].key in table && table[ids[i].key] == ids[i]
    ensures entries[i].refcnt == ids[i].refcnt
    ensures entries[i].complete == ids[i].complete && entries[i].failed == ids[i].failed
  {
    Located(ids, images, table, entries, tab, entries[i].key);
    hide Mirrors;
    assert ImageOf(ids[i]) == images[i];
  }

  // `h` is where the handler of the machine is.
  method Leave(t: T.Table, e: C.Entry, ghost ids: seq<C.Entry>, ghost images: seq<Image>,
               ghost entries: seq<M.Entry>, ghost tab: map<Key, nat>, ghost h: M.Handler, ghost c: M.Choice)
    returns (dropped: C.Entry?, ghost images': seq<Image>)
    requires t.Valid() && Shows(ids, images) && Mirrors(ids, images, t.table, entries, tab)
    requires h.Release? && M.Listed(entries, tab, h.e) && h.e < |ids| && ids[h.e] == e
    modifies t`chains, t`table, t.buckets, T.Members(t.chains)`next, e`refcnt
    ensures t.Valid() && Shows(ids, images')
    ensures var m := M.Touch(entries[h.e], h, c);
            && (dropped == null <==> M.Kept(m))
            && Mirrors(ids, images', t.table, entries[h.e := m], if M.Kept(m) then tab else M.Unlink(entries, tab, h.e))
  {
    hide Mirrors, ImageOf, Blocks, M.Unlink, T.Represents, T.Table.Valid, T.AllLinked;
    ListedImage(ids, images, t.table, entries, tab, h.e);
    ReleaseMirrors(ids, images, t.table, entries, tab, h.e);
    dropped := LeaveImages(t, e, ids, images);
    images' := images[h.e := images[h.e].(refcnt := images[h.e].refcnt - 1)];
  }

  // ----- cache_table_destroy

  method Clear(t: T.Table, ghost ids: seq<C.Entry>, ghost images: seq<Image>, ghost entries: seq<M.Entry>,
               ghost tab: map<Key, nat>)
    returns (destroyed: seq<C.Entry>)
    requires t.Valid() && Shows(ids, images) && Mirrors(ids, images, t.table, entries, tab)
    ensures Distinct(destroyed) && |ids| == |entries|
    ensures forall i :: 0 <= i < |ids| ==>
              M.DestroyAll(entries, tab)[i].frees == entries[i].frees + One(ids[i] in destroyed)
    ensures forall e :: e in destroyed ==> e in ids
  {
    destroyed := t.Destroy();
    forall e | e in destroyed ensures e in ids {
      Located(ids, images, t.table, entries, tab, e.key);
    }
    forall i | 0 <= i < |ids| ensures ids[i] in destroyed <==> M.Listed(entries, tab, i) {
      Located(ids, images, t.table, entries, tab, ids[i].key);
    }
  }

  // ----- the writer's changes of an entry

  // In memory, only e changes.
  method StoreImages(e: C.Entry, chunk: M.Bytes, granted: bool, ghost ids: seq<C.Entry>, ghost images: seq<Image>,
                     ghost i: nat)
    returns (r: int, ghost image: Image)
    requires Shows(ids, images) && i < |ids| == |images| && ids[i] == e && images[i].holding && Distinct(ids)
    requires forall k :: 0 <= k < |ids| && k != i ==> images[k].block == null || images[k].block != images[i].block
    requires |images[i].body| + |chunk| < C.WORD
    modifies e`data, e`size, e`capacity, e`failed, e`copied, e.Block()
    ensures Shows(ids, images[i := image])
    ensures image.holding && image.complete == images[i].complete && image.refcnt == images[i].refcnt
    ensures image.block == null || forall k :: 0 <= k < |ids| && k != i ==> images[k].block != image.block
    ensures r == if chunk != [] && (images[i].failed || !(granted || |images[i].body| + |chunk| <= old(e.capacity)))
                 then -1 else 0
    ensures image.body == if r == 0 then images[i].body + chunk else images[i].body
    ensures image.failed == (images[i].failed || r == -1)
  {
    assert ImageOf(e) == images[i];
    var overrun;
    r, overrun := e.Append(chunk, granted);
    image := ImageOf(e);
    forall k | 0 <= k < |ids| ensures ImageOf(ids[k]) == images[i := image][k] {
      assert old(ImageOf(ids[k])) == images[k];
    }
  }

  // cache_append_data; the machine's choice says whether memory could be had when it was needed.
  method Store(e: C.Entry, chunk: M.Bytes, granted: bool, ghost ids: seq<C.Entry>, ghost images: seq<Image>,
               ghost table: map<Key, C.Entry>, ghost entries: seq<M.Entry>, ghost tab: map<Key, nat>,
               ghost h: M.Handler, ghost c: M.Choice)
    returns (r: int, ghost images': seq<Image>)
    requires Shows(ids, images) && Mirrors(ids, images, table, entries, tab)
    requires h.WAppend? && h.chunk == chunk
    requires h.e < |ids| == |entries| && ids[h.e] == e && entries[h.e].frees == 0
    requires |entries[h.e].data| + |chunk| < C.WORD
    requires c.ok == (granted || chunk == [] || |entries[h.e].data| + |chunk| <= e.capacity)
    modifies e`data, e`size, e`capacity, e`failed, e`copied, e.Block()
    ensures Shows(ids, images')
    ensures Mirrors(ids, images', table, entries[h.e := M.Touch(entries[h.e], h, c)], tab)
    ensures r == if chunk == [] || (!entries[h.e].failed && c.ok) then 0 else -1
  {
    assert Distinct(ids) && Fits(images[h.e], entries[h.e]);
    ghost var image;
    r, image := StoreImages(e, chunk, granted, ids, images, h.e);
    EntryChanges(ids, images, table, entries, tab, h.e, image, M.Touch(entries[h.e], h, c));
    images' := images[h.e := image];
  }
}
