/**
 The data structures of the cache (`cache/cache.c`), each method as it runs under its locks: the growing
 buffer of an entry, and the table of bucket chains, which is shown to be a map from keys to entries.
 */
module CacheStore {
  import opened Basics

  // One more than the largest size_t, and than the largest unsigned long.
  const WORD: nat := 0x1_0000_0000_0000_0000

  const DEFAULT_BUCKETS: nat := 1024
  const FIRST_CAPACITY: nat := 64 * 1024

  function Max(x: nat, y: nat): nat { if x < y then y else x }

  // ----- the hash

  // The number that the characters stand for in base 33, with 5381 in front.
  function Base33(s: seq<Byte>): nat {
    if s == [] then 5381 else 33 * Base33(s[..|s| - 1]) + s[|s| - 1] as nat
  }

  lemma WrapOnce(n: nat, c: nat)
    ensures ((n % WORD * 32 % WORD + n % WORD) % WORD + c) % WORD == (33 * n + c) % WORD
  {
  }

  // hash_key: the shifts and additions wrap at every step, and the result is as if only the last one did.
  method HashKey(s: Key) returns (h: nat)
    ensures h == Base33(s) % WORD
  {
    h := 5381;
    for i := 0 to |s|
      invariant h == Base33(s[..i]) % WORD
    {
      WrapOnce(Base33(s[..i]), s[i] as nat);
      assert s[..i + 1][..i] == s[..i];
      h := ((h * 32 % WORD + h) % WORD + s[i] as nat) % WORD;
    }
    assert s[..|s|] == s;
  }

  function Home(key: Key, n: nat): (b: nat)
    requires n > 0
    ensures b < n
  {
    Base33(key) % WORD % n
  }

  // ----- the buffer of one entry

  // The capacity with which cache_append_data goes on when it needs `need` bytes.
  function CapacityAfter(capacity: nat, need: nat): nat {
    if need <= capacity then capacity
    else
      var newcap := if capacity == 0 then FIRST_CAPACITY else capacity * 2 % WORD;
      if newcap < need then need else newcap
  }

  // The copy stays inside the buffer exactly when the sum of the sizes does not wrap; it does not matter
  // whether doubling the capacity wraps.
  lemma AppendFits(size: nat, capacity: nat, len: nat)
    requires size <= capacity < WORD && len < WORD
    ensures size + len <= CapacityAfter(capacity, (size + len) % WORD) <==> size + len < WORD
    ensures capacity <= CapacityAfter(capacity, (size + len) % WORD) < WORD
  {
  }

  class Entry {
    const key: Key
    var data: array?<Byte>
    var size: nat
    var capacity: nat
    var complete: bool
    var failed: bool
    var refcnt: int
    var next: Entry?
    // how many bytes all calls of realloc have copied
    ghost var copied: nat

    constructor (key: Key)
      ensures this.key == key && data == null && Holding() && Body() == [] && copied == 0
      ensures !complete && !failed && refcnt == 1 && next == null
    {
      this.key := key;
      data := null;
      size, capacity, copied := 0, 0, 0;
      complete, failed := false, false;
      refcnt := 1;
      next := null;
    }

    // The buffer is as large as `capacity` says, at most twice as large as it must be once it is larger than
    // the first one, and all copying together has cost no more than its present size.
    ghost predicate Holding()
      reads this`data, this`size, this`capacity, this`copied
    {
      && size <= capacity < WORD
      && (if data == null then capacity == 0 else data.Length == capacity > 0)
      && capacity <= Max(FIRST_CAPACITY, 2 * size)
      && (capacity <= WORD / 2 ==> copied <= capacity)
    }

    ghost function Body(): (r: seq<Byte>)
      requires Holding()
      reads this`data, this`size, this`capacity, this`copied, data
      ensures |r| == size
    {
      if data == null then [] else data[..size]
    }

    ghost function Block(): set<object>
      reads this`data
    {
      if data == null then {} else {data}
    }

    // realloc: a larger block with the same bytes in front.
    method Realloc(newcap: nat)
      requires size <= capacity < newcap
      requires if data == null then capacity == 0 else data.Length == capacity
      modifies this`data, this`capacity, this`copied
      ensures data != null && fresh(data) && data.Length == capacity == newcap
      ensures data[..size] == if old(data) == null then [] else old(data[..size])
      ensures copied == old(copied) + old(capacity)
    {
      var block := new Byte[newcap];
      if data != null {
        var from := data;
        forall i | 0 <= i < capacity {
          block[i] := from[i];
        }
      }
      copied := copied + capacity;
      data, capacity := block, newcap;
    }

    // Room for `need` bytes; false when there is not and realloc fails.
    method Reserve(need: nat, granted: bool) returns (ok: bool)
      requires Holding() && need < WORD
      modifies this`data, this`capacity, this`copied
      ensures ok == (need <= old(capacity) || granted)
      ensures need <= old(capacity) || !ok ==> data == old(data) && capacity == old(capacity) && copied == old(copied)
      ensures ok && need > old(capacity) ==> data != null && fresh(data)
      ensures ok && data != null ==> size <= capacity == data.Length && data[..size] == old(Body())
      ensures ok ==> capacity == CapacityAfter(old(capacity), need)
      ensures ok ==> need <= capacity < WORD && (need > 0 ==> data != null)
      ensures ok && size <= need ==> capacity <= Max(FIRST_CAPACITY, 2 * need)
      ensures capacity <= WORD / 2 ==> copied <= capacity
    {
      if need > capacity {
        var newcap := if capacity != 0 then capacity * 2 % WORD else FIRST_CAPACITY;
        if newcap < need {
          newcap := need;
        }
        if !granted {
          return false;
        }
        Realloc(newcap);
      }
      return true;
    }

    // memcpy
    method Copy(chunk: seq<Byte>)
      requires data != null && size + |chunk| <= data.Length
      modifies this`size, data
      ensures size == old(size) + |chunk| && data[..size] == old(data[..size]) + chunk
    {
      var block := data;
      forall i | 0 <= i < |chunk| {
        block[size + i] := chunk[i];
      }
      size := size + |chunk|;
    }

    // cache_append_data; `granted` is whether realloc succeeds, should it be called.  When the sum of the sizes
    // wraps, the memory that is asked for is too small and the copy would run past the block: `overrun`.
    method Append(chunk: seq<Byte>, granted: bool) returns (r: int, overrun: bool)
      requires Holding() && |chunk| < WORD
      modifies this`data, this`size, this`capacity, this`failed, this`copied, Block()
      ensures Holding() && fresh(Block() - old(Block()))
      ensures r == 0 || r == -1
      ensures overrun <==> chunk != [] && !old(failed) && old(size) + |chunk| >= WORD
      ensures r == 0 && !overrun ==> Body() == old(Body()) + chunk && failed == old(failed)
      ensures r == -1 ==> Body() == old(Body()) && failed
      ensures !overrun ==>
                (r == -1 <==> chunk != [] && (old(failed) || (!granted && old(size) + |chunk| > old(capacity))))
      ensures r == 0 && chunk != [] && !overrun ==> capacity == CapacityAfter(old(capacity), old(size) + |chunk|)
      ensures r == 0 && old(size) + |chunk| <= old(capacity) ==> data == old(data) && copied == old(copied)
    {
      if |chunk| == 0 { return 0, false; }
      if failed { return -1, false; }
      hide CapacityAfter;
      var need := (size + |chunk|) % WORD;
      assert if size + |chunk| < WORD then need == size + |chunk| else need < size;
      var ok := Reserve(need, granted);
      if !ok {
        failed := true;
        return -1, false;
      }
      if data == null || size + |chunk| > data.Length { return 0, true; }
      Copy(chunk);
      return 0, false;
    }

    // cache_mark_complete
    method MarkComplete()
      modifies this`complete
      ensures complete
    {
      complete := true;
    }

    // cache_mark_failed
    method MarkFailed()
      modifies this`failed
      ensures failed
    {
      failed := true;
    }
  }
}
