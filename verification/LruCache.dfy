/**
  The in-memory cache (backend/database/cache_manager.py): entries oldest-used first, as in the ordered
  dictionary it keeps, with a byte limit and a lifetime per entry.
*/
module LruCache {
  import opened Wrappers

  datatype Entry<+V> = Entry(data: V, timestamp: Time, size: nat, ttl: int)
  datatype Slot<+V> = Slot(key: string, entry: Entry<V>)

  predicate Expired<V>(e: Entry<V>, now: Time) { now - e.timestamp > e.ttl }

  // ----- the ordered dictionary -----

  /** The place of `key` at or after `k`, or the length. */
  function PositionFrom<V>(slots: seq<Slot<V>>, key: string, k: nat): (i: nat)
    requires k <= |slots|
    ensures k <= i <= |slots| && (i < |slots| ==> slots[i].key == key)
    ensures forall j | k <= j < i :: slots[j].key != key
    decreases |slots| - k
  {
    if k == |slots| || slots[k].key == key then k else PositionFrom(slots, key, k + 1)
  }

  function Position<V>(slots: seq<Slot<V>>, key: string): nat { PositionFrom(slots, key, 0) }

  function Find<V>(slots: seq<Slot<V>>, key: string): Option<Entry<V>> {
    var i := Position(slots, key);
    if i < |slots| then Some(slots[i].entry) else None
  }

  function Removed<V>(slots: seq<Slot<V>>, key: string): seq<Slot<V>> {
    var i := Position(slots, key);
    if i < |slots| then slots[..i] + slots[i + 1..] else slots
  }

  function Total<V>(slots: seq<Slot<V>>): nat {
    if slots == [] then 0 else slots[0].entry.size + Total(slots[1..])
  }

  predicate DistinctKeys<V>(slots: seq<Slot<V>>) {
    forall i, j :: 0 <= i < j < |slots| ==> slots[i].key != slots[j].key
  }

  /** How many of the oldest entries have to go so that `required` more bytes fit, if they can fit at all. */
  function Surplus<V>(slots: seq<Slot<V>>, required: nat, limit: nat): (n: nat)
    ensures n <= |slots|
  {
    if slots == [] || Total(slots) + required <= limit then 0 else 1 + Surplus(slots[1..], required, limit)
  }

  // ----- operations on values -----

  datatype Cache<+V> = Cache(slots: seq<Slot<V>>, size: int, hits: nat, misses: nat, evictions: nat)

  function Get<V>(c: Cache<V>, key: string, now: Time): (Cache<V>, Option<V>) {
    var found := Find(c.slots, key);
    if found.None? then (c.(misses := c.misses + 1), None)
    else if Expired(found.value, now) then
      (c.(slots := Removed(c.slots, key), size := c.size - found.value.size, misses := c.misses + 1), None)
    else
      (c.(slots := Removed(c.slots, key) + [Slot(key, found.value)], hits := c.hits + 1), Some(found.value.data))
  }

  function Delete<V>(c: Cache<V>, key: string): Cache<V> {
    var found := Find(c.slots, key);
    if found.None? then c else c.(slots := Removed(c.slots, key), size := c.size - found.value.size)
  }

  /** Drop the oldest entries until the required bytes fit. */
  function Evict<V>(c: Cache<V>, required: nat, limit: nat): Cache<V> {
    var n := Surplus(c.slots, required, limit);
    c.(slots := c.slots[n..], size := c.size - Total(c.slots[..n]), evictions := c.evictions + n)
  }

  function Set<V>(c: Cache<V>, key: string, e: Entry<V>, limit: nat): Cache<V> {
    var room := Evict(Delete(c, key), e.size, limit);
    room.(slots := room.slots + [Slot(key, e)], size := room.size + e.size)
  }

  /** A cleared cache is a new one, statistics included. */
  function Empty<V>(): Cache<V> { Cache([], 0, 0, 0, 0) }

  // ----- the ordered dictionary behaves as one -----

  lemma {:induction false} TotalConcat<V>(a: seq<Slot<V>>, b: seq<Slot<V>>)
    ensures Total(a + b) == Total(a) + Total(b)
  {
    if a == [] {
      assert a + b == b;
    } else {
      assert (a + b)[1..] == a[1..] + b;
      TotalConcat(a[1..], b);
    }
  }

  lemma TotalRemoved<V>(slots: seq<Slot<V>>, key: string)
    requires Find(slots, key).Some?
    ensures Total(Removed(slots, key)) == Total(slots) - Find(slots, key).value.size
  {
    var i := Position(slots, key);
    assert slots == slots[..i] + slots[i..];
    TotalConcat(slots[..i], slots[i..]);
    TotalConcat(slots[..i], slots[i + 1..]);
  }

  /** With distinct keys, an entry is found exactly where it is. */
  lemma FindAt<V>(slots: seq<Slot<V>>, i: nat)
    requires DistinctKeys(slots) && i < |slots|
    ensures Position(slots, slots[i].key) == i && Find(slots, slots[i].key) == Some(slots[i].entry)
  {
  }

  lemma FindAbsent<V>(slots: seq<Slot<V>>, key: string)
    requires forall i | 0 <= i < |slots| :: slots[i].key != key
    ensures Find(slots, key) == None
  {
  }

  /** Removing a key removes it alone and keeps the others, in their order. */
  lemma RemovedFind<V>(slots: seq<Slot<V>>, key: string, k: string)
    requires DistinctKeys(slots)
    ensures DistinctKeys(Removed(slots, key))
    ensures Find(Removed(slots, key), k) == if k == key then None else Find(slots, k)
  {
    var rest := Removed(slots, key);
    var i, j := Position(slots, key), Position(slots, k);
    if k == key || j == |slots| {
      FindAbsent(rest, k);
    } else {
      var at := if j < i then j else j - 1;
      assert rest[at] == slots[j];
      FindAt(rest, at);
    }
  }

  lemma AppendFind<V>(slots: seq<Slot<V>>, s: Slot<V>, k: string)
    requires DistinctKeys(slots) && Find(slots, s.key) == None
    ensures DistinctKeys(slots + [s])
    ensures Find(slots + [s], k) == if k == s.key then Some(s.entry) else Find(slots, k)
  {
    var after := slots + [s];
    var j := Position(slots, k);
    if k == s.key {
      FindAt(after, |slots|);
    } else if j == |slots| {
      FindAbsent(after, k);
    } else {
      assert after[j] == slots[j];
      FindAt(after, j);
    }
  }

  // ----- eviction -----

  /** The evicted prefix is the shortest one that makes room: afterwards everything fits or nothing old is left. */
  lemma {:induction false} SurplusIsShortest<V>(slots: seq<Slot<V>>, required: nat, limit: nat)
    ensures var n := Surplus(slots, required, limit);
            && (Total(slots[n..]) + required <= limit || slots[n..] == [])
            && (forall m | 0 <= m < n :: Total(slots[m..]) + required > limit)
  {
    if slots != [] && Total(slots) + required > limit {
      var rest := slots[1..];
      var n := Surplus(slots, required, limit);
      SurplusIsShortest(rest, required, limit);
      assert rest[n - 1..] == slots[n..];
      forall m | 0 <= m < n ensures Total(slots[m..]) + required > limit {
        if m > 0 { assert rest[m - 1..] == slots[m..]; } else { assert slots[0..] == slots; }
      }
    } else {
      assert slots[0..] == slots;
    }
  }

  lemma SuffixFind<V>(slots: seq<Slot<V>>, n: nat, k: string)
    requires DistinctKeys(slots) && n <= |slots|
    ensures DistinctKeys(slots[n..])
    ensures Find(slots[n..], k) == if Position(slots, k) < n then None else Find(slots, k)
  {
    var j := Position(slots, k);
    var rest := slots[n..];
    if n <= j < |slots| {
      assert rest[j - n] == slots[j];
      FindAt(rest, j - n);
    } else {
      FindAbsent(rest, k);
    }
  }

  // ----- the invariant -----

  /** Bytes are counted exactly, and they respect the limit unless a single oversized entry is all there is. */
  ghost predicate CacheInv<V>(c: Cache<V>, limit: nat) {
    && DistinctKeys(c.slots)
    && c.size == Total(c.slots)
    && (Total(c.slots) <= limit || |c.slots| == 1)
  }

  lemma SmallerKeepsLimit<V>(slots: seq<Slot<V>>, key: string, limit: nat)
    requires Find(slots, key).Some? && (Total(slots) <= limit || |slots| == 1)
    ensures Total(Removed(slots, key)) <= limit || |Removed(slots, key)| == 1
  {
    TotalRemoved(slots, key);
    assert |slots| == 1 ==> Removed(slots, key) == [];
  }

  lemma DeleteFinds<V>(c: Cache<V>, key: string, k: string)
    requires DistinctKeys(c.slots)
    ensures DistinctKeys(Delete(c, key).slots)
    ensures Find(Delete(c, key).slots, k) == if k == key then None else Find(c.slots, k)
  {
    RemovedFind(c.slots, key, k);
  }

  lemma DeleteKeepsInv<V>(c: Cache<V>, key: string, limit: nat)
    requires CacheInv(c, limit)
    ensures CacheInv(Delete(c, key), limit)
    ensures forall k :: Find(Delete(c, key).slots, k) == if k == key then None else Find(c.slots, k)
  {
    forall k ensures Find(Delete(c, key).slots, k) == if k == key then None else Find(c.slots, k) {
      DeleteFinds(c, key, k);
    }
    assert CacheInv(Delete(c, key), limit) by {
      DeleteFinds(c, key, key);
      if Find(c.slots, key).Some? {
        TotalRemoved(c.slots, key);
        SmallerKeepsLimit(c.slots, key, limit);
      }
    }
  }

  lemma GetKeepsInv<V>(c: Cache<V>, key: string, now: Time, limit: nat)
    requires CacheInv(c, limit)
    ensures var (d, found) := Get(c, key, now);
            && CacheInv(d, limit)
            && (forall k | k != key :: Find(d.slots, k) == Find(c.slots, k))
            && Find(d.slots, key) == (if found.Some? then Find(c.slots, key) else None)
            && (found.Some? <==> Find(c.slots, key).Some? && !Expired(Find(c.slots, key).value, now))
            && (found.Some? ==> found.value == Find(c.slots, key).value.data)
  {
    DeleteKeepsInv(c, key, limit);
    var (d, found) := Get(c, key, now);
    if found.Some? {
      var slot := Slot(key, Find(c.slots, key).value);
      var rest := Removed(c.slots, key);
      TotalRemoved(c.slots, key);
      TotalConcat(rest, [slot]);
      AppendFind(rest, slot, key);
      forall k | k != key ensures Find(d.slots, k) == Find(c.slots, k) { AppendFind(rest, slot, k); }
      assert |d.slots| == |c.slots|;
    }
  }

  /** The bytes after a set: what was kept plus the new entry. */
  lemma SetSizes<V>(slots: seq<Slot<V>>, n: nat, s: Slot<V>)
    requires n <= |slots|
    ensures Total(slots[n..] + [s]) == Total(slots) - Total(slots[..n]) + s.entry.size
    ensures Total(slots[n..] + [s]) == Total(slots[n..]) + s.entry.size
  {
    assert slots == slots[..n] + slots[n..];
    TotalConcat(slots[..n], slots[n..]);
    TotalConcat(slots[n..], [s]);
  }

  /** The entries after dropping the oldest `n` and adding a new key: the rest is untouched. */
  lemma SetFinds<V>(slots: seq<Slot<V>>, n: nat, s: Slot<V>, k: string)
    requires DistinctKeys(slots) && n <= |slots| && Find(slots, s.key) == None
    ensures DistinctKeys(slots[n..] + [s])
    ensures Find(slots[n..] + [s], k) ==
              if k == s.key then Some(s.entry) else if Position(slots, k) < n then None else Find(slots, k)
  {
    SuffixFind(slots, n, s.key);
    SuffixFind(slots, n, k);
    AppendFind(slots[n..], s, k);
  }

  lemma SetKeepsInv<V>(c: Cache<V>, key: string, e: Entry<V>, limit: nat)
    requires CacheInv(c, limit)
    ensures CacheInv(Set(c, key, e, limit), limit)
    ensures Find(Set(c, key, e, limit).slots, key) == Some(e)
    ensures forall k | k != key :: Find(Set(c, key, e, limit).slots, k) ==
              if Position(Delete(c, key).slots, k) < Surplus(Delete(c, key).slots, e.size, limit) then None else Find(c.slots, k)
  {
    var d := Delete(c, key);
    DeleteKeepsInv(c, key, limit);
    var n := Surplus(d.slots, e.size, limit);
    SurplusIsShortest(d.slots, e.size, limit);
    SetSizes(d.slots, n, Slot(key, e));
    forall k ensures Find(Set(c, key, e, limit).slots, k) ==
                       if k == key then Some(e) else if Position(d.slots, k) < n then None else Find(c.slots, k) {
      SetFinds(d.slots, n, Slot(key, e), k);
    }
    SetFinds(d.slots, n, Slot(key, e), key);
  }
}
