/** What every sequence of cache calls keeps, and the cache as it runs. */
module LruRuns {
  import opened Wrappers
  import opened LruCache

  datatype Op<+V> =
    | OpGet(key: string, now: Time)
    | OpSet(key: string, entry: Entry<V>)
    | OpDelete(key: string)
    | OpClear

  function Step<V>(c: Cache<V>, op: Op<V>, limit: nat): Cache<V> {
    match op
    case OpGet(key, now) => Get(c, key, now).0
    case OpSet(key, e) => Set(c, key, e, limit)
    case OpDelete(key) => Delete(c, key)
    case OpClear => Empty()
  }

  /** The cache after all of `ops`, from an empty one. */
  ghost function After<V>(ops: seq<Op<V>>, limit: nat): Cache<V> {
    if ops == [] then Empty() else Step(After(ops[..|ops| - 1], limit), ops[|ops| - 1], limit)
  }

  lemma StepKeepsInv<V>(c: Cache<V>, op: Op<V>, limit: nat)
    requires CacheInv(c, limit)
    ensures CacheInv(Step(c, op, limit), limit)
  {
    match op
    case OpGet(key, now) => GetKeepsInv(c, key, now, limit);
    case OpSet(key, e) => SetKeepsInv(c, key, e, limit);
    case OpDelete(key) => DeleteKeepsInv(c, key, limit);
    case OpClear =>
  }

  /** Sizes add up, and the limit holds unless one oversized entry is alone, after any calls whatever. */
  lemma {:induction false} ReachableInv<V>(ops: seq<Op<V>>, limit: nat)
    ensures CacheInv(After(ops, limit), limit)
  {
    if ops != [] {
      ReachableInv(ops[..|ops| - 1], limit);
      StepKeepsInv(After(ops[..|ops| - 1], limit), ops[|ops| - 1], limit);
    }
  }

  // ----- 1. what a get can return -----

  /** The history alone: the last entry set for `key` that was not deleted or cleared since. */
  ghost function Written<V>(ops: seq<Op<V>>, key: string): Option<Entry<V>> {
    if ops == [] then None
    else
      match ops[|ops| - 1]
      case OpSet(k, e) => if k == key then Some(e) else Written(ops[..|ops| - 1], key)
      case OpDelete(k) => if k == key then None else Written(ops[..|ops| - 1], key)
      case OpClear => None
      case OpGet(_, _) => Written(ops[..|ops| - 1], key)
  }

  /** Whatever is stored for a key is the last entry set for it. */
  lemma {:induction false} StoredIsLastSet<V>(ops: seq<Op<V>>, limit: nat, key: string)
    ensures var found := Find(After(ops, limit).slots, key); found.Some? ==> found == Written(ops, key)
  {
    if ops != [] {
      var before, op := ops[..|ops| - 1], ops[|ops| - 1];
      var c := After(before, limit);
      StoredIsLastSet(before, limit, key);
      ReachableInv(before, limit);
      match op
      case OpGet(k, now) => GetKeepsInv(c, k, now, limit);
      case OpSet(k, e) => SetKeepsInv(c, k, e, limit);
      case OpDelete(k) => DeleteKeepsInv(c, k, limit);
      case OpClear => FindAbsent<V>([], key);
    }
  }

  /** A get answers nothing, or the last value set for that key, still alive and not removed since. */
  lemma GetReturnsLastSet<V>(ops: seq<Op<V>>, limit: nat, key: string, now: Time)
    ensures var found := Get(After(ops, limit), key, now).1;
            found.Some? ==> Written(ops, key).Some? && found.value == Written(ops, key).value.data
                            && now - Written(ops, key).value.timestamp <= Written(ops, key).value.ttl
  {
    ReachableInv(ops, limit);
    GetKeepsInv(After(ops, limit), key, now, limit);
    StoredIsLastSet(ops, limit, key);
  }

  /** Setting another key pushed this one out. */
  ghost predicate EvictedBy<V>(c: Cache<V>, op: Op<V>, limit: nat, key: string) {
    && op.OpSet? && op.key != key && Find(c.slots, key).Some?
    && Position(Delete(c, op.key).slots, key) < Surplus(Delete(c, op.key).slots, op.entry.size, limit)
  }

  ghost predicate NeverEvicted<V>(ops: seq<Op<V>>, limit: nat, key: string) {
    ops == [] ||
    (NeverEvicted(ops[..|ops| - 1], limit, key) && !EvictedBy(After(ops[..|ops| - 1], limit), ops[|ops| - 1], limit, key))
  }

  /** An entry is lost to the history only by a lookup that already saw it expired. */
  lemma {:induction false} KeptUnlessExpired<V>(ops: seq<Op<V>>, limit: nat, key: string, now: Time)
    requires NeverEvicted(ops, limit, key)
    requires forall i | 0 <= i < |ops| :: ops[i].OpGet? ==> ops[i].now <= now
    ensures var found := Find(After(ops, limit).slots, key);
            found == Written(ops, key) || (found.None? && Written(ops, key).Some? && Expired(Written(ops, key).value, now))
  {
    if ops != [] {
      var before, op := ops[..|ops| - 1], ops[|ops| - 1];
      var c := After(before, limit);
      forall i | 0 <= i < |before| ensures before[i].OpGet? ==> before[i].now <= now { assert before[i] == ops[i]; }
      KeptUnlessExpired(before, limit, key, now);
      ReachableInv(before, limit);
      match op
      case OpGet(k, at) => GetKeepsInv(c, k, at, limit);
      case OpSet(k, e) => SetKeepsInv(c, k, e, limit);
      case OpDelete(k) => DeleteKeepsInv(c, k, limit);
      case OpClear => FindAbsent<V>([], key);
    } else {
      FindAbsent<V>([], key);
    }
  }

  /** Without eviction the cache is exactly its history: a get hits if and only if the last set is alive. */
  lemma HitsExactlyWhenAlive<V>(ops: seq<Op<V>>, limit: nat, key: string, now: Time)
    requires NeverEvicted(ops, limit, key)
    requires forall i | 0 <= i < |ops| :: ops[i].OpGet? ==> ops[i].now <= now
    ensures var last := Written(ops, key);
            Get(After(ops, limit), key, now).1 ==
              if last.Some? && now - last.value.timestamp <= last.value.ttl then Some(last.value.data) else None
  {
    ReachableInv(ops, limit);
    GetKeepsInv(After(ops, limit), key, now, limit);
    KeptUnlessExpired(ops, limit, key, now);
  }

  // ----- 2. the order of the slots is the order of last use -----

  ghost predicate Touches<V>(c: Cache<V>, op: Op<V>, key: string) {
    || (op.OpSet? && op.key == key)
    || (op.OpGet? && op.key == key && Get(c, key, op.now).1.Some?)
  }

  /** When `key` was last set or hit, counting calls from one. */
  ghost function LastUse<V>(ops: seq<Op<V>>, limit: nat, key: string): (n: nat)
    ensures n <= |ops|
  {
    if ops == [] then 0
    else if Touches(After(ops[..|ops| - 1], limit), ops[|ops| - 1], key) then |ops|
    else LastUse(ops[..|ops| - 1], limit, key)
  }

  ghost predicate ByUse<V>(slots: seq<Slot<V>>, ops: seq<Op<V>>, limit: nat) {
    forall i, j :: 0 <= i < j < |slots| ==> LastUse(ops, limit, slots[i].key) < LastUse(ops, limit, slots[j].key)
  }

  /** Where a slot of `Removed(slots, key)` comes from. */
  lemma RemovedFrom<V>(slots: seq<Slot<V>>, key: string, i: nat) returns (from: nat)
    requires i < |Removed(slots, key)|
    ensures from < |slots| && slots[from] == Removed(slots, key)[i]
    ensures from == if i < Position(slots, key) then i else i + 1
  {
    from := if i < Position(slots, key) then i else i + 1;
  }

  lemma RemovedByUse<V>(slots: seq<Slot<V>>, key: string, ops: seq<Op<V>>, limit: nat)
    requires ByUse(slots, ops, limit)
    ensures ByUse(Removed(slots, key), ops, limit)
  {
    var rest := Removed(slots, key);
    forall i, j | 0 <= i < j < |rest| ensures LastUse(ops, limit, rest[i].key) < LastUse(ops, limit, rest[j].key) {
      var a := RemovedFrom(slots, key, i);
      var b := RemovedFrom(slots, key, j);
      assert a < b;
    }
  }

  /** Later calls that do not touch the slots' keys leave their order of use alone. */
  lemma UntouchedByUse<V>(slots: seq<Slot<V>>, ops: seq<Op<V>>, limit: nat)
    requires ops != [] && ByUse(slots, ops[..|ops| - 1], limit)
    requires forall i | 0 <= i < |slots| :: !Touches(After(ops[..|ops| - 1], limit), ops[|ops| - 1], slots[i].key)
    ensures ByUse(slots, ops, limit)
    ensures forall i | 0 <= i < |slots| :: LastUse(ops, limit, slots[i].key) < |ops|
  {
    forall i | 0 <= i < |slots|
      ensures LastUse(ops, limit, slots[i].key) == LastUse(ops[..|ops| - 1], limit, slots[i].key) < |ops|
    {
    }
  }

  lemma RemovedLacks<V>(slots: seq<Slot<V>>, key: string, i: nat)
    requires DistinctKeys(slots) && i < |Removed(slots, key)|
    ensures Removed(slots, key)[i].key != key
  {
    RemovedFind(slots, key, key);
    if Removed(slots, key)[i].key == key { FindAt(Removed(slots, key), i); }
  }

  /** A touched key goes last, behind everything that is older. */
  lemma AppendByUse<V>(slots: seq<Slot<V>>, s: Slot<V>, ops: seq<Op<V>>, limit: nat)
    requires ops != [] && ByUse(slots, ops, limit) && LastUse(ops, limit, s.key) == |ops|
    requires forall i | 0 <= i < |slots| :: LastUse(ops, limit, slots[i].key) < |ops|
    ensures ByUse(slots + [s], ops, limit)
  {
  }

  lemma SuffixByUse<V>(slots: seq<Slot<V>>, n: nat, ops: seq<Op<V>>, limit: nat)
    requires n <= |slots| && ByUse(slots, ops, limit)
    ensures ByUse(slots[n..], ops, limit)
  {
  }

  /** The slots other than the one called on keep their order through that call. */
  lemma OthersByUse<V>(ops: seq<Op<V>>, limit: nat, key: string)
    requires ops != [] && !ops[|ops| - 1].OpClear? && ops[|ops| - 1].key == key
    requires var c := After(ops[..|ops| - 1], limit); DistinctKeys(c.slots) && ByUse(c.slots, ops[..|ops| - 1], limit)
    ensures var rest := Removed(After(ops[..|ops| - 1], limit).slots, key);
            ByUse(rest, ops, limit) && forall i | 0 <= i < |rest| :: LastUse(ops, limit, rest[i].key) < |ops|
  {
    var c := After(ops[..|ops| - 1], limit);
    var rest := Removed(c.slots, key);
    RemovedByUse(c.slots, key, ops[..|ops| - 1], limit);
    forall i | 0 <= i < |rest| ensures rest[i].key != key { RemovedLacks(c.slots, key, i); }
    UntouchedByUse(rest, ops, limit);
  }

  lemma TouchedByUse<V>(ops: seq<Op<V>>, limit: nat, n: nat, s: Slot<V>)
    requires ops != [] && !ops[|ops| - 1].OpClear? && ops[|ops| - 1].key == s.key
    requires Touches(After(ops[..|ops| - 1], limit), ops[|ops| - 1], s.key)
    requires var c := After(ops[..|ops| - 1], limit); DistinctKeys(c.slots) && ByUse(c.slots, ops[..|ops| - 1], limit)
    requires n <= |Removed(After(ops[..|ops| - 1], limit).slots, s.key)|
    ensures ByUse(Removed(After(ops[..|ops| - 1], limit).slots, s.key)[n..] + [s], ops, limit)
  {
    var rest := Removed(After(ops[..|ops| - 1], limit).slots, s.key);
    OthersByUse(ops, limit, s.key);
    SuffixByUse(rest, n, ops, limit);
    AppendByUse(rest[n..], s, ops, limit);
  }

  /** After any calls, the slots are ordered from least to most recently used. */
  lemma {:induction false} SlotsAreOrderedByUse<V>(ops: seq<Op<V>>, limit: nat)
    ensures ByUse(After(ops, limit).slots, ops, limit)
  {
    if ops != [] {
      var before, op := ops[..|ops| - 1], ops[|ops| - 1];
      var c := After(before, limit);
      SlotsAreOrderedByUse(before, limit);
      ReachableInv(before, limit);
      match op
      case OpGet(key, now) =>
        var rest := Removed(c.slots, key);
        if Get(c, key, now).1.Some? {
          TouchedByUse(ops, limit, 0, Slot(key, Find(c.slots, key).value));
          assert rest[0..] == rest;
        } else {
          OthersByUse(ops, limit, key);
        }
      case OpSet(key, e) => TouchedByUse(ops, limit, Surplus(Removed(c.slots, key), e.size, limit), Slot(key, e));
      case OpDelete(key) => OthersByUse(ops, limit, key);
      case OpClear =>
    }
  }

  /** So a set evicts the least recently used keys: every key it pushes out was used before every key it keeps. */
  lemma EvictionIsLeastRecentlyUsed<V>(ops: seq<Op<V>>, limit: nat, key: string, e: Entry<V>, gone: string, kept: string)
    requires EvictedBy(After(ops, limit), OpSet(key, e), limit, gone)
    requires kept != key && Find(After(ops + [OpSet(key, e)], limit).slots, kept).Some?
    ensures LastUse(ops, limit, gone) < LastUse(ops, limit, kept)
  {
    var c := After(ops, limit);
    assert (ops + [OpSet(key, e)])[..|ops|] == ops;
    ReachableInv(ops, limit);
    SlotsAreOrderedByUse(ops, limit);
    SetKeepsInv(c, key, e, limit);
    DeleteKeepsInv(c, key, limit);
    RemovedByUse(c.slots, key, ops, limit);
    var rest := Delete(c, key).slots;
    var n := Surplus(rest, e.size, limit);
    var i, j := Position(rest, gone), Position(rest, kept);
    assert Find(rest, kept).Some? && Find(rest, gone).Some?;
    assert i < n <= j < |rest|;
  }

  // ----- 3. statistics -----

  /** Lookups since the last clear, and how many of them hit. */
  ghost function Lookups<V>(ops: seq<Op<V>>): nat {
    if ops == [] || ops[|ops| - 1].OpClear? then 0
    else Lookups(ops[..|ops| - 1]) + if ops[|ops| - 1].OpGet? then 1 else 0
  }

  ghost function Hits<V>(ops: seq<Op<V>>, limit: nat): nat {
    if ops == [] || ops[|ops| - 1].OpClear? then 0
    else
      var op := ops[|ops| - 1];
      Hits(ops[..|ops| - 1], limit)
      + if op.OpGet? && Get(After(ops[..|ops| - 1], limit), op.key, op.now).1.Some? then 1 else 0
  }

  /** Entries that sets of other keys have pushed out since the last clear: what each set dropped beyond the key it replaced. */
  ghost function Dropped<V>(ops: seq<Op<V>>, limit: nat): int {
    if ops == [] || ops[|ops| - 1].OpClear? then 0
    else
      var before, op := After(ops[..|ops| - 1], limit).slots, ops[|ops| - 1];
      Dropped(ops[..|ops| - 1], limit)
      + if op.OpSet? then |before| + (if Find(before, op.key).Some? then 0 else 1) - |After(ops, limit).slots| else 0
  }

  /** The counters split the lookups since the last clear into hits and misses, and count every entry pushed out. */
  lemma {:induction false} StatisticsAreExact<V>(ops: seq<Op<V>>, limit: nat)
    ensures After(ops, limit).hits == Hits(ops, limit)
    ensures After(ops, limit).hits + After(ops, limit).misses == Lookups(ops)
    ensures After(ops, limit).evictions == Dropped(ops, limit)
  {
    if ops != [] { StatisticsAreExact(ops[..|ops| - 1], limit); }
  }

  // ----- the cache as it runs -----

  class InMemoryCache<V> {
    const limit: nat
    var slots: seq<Slot<V>>
    var currentSize: int
    var hits: nat
    var misses: nat
    var evictions: nat

    ghost function State(): Cache<V>
      reads this
    {
      Cache(slots, currentSize, hits, misses, evictions)
    }

    ghost predicate Valid()
      reads this
    {
      CacheInv(State(), limit)
    }

    constructor (maxMemoryMb: nat)
      ensures Valid() && State() == Empty() && limit == maxMemoryMb * 1024 * 1024
    {
      limit := maxMemoryMb * 1024 * 1024;
      slots, currentSize, hits, misses, evictions := [], 0, 0, 0, 0;
    }

    method DeleteLocked(key: string)
      requires Valid()
      modifies this`slots, this`currentSize
      ensures Valid() && State() == LruCache.Delete(old(State()), key)
    {
      DeleteKeepsInv(State(), key, limit);
      var i := Position(slots, key);
      if i < |slots| {
        currentSize := currentSize - slots[i].entry.size;
        slots := slots[..i] + slots[i + 1..];
      }
    }

    method Get(key: string, now: Time) returns (data: Option<V>)
      requires Valid()
      modifies this`slots, this`currentSize, this`hits, this`misses
      ensures Valid() && (State(), data) == LruCache.Get(old(State()), key, now)
    {
      GetKeepsInv(State(), key, now, limit);
      var i := Position(slots, key);
      if i == |slots| {
        misses := misses + 1;
        return None;
      }
      var entry := slots[i].entry;
      if now - entry.timestamp > entry.ttl {
        DeleteLocked(key);
        misses := misses + 1;
        return None;
      }
      slots := slots[..i] + slots[i + 1..] + [Slot(key, entry)];
      hits := hits + 1;
      return Some(entry.data);
    }

    /** Pop the oldest entry until the required bytes fit or nothing is left. */
    method EvictIfNeeded(required: nat)
      requires DistinctKeys(slots) && currentSize == Total(slots)
      modifies this`slots, this`currentSize, this`evictions
      ensures State() == Evict(old(State()), required, limit)
      ensures currentSize == Total(slots) && (currentSize + required <= limit || slots == [])
    {
      ghost var n := 0;
      while currentSize + required > limit && |slots| > 0
        invariant 0 <= n <= |old(slots)| && slots == old(slots)[n..]
        invariant currentSize == Total(slots) == old(currentSize) - Total(old(slots)[..n])
        invariant evictions == old(evictions) + n
        invariant Surplus(old(slots), required, limit) == n + Surplus(slots, required, limit)
        decreases |slots|
      {
        var oldest := slots[0].entry;
        assert old(slots)[..n + 1] == old(slots)[..n] + [slots[0]];
        TotalConcat(old(slots)[..n], [slots[0]]);
        slots := slots[1..];
        currentSize := currentSize - oldest.size;
        evictions := evictions + 1;
        n := n + 1;
      }
    }

    method Set(key: string, data: V, size: nat, ttl: int, now: Time)
      requires Valid()
      modifies this`slots, this`currentSize, this`evictions
      ensures Valid() && State() == LruCache.Set(old(State()), key, Entry(data, now, size, ttl), limit)
      ensures currentSize <= limit || slots == [Slot(key, Entry(data, now, size, ttl))]
    {
      SetKeepsInv(State(), key, Entry(data, now, size, ttl), limit);
      DeleteLocked(key);
      EvictIfNeeded(size);
      slots := slots + [Slot(key, Entry(data, now, size, ttl))];
      currentSize := currentSize + size;
    }

    method Delete(key: string)
      requires Valid()
      modifies this`slots, this`currentSize
      ensures Valid() && State() == LruCache.Delete(old(State()), key)
    {
      DeleteLocked(key);
    }

    method Clear()
      modifies this`slots, this`currentSize, this`hits, this`misses, this`evictions
      ensures Valid() && State() == Empty()
    {
      slots, currentSize, hits, misses, evictions := [], 0, 0, 0, 0;
    }
  }
}
