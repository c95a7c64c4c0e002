/** The open-addressing symbol table of src/core.c, as values: the FNV-1 hash, the
    capacity sequence and what `find_entry`, `insert_hash_map` and `grow_hash_map` do
    to a table.  The class in hash_map.dfy is proved to follow these functions. */
module HashTables {
  import opened Words
  import opened CStrings
  import opened Results
  import opened Fnv

  // ---- Capacities (src/core.c:4-32) ----

  const PRIMES_COUNT: nat := 26

  const CAPACITY_PRIMES: seq<nat> := [
    53, 97, 193, 389, 769, 1543, 3079, 6151, 12289, 24593, 49157, 98317, 196613,
    393241, 786433, 1572869, 3145739, 6291469, 12582917, 25165843, 50331653,
    100663319, 201326611, 402653189, 805306457, 1610612741
  ]

  lemma PrimesAscending()
    ensures |CAPACITY_PRIMES| == PRIMES_COUNT
    ensures forall i | 0 < i < PRIMES_COUNT :: CAPACITY_PRIMES[i - 1] < CAPACITY_PRIMES[i]
  {
  }

  /** `sizeof(HashEntry)` on an LP64 target: bool (padded to 8), StringBuffer (24), u64. */
  const ENTRY_SIZE: nat := 40
  const SIZE_MAX: nat := U64_MODULUS - 1

  /** `calloc(n, sizeof(HashEntry))` returns NULL whenever `n * sizeof(HashEntry)`
      overflows `size_t`: no table is larger than this. */
  const MAX_CAPACITY: nat := SIZE_MAX / ENTRY_SIZE

  // ---- Tables ----

  /** A bucket.  `key` is the C string held by the bucket's StringBuffer. */
  datatype Entry = Entry(taken: bool, key: Key, value: U64)

  const EMPTY: Entry := Entry(false, [], 0)

  /** `capacity` is `|buckets|`; `primeIndex` is `capacity_prime_index`. */
  datatype Table = Table(buckets: seq<Entry>, primeIndex: nat, count: nat)

  datatype MapError =
    | ProbeExhausted     // "Could not find a valid bucket" (src/core.c:219)
    | AllocationFailure  // calloc returned NULL (src/core.c:107-109, 138-140)

  /** The sizes the source can reach: a non-empty table that calloc could allocate, and
      while primes remain, the next prime is above the current capacity. */
  predicate WellSized(t: Table) {
    0 < |t.buckets| <= MAX_CAPACITY &&
    (t.primeIndex < PRIMES_COUNT ==> |t.buckets| < CAPACITY_PRIMES[t.primeIndex])
  }

  /** The bucket a key hashes to: `hash % capacity`. */
  function Home(k: Key, capacity: nat): (i: nat)
    requires capacity > 0
    ensures i < capacity
  {
    Bucket(Fnv1(k), capacity)
  }

  /** `hash % capacity` on unsigned 64-bit values. */
  function Bucket(hash: bv64, capacity: nat): (i: nat)
    requires capacity > 0
    ensures i < capacity
  {
    (hash as int) % capacity
  }

  /** Every taken bucket holds a key whose home it is. */
  predicate Placed(t: Table) {
    |t.buckets| > 0 &&
    forall i | 0 <= i < |t.buckets| :: t.buckets[i].taken ==> Home(t.buckets[i].key, |t.buckets|) == i
  }

  /** What the table maps `k` to, reading its home bucket. */
  function Lookup(t: Table, k: Key): Option<U64>
    requires |t.buckets| > 0
  {
    var e := t.buckets[Home(k, |t.buckets|)];
    if e.taken && e.key == k then Some(e.value) else None
  }

  /** The number of taken buckets. */
  function Occupied(s: seq<Entry>): nat {
    if s == [] then 0 else (if s[0].taken then 1 else 0) + Occupied(s[1..])
  }

  /** `init_hash_map` (src/core.c:102-113) on a zero-initialised map. */
  function InitialTable(): (t: Table)
    ensures WellSized(t) && Placed(t)
    ensures |t.buckets| == 53 && t.primeIndex == 1 && t.count == 0
    ensures forall k: Key :: Lookup(t, k) == None
  {
    Table(seq(CAPACITY_PRIMES[0], _ => EMPTY), 1, 0)
  }

  /** The capacity `grow_hash_map` moves to, and the prime index after it. */
  function NextCapacity(t: Table): (r: (nat, nat))
    requires WellSized(t)
    ensures r.0 > |t.buckets| && r.1 >= t.primeIndex
  {
    if t.primeIndex >= PRIMES_COUNT then (2 * |t.buckets| + 1, t.primeIndex)
    else (CAPACITY_PRIMES[t.primeIndex], t.primeIndex + 1)
  }

  /** `find_entry` (src/core.c:177-192): the home bucket if it is taken, whatever key
      it holds; no probing and no key comparison. */
  function Find(t: Table, k: Key): (r: Option<nat>)
    requires |t.buckets| > 0
    ensures r.Some? <==> t.buckets[Home(k, |t.buckets|)].taken
    ensures r.Some? ==> r.value == Home(k, |t.buckets|)
  {
    var i := Home(k, |t.buckets|);
    if t.buckets[i].taken then Some(i) else None
  }

  /** `grow_hash_map` (src/core.c:126-154): a fresh table of the next capacity with the
      same `count` (never reset), then every taken old bucket inserted again in order. */
  function Grow(t: Table): (r: Result<Table, MapError>)
    requires WellSized(t)
    ensures r.Ok? ==> WellSized(r.value) && |r.value.buckets| > |t.buckets|
    decreases MAX_CAPACITY - |t.buckets|, 1, 0
  {
    var (capacity, index) := NextCapacity(t);
    if capacity > MAX_CAPACITY then Err(AllocationFailure)
    else
      PrimesAscending();
      Reinsert(t.buckets, 0, Table(seq(capacity, _ => EMPTY), index, t.count))
  }

  /** The reinsertion loop of `grow_hash_map` (src/core.c:144-151) from old bucket `i`. */
  function Reinsert(prev: seq<Entry>, i: nat, t: Table): (r: Result<Table, MapError>)
    requires WellSized(t) && |prev| < |t.buckets| && i <= |prev|
    ensures r.Ok? ==> WellSized(r.value) && |r.value.buckets| >= |t.buckets|
    decreases MAX_CAPACITY - |prev|, 0, |prev| - i
  {
    if i == |prev| then Ok(t)
    else if prev[i].taken then
      match Insert(t, prev[i].key, prev[i].value)
      case Err(e) => Err(e)
      case Ok((t', _)) => Reinsert(prev, i + 1, t')
    else Reinsert(prev, i + 1, t)
  }

  /** `insert_hash_map` (src/core.c:194-239).  Grows first when the load exceeds 3/4
      (the source's float test, stated exactly).  Then only the home bucket is used: the
      probe loop never moves `bucket`, so a home bucket holding another key cycles the
      index back to where it started and hits the fatal error.  Yields the new table and
      the index of the bucket that holds the key. */
  function Insert(t: Table, key: Key, value: U64): (r: Result<(Table, nat), MapError>)
    requires WellSized(t)
    ensures r.Ok? ==> WellSized(r.value.0) && |r.value.0.buckets| >= |t.buckets|
    ensures r.Ok? ==> r.value.1 < |r.value.0.buckets|
    decreases MAX_CAPACITY - |t.buckets|, 2, 0
  {
    var t1 :- if 4 * t.count > 3 * |t.buckets| then Grow(t) else Ok(t);
    var i := Home(key, |t1.buckets|);
    var e := t1.buckets[i];
    if e.taken then
      if e.key == key then Ok((t1.(buckets := t1.buckets[i := e.(value := value)]), i))
      else Err(ProbeExhausted)
    else Ok((t1.(buckets := t1.buckets[i := Entry(true, key, value)], count := t1.count + 1), i))
  }

  /** Writing a bucket's value through the pointer `insert_hash_map`/`find_entry`
      returned (src/assembler.c:134). */
  function SetValue(t: Table, i: nat, v: U64): (r: Table)
    requires i < |t.buckets|
    ensures |r.buckets| == |t.buckets| && r.primeIndex == t.primeIndex && r.count == t.count
  {
    t.(buckets := t.buckets[i := t.buckets[i].(value := v)])
  }

  // ---- Properties ----

  /** What a prefix of an old bucket array maps `k` to. */
  function LookupUpTo(prev: seq<Entry>, i: nat, k: Key): Option<U64>
    requires |prev| > 0
  {
    var h := Home(k, |prev|);
    if h < i && prev[h].taken && prev[h].key == k then Some(prev[h].value) else None
  }

  /** Storing `key` in its home bucket keeps every bucket placed and changes the
      mapping of `key` alone. */
  lemma StoreLookup(t: Table, key: Key, value: U64, count: nat)
    requires Placed(t)
    requires var e := t.buckets[Home(key, |t.buckets|)]; !e.taken || e.key == key
    ensures var t' := t.(buckets := t.buckets[Home(key, |t.buckets|) := Entry(true, key, value)], count := count);
      && Placed(t')
      && forall k: Key :: Lookup(t', k) == if k == key then Some(value) else Lookup(t, k)
  {
  }

  /** Insertion makes `key` map to `value` and leaves every other key's mapping alone;
      the result is the key's home bucket in the final table; `count` grows by at least
      one when the key was new and never shrinks. */
  lemma {:induction false} InsertLookup(t: Table, key: Key, value: U64)
    requires WellSized(t) && Placed(t) && Insert(t, key, value).Ok?
    ensures var (t', i) := Insert(t, key, value).value;
      && Placed(t')
      && i == Home(key, |t'.buckets|) && t'.buckets[i] == Entry(true, key, value)
      && (forall k: Key :: Lookup(t', k) == if k == key then Some(value) else Lookup(t, k))
      && t'.count >= t.count
      && (Lookup(t, key) == None ==> t'.count >= t.count + 1)
    decreases MAX_CAPACITY - |t.buckets|, 2, 0
  {
    var t1 := t;
    if 4 * t.count > 3 * |t.buckets| {
      GrowLookup(t);
      t1 := Grow(t).value;
    }
    var h := Home(key, |t1.buckets|);
    var e := t1.buckets[h];
    var count := if e.taken then t1.count else t1.count + 1;
    StoreLookup(t1, key, value, count);
    assert e.taken && e.key == key ==> e.(value := value) == Entry(true, key, value);
  }

  /** Growing keeps every key's mapping, moves to a larger capacity, and adds every
      re-inserted bucket to `count` again instead of starting from zero. */
  lemma {:induction false} GrowLookup(t: Table)
    requires WellSized(t) && Placed(t) && Grow(t).Ok?
    ensures var t' := Grow(t).value;
      && Placed(t')
      && (forall k: Key :: Lookup(t', k) == Lookup(t, k))
      && |t'.buckets| >= NextCapacity(t).0
      && t'.count >= t.count + Occupied(t.buckets)
    decreases MAX_CAPACITY - |t.buckets|, 1, 0
  {
    var (capacity, index) := NextCapacity(t);
    PrimesAscending();
    var t0 := Table(seq(capacity, _ => EMPTY), index, t.count);
    forall k: Key ensures Lookup(t0, k) == LookupUpTo(t.buckets, 0, k) {
    }
    ReinsertLookup(t.buckets, 0, t0);
    assert t.buckets[0..] == t.buckets;
    forall k: Key ensures LookupUpTo(t.buckets, |t.buckets|, k) == Lookup(t, k) {
    }
  }

  /** Extending the reinserted prefix by old bucket `i`. */
  lemma LookupUpToNext(prev: seq<Entry>, i: nat, k: Key)
    requires i < |prev| && Placed(Table(prev, 0, 0))
    ensures LookupUpTo(prev, i + 1, k) ==
      if prev[i].taken && prev[i].key == k then Some(prev[i].value)
      else if Home(k, |prev|) == i then None
      else LookupUpTo(prev, i, k)
  {
  }

  lemma {:induction false} ReinsertLookup(prev: seq<Entry>, i: nat, t: Table)
    requires WellSized(t) && |prev| < |t.buckets| && i <= |prev|
    requires Placed(t) && Placed(Table(prev, 0, 0))
    requires forall k: Key :: Lookup(t, k) == LookupUpTo(prev, i, k)
    requires Reinsert(prev, i, t).Ok?
    ensures var t' := Reinsert(prev, i, t).value;
      && Placed(t')
      && (forall k: Key :: Lookup(t', k) == LookupUpTo(prev, |prev|, k))
      && t'.count >= t.count + Occupied(prev[i..])
    decreases MAX_CAPACITY - |prev|, 0, |prev| - i
  {
    if i == |prev| {
      assert prev[i..] == [];
    } else {
      assert prev[i..][1..] == prev[i + 1..];
      var e := prev[i];
      if e.taken {
        assert Lookup(t, e.key) == LookupUpTo(prev, i, e.key);
        InsertLookup(t, e.key, e.value);
        var (t', _) := Insert(t, e.key, e.value).value;
        assert Reinsert(prev, i, t) == Reinsert(prev, i + 1, t');
        forall k: Key ensures Lookup(t', k) == LookupUpTo(prev, i + 1, k) {
          LookupUpToNext(prev, i, k);
        }
        ReinsertLookup(prev, i + 1, t');
      } else {
        forall k: Key ensures Lookup(t, k) == LookupUpTo(prev, i + 1, k) {
          LookupUpToNext(prev, i, k);
        }
        ReinsertLookup(prev, i + 1, t);
      }
    }
  }

  /** Below the load threshold `insert_hash_map` keeps the capacity and works on the
      home bucket alone, with three outcomes: an empty home bucket takes the key and
      `count` goes up; a home bucket holding the key gets the new value; a home
      bucket holding another key is the fatal error. */
  lemma InsertWithoutGrowth(t: Table, key: Key, value: U64)
    requires WellSized(t) && Placed(t) && 4 * t.count <= 3 * |t.buckets|
    ensures var r := Insert(t, key, value);
      && (Find(t, key) == None ==>
            r.Ok? && r.value.0.count == t.count + 1 && |r.value.0.buckets| == |t.buckets|)
      && (Lookup(t, key).Some? ==>
            r.Ok? && r.value.0.count == t.count && |r.value.0.buckets| == |t.buckets|)
      && (Find(t, key).Some? && Lookup(t, key) == None ==> r == Err(ProbeExhausted))
      && (r.Ok? ==> r.value.1 == Home(key, |t.buckets|) && r.value.0.primeIndex == t.primeIndex)
  {
  }

  /** Above the load threshold the insertion happens in a strictly larger table. */
  lemma InsertGrowsWhenLoaded(t: Table, key: Key, value: U64)
    requires WellSized(t) && 4 * t.count > 3 * |t.buckets|
    ensures Grow(t).Err? ==> Insert(t, key, value) == Err(Grow(t).error)
    ensures Insert(t, key, value).Ok? ==>
      Grow(t).Ok? && |Insert(t, key, value).value.0.buckets| == |Grow(t).value.buckets| > |t.buckets|
  {
  }

  /** `find_entry` and the mapping: a key the table maps is found at its home bucket
      with its value there; a key that is not found is not mapped.  `find_entry` can
      still return a bucket holding a different key. */
  lemma FindAndLookup(t: Table, k: Key)
    requires Placed(t)
    ensures Lookup(t, k).Some? ==>
      Find(t, k) == Some(Home(k, |t.buckets|)) && t.buckets[Find(t, k).value].value == Lookup(t, k).value
    ensures Find(t, k) == None ==> Lookup(t, k) == None
    ensures Find(t, k).Some? ==> (Lookup(t, k).Some? <==> t.buckets[Find(t, k).value].key == k)
  {
  }
}
