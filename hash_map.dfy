/** The symbol table of src/core.c as the source keeps it: a heap array of buckets that
    `insert_hash_map` writes in place and `grow_hash_map` replaces.  Every method is
    proved to do what the functions of module HashTables say. */
module HashMaps {
  import opened Words
  import opened CStrings
  import opened Results
  import opened HashTables
  import opened Fnv

  /** The probe step `(index + 1) % capacity` from a valid index. */
  lemma NextIndex(i: nat, n: nat)
    requires i < n
    ensures (i + 1) % n == if i + 1 < n then i + 1 else 0
  {
    if i + 1 == n {
      assert (i + 1) % n == n % n == 0;
    }
  }

  class HashMap {
    /** `data`, with `capacity` = `data.Length`. */
    var data: array<Entry>
    var primeIndex: nat
    var count: nat

    ghost function Model(): Table
      reads this, data
    {
      Table(data[..], primeIndex, count)
    }

    ghost predicate Valid()
      reads this, data
    {
      WellSized(Model())
    }

    /** `init_hash_map` (src/core.c:102-113) on a zero-initialised map (what
        `create_hash_map` hands it). */
    constructor ()
      ensures Valid() && fresh(data)
      ensures Model() == InitialTable()
    {
      var initialCapacity := CAPACITY_PRIMES[0];
      data := new Entry[initialCapacity](_ => EMPTY);
      count := 0;
      primeIndex := 1;  // prime 0 is in use
      new;
      assert data[..] == seq(initialCapacity, _ => EMPTY);
    }

    /** `find_entry` (src/core.c:177-192): the index of the home bucket when it is
        taken. */
    method Find(key: Key) returns (r: Option<nat>)
      requires Valid()
      ensures r == HashTables.Find(Model(), key)
    {
      var hash := HashString(key);
      var index := Bucket(hash, data.Length);
      if data[index].taken {
        return Some(index);
      }
      return None;
    }

    /** `grow_hash_map` (src/core.c:126-154). */
    method Grow() returns (r: Result<(), MapError>)
      requires Valid()
      modifies this
      ensures data == old(data) || fresh(data)
      ensures var spec := HashTables.Grow(old(Model()));
        && (spec.Ok? ==> r.Ok? && Valid() && Model() == spec.value && fresh(data))
        && (spec.Err? ==> r == Err(spec.error))
      decreases MAX_CAPACITY - data.Length, 1
    {
      ghost var t := Model();
      var oldEntries := data;
      var oldCapacity := data.Length;
      var newCapacity;
      if primeIndex >= PRIMES_COUNT {
        newCapacity := oldCapacity * 2 + 1;
      } else {
        newCapacity := CAPACITY_PRIMES[primeIndex];
        primeIndex := primeIndex + 1;
      }
      if newCapacity > MAX_CAPACITY {
        return Err(AllocationFailure);
      }
      data := new Entry[newCapacity](_ => EMPTY);
      PrimesAscending();
      assert data[..] == seq(newCapacity, _ => EMPTY);
      ghost var prev := oldEntries[..];
      ghost var start := Model();
      assert HashTables.Grow(t) == Reinsert(prev, 0, start);
      var i := 0;
      while i < oldCapacity
        invariant 0 <= i <= oldCapacity == |prev|
        invariant Valid() && oldCapacity < data.Length && fresh(data)
        invariant oldEntries[..] == prev
        invariant Reinsert(prev, 0, start) == Reinsert(prev, i, Model())
      {
        var bucket := oldEntries[i];
        if bucket.taken {
          var inserted := Insert(bucket.key, bucket.value);
          if inserted.Err? {
            return Err(inserted.error);
          }
        }
        i := i + 1;
      }
      return Ok(());
    }

    /** `insert_hash_map` (src/core.c:194-239); yields the index of the bucket it
        returns a pointer to.  The probe loop advances `index` but keeps testing the
        home bucket, so it either finds the key there or exhausts the table. */
    method Insert(key: Key, value: U64) returns (r: Result<nat, MapError>)
      requires Valid()
      modifies this, data
      ensures data == old(data) || fresh(data)
      ensures var spec := HashTables.Insert(old(Model()), key, value);
        && (spec.Ok? ==> r == Ok(spec.value.1) && Valid() && Model() == spec.value.0)
        && (spec.Err? ==> r == Err(spec.error))
      decreases MAX_CAPACITY - data.Length, 2
    {
      if 4 * count > 3 * data.Length {
        var grown := Grow();
        if grown.Err? {
          return Err(grown.error);
        }
      }
      ghost var t1 := Model();
      ghost var buckets := data;
      var hash := HashString(key);
      var index := Bucket(hash, data.Length);
      var originalIndex := index;
      var bucket := index;
      ghost var steps := 0;
      while data[bucket].taken
        invariant 0 <= steps < data.Length
        invariant index == if originalIndex + steps < data.Length then originalIndex + steps
                           else originalIndex + steps - data.Length
        invariant data == buckets && Model() == t1
        decreases data.Length - steps
      {
        if data[bucket].key == key {
          data[bucket] := data[bucket].(value := value);
          assert data[..] == t1.buckets[bucket := t1.buckets[bucket].(value := value)];
          return Ok(bucket);
        }
        NextIndex(index, data.Length);
        index := (index + 1) % data.Length;
        steps := steps + 1;
        if index == originalIndex {
          return Err(ProbeExhausted);
        }
      }
      data[bucket] := Entry(true, key, value);
      count := count + 1;
      assert data[..] == t1.buckets[bucket := Entry(true, key, value)];
      return Ok(bucket);
    }

    /** Writing a value through the bucket pointer `insert_hash_map` returned. */
    method SetValue(i: nat, v: U64)
      requires Valid() && i < data.Length
      modifies data
      ensures Valid() && Model() == HashTables.SetValue(old(Model()), i, v)
    {
      data[i] := data[i].(value := v);
    }
  }
}
