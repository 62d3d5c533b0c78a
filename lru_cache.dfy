/**
 * The least-recently-used bookkeeping shared by the CPU and GPU halves of
 * both image caches: a map from file-path keys to cached values, a key
 * list whose front is the least recently used key and whose back is the
 * most recently used one, a count of the bytes in use and a capacity.
 * The caches' methods work on this state in place; the functions here
 * say what each method leaves behind.
 */
module LruCache {

  type Key = string

  datatype Lru<V> = Lru(keys: seq<Key>, entries: map<Key, V>, used: nat, capacity: nat)

  /** The bytes of the entries named by `keys`, each value measured by `bytes`. */
  function Total<V>(keys: seq<Key>, entries: map<Key, V>, bytes: V -> nat): nat
  {
    if |keys| == 0 then 0
    else (if keys[0] in entries then bytes(entries[keys[0]]) else 0) + Total(keys[1..], entries, bytes)
  }

  predicate NoDuplicates(keys: seq<Key>)
  {
    forall i, j :: 0 <= i < j < |keys| ==> keys[i] != keys[j]
  }

  /**
   * The cache invariant: the key list names each map entry exactly once,
   * and the bytes in use are those of the map's values.
   */
  predicate Valid<V>(l: Lru<V>, bytes: V -> nat)
  {
    && NoDuplicates(l.keys)
    && (forall k :: k in l.keys ==> k in l.entries)
    && (forall k :: k in l.entries ==> k in l.keys)
    && l.used == Total(l.keys, l.entries, bytes)
  }

  /** The key list with `k` taken out wherever it occurs (`std::list::remove`). */
  function Remove(keys: seq<Key>, k: Key): (r: seq<Key>)
    ensures k !in r
    ensures forall x :: x != k ==> (x in r <==> x in keys)
    ensures NoDuplicates(keys) ==> NoDuplicates(r)
    ensures k !in keys ==> r == keys
  {
    if |keys| == 0 then []
    else
      var rest := Remove(keys[1..], k);
      assert forall x :: x in keys <==> x == keys[0] || x in keys[1..];
      assert NoDuplicates(keys) ==> NoDuplicates(keys[1..]) && keys[0] !in keys[1..] by {
        if NoDuplicates(keys) {
          forall j | 0 <= j < |keys| - 1 ensures keys[1..][j] != keys[0] { assert keys[0] != keys[j + 1]; }
        }
      }
      if keys[0] == k then rest else [keys[0]] + rest
  }

  // Byte accounting.

  lemma {:induction false} TotalAppend<V>(keys: seq<Key>, k: Key, entries: map<Key, V>, bytes: V -> nat)
    requires k in entries
    ensures Total(keys + [k], entries, bytes) == Total(keys, entries, bytes) + bytes(entries[k])
  {
    if |keys| > 0 {
      assert (keys + [k])[1..] == keys[1..] + [k];
      TotalAppend(keys[1..], k, entries, bytes);
    } else {
      assert [k][1..] == [];
    }
  }

  /** Entries of keys outside the list do not count. */
  lemma {:induction false} TotalIgnores<V>(keys: seq<Key>, entries: map<Key, V>, other: map<Key, V>, bytes: V -> nat)
    requires forall x :: x in keys ==> (x in entries <==> x in other)
    requires forall x :: x in keys && x in entries ==> entries[x] == other[x]
    ensures Total(keys, entries, bytes) == Total(keys, other, bytes)
  {
    if |keys| > 0 {
      assert keys[0] in keys;
      assert forall x :: x in keys[1..] ==> x in keys;
      TotalIgnores(keys[1..], entries, other, bytes);
    }
  }

  /** Taking a listed key out of the list takes its bytes out of the total. */
  lemma {:induction false} TotalRemove<V>(keys: seq<Key>, k: Key, entries: map<Key, V>, bytes: V -> nat)
    requires k in keys && k in entries && NoDuplicates(keys)
    ensures Total(keys, entries, bytes) == Total(Remove(keys, k), entries, bytes) + bytes(entries[k])
  {
    if keys[0] == k {
      assert k !in keys[1..] by {
        forall j | 1 <= j < |keys| ensures keys[j] != k { assert keys[0] != keys[j]; }
      }
      assert Remove(keys[1..], k) == keys[1..];
    } else {
      assert k in keys[1..];
      TotalRemove(keys[1..], k, entries, bytes);
    }
  }

  lemma ValidEmptyUsesNothing<V>(l: Lru<V>, bytes: V -> nat)
    requires Valid(l, bytes) && |l.keys| == 0
    ensures l.used == 0 && l.entries == map[]
  {
  }

  // The operations.

  /** `move_iterator_to_back_of_key_list`: `k` becomes the most recently used key. */
  function Touch<V>(l: Lru<V>, k: Key): Lru<V>
  {
    l.(keys := Remove(l.keys, k) + [k])
  }

  /** `cpu_find` / `gpu_find`: on a hit the value, with the key moved to the back; on a miss the default value and no change. */
  function Find<V>(l: Lru<V>, k: Key, default: V): (V, Lru<V>)
  {
    if k in l.entries then (l.entries[k], Touch(l, k)) else (default, l)
  }

  /** `cpu_evict_one` / `gpu_evict_one`: false on an empty list, otherwise the front key leaves list and map with its bytes. */
  function EvictOne<V>(l: Lru<V>, bytes: V -> nat): (Lru<V>, bool)
    requires Valid(l, bytes)
  {
    if |l.keys| == 0 then (l, false)
    else
      assert l.keys[0] in l.keys;
      var k := l.keys[0];
      (Lru(l.keys[1..], l.entries - {k}, l.used - bytes(l.entries[k]), l.capacity), true)
  }

  /**
   * The eviction loop: evict from the front while the bytes in use plus
   * `n` exceed the capacity and something is left.
   */
  function EvictWhile<V>(l: Lru<V>, n: nat, bytes: V -> nat): Lru<V>
    requires Valid(l, bytes)
    decreases |l.keys|
  {
    if l.used + n > l.capacity && |l.keys| > 0 then
      EvictOneValid(l, bytes);
      EvictWhile(EvictOne(l, bytes).0, n, bytes)
    else l
  }

  /** `cpu_evict_enough_for_new_entry`: false on an empty list, otherwise the eviction loop and true. */
  function EvictEnough<V>(l: Lru<V>, n: nat, bytes: V -> nat): (Lru<V>, bool)
    requires Valid(l, bytes)
  {
    if |l.keys| == 0 then (l, false) else (EvictWhile(l, n, bytes), true)
  }

  /** `cpu_erase` / `gpu_erase`: whether the key was present; a present key leaves map and list with its bytes. */
  function Erase<V>(l: Lru<V>, k: Key, bytes: V -> nat): (Lru<V>, bool)
    requires Valid(l, bytes)
  {
    if k in l.entries then
      EraseAccounts(l, k, bytes);
      (Lru(Remove(l.keys, k), l.entries - {k}, l.used - bytes(l.entries[k]), l.capacity), true)
    else (l, false)
  }

  /**
   * `cpu_insert`: an existing entry for the key is erased, entries are
   * evicted to make room, then the key is appended at the back, the
   * value stored and the bytes in use grow by the value's size. The map
   * insertion always succeeds, so the result is true.
   */
  function Insert<V>(l: Lru<V>, k: Key, v: V, bytes: V -> nat): (Lru<V>, bool)
    requires Valid(l, bytes)
  {
    var erased := if k in l.entries then Erase(l, k, bytes).0 else l;
    EraseValid(l, k, bytes);
    (Append(EvictEnough(erased, bytes(v), bytes).0, k, v, bytes), true)
  }

  /**
   * `gpu_insert`: a cached key whose texture is valid becomes the most
   * recently used and its texture is returned; an invalid cached texture
   * gives the default value and no change. An absent key first makes room
   * for the pixel data's bytes; the texture allocated for it is then stored
   * at the back when valid, and otherwise the default value is returned.
   */
  function InsertTexture<V>(l: Lru<V>, k: Key, pixelBytes: nat, texture: V, valid: V -> bool, default: V, bytes: V -> nat): (V, Lru<V>)
    requires Valid(l, bytes)
  {
    if k in l.entries then
      if valid(l.entries[k]) then (l.entries[k], Touch(l, k)) else (default, l)
    else
      var evicted := EvictEnough(l, pixelBytes, bytes).0;
      if valid(texture) then (texture, Append(evicted, k, texture, bytes)) else (default, evicted)
  }

  /** The key at the back of the list, its value in the map, and its bytes in use. */
  function Append<V>(l: Lru<V>, k: Key, v: V, bytes: V -> nat): Lru<V>
  {
    Lru(l.keys + [k], l.entries[k := v], l.used + bytes(v), l.capacity)
  }

  /**
   * `set_cpu_capacity_bytes` / `set_gpu_capacity_bytes` as written: the
   * capacity is stored, and the eviction loop runs only when the bytes
   * in use exceed it AND the key list is empty, where it cannot evict.
   */
  function SetCapacityAsWritten<V>(l: Lru<V>, value: nat, bytes: V -> nat): Lru<V>
    requires Valid(l, bytes)
  {
    var stored := l.(capacity := value);
    if stored.used > value && |stored.keys| == 0 then EvictWhile(stored, 0, bytes) else stored
  }

  /** The capacity setter as its comment intends: evict the least recently used entries until the bytes in use fit. */
  function SetCapacity<V>(l: Lru<V>, value: nat, bytes: V -> nat): Lru<V>
    requires Valid(l, bytes)
  {
    var stored := l.(capacity := value);
    if stored.used > value && |stored.keys| > 0 then EvictWhile(stored, 0, bytes) else stored
  }

  // What the operations keep and promise.

  lemma TouchValid<V>(l: Lru<V>, k: Key, bytes: V -> nat)
    requires Valid(l, bytes) && k in l.entries
    ensures Valid(Touch(l, k), bytes)
    ensures |Touch(l, k).keys| == |l.keys| && Touch(l, k).keys[|l.keys| - 1] == k
    ensures Touch(l, k).entries == l.entries && Touch(l, k).used == l.used
  {
    EraseValid(l, k, bytes);
    var m := Erase(l, k, bytes).0;
    AppendValid(m, k, l.entries[k], bytes);
    assert m.entries[k := l.entries[k]] == l.entries;
    RemoveLength(l.keys, k);
  }

  /** Appending an absent key at the back with its value keeps the invariant and adds its bytes. */
  lemma AppendValid<V>(l: Lru<V>, k: Key, v: V, bytes: V -> nat)
    requires Valid(l, bytes) && k !in l.entries
    ensures Valid(Append(l, k, v, bytes), bytes)
  {
    assert k !in l.keys;
    TotalAppend(l.keys, k, l.entries[k := v], bytes);
    TotalIgnores(l.keys, l.entries, l.entries[k := v], bytes);
    assert forall x :: x in l.keys + [k] <==> x in l.keys || x == k;
    assert NoDuplicates(l.keys + [k]) by {
      forall i, j | 0 <= i < j < |l.keys| + 1 ensures (l.keys + [k])[i] != (l.keys + [k])[j] {
        if j < |l.keys| { assert (l.keys + [k])[i] == l.keys[i]; } else { assert l.keys[i] in l.keys; }
      }
    }
  }

  lemma {:induction false} RemoveLength(keys: seq<Key>, k: Key)
    requires NoDuplicates(keys) && k in keys
    ensures |Remove(keys, k)| == |keys| - 1
  {
    if keys[0] == k {
      assert k !in keys[1..] by {
        forall j | 1 <= j < |keys| ensures keys[j] != k { assert keys[0] != keys[j]; }
      }
    } else {
      assert k in keys[1..];
      RemoveLength(keys[1..], k);
    }
  }

  /** A hit returns the stored value and makes the key the most recently used; a miss changes nothing. */
  lemma FindHitOrMiss<V>(l: Lru<V>, k: Key, default: V, bytes: V -> nat)
    requires Valid(l, bytes)
    ensures k in l.entries ==> Find(l, k, default).0 == l.entries[k]
    ensures k in l.entries ==> Valid(Find(l, k, default).1, bytes)
    ensures k in l.entries ==> |Find(l, k, default).1.keys| == |l.keys| && Find(l, k, default).1.keys[|l.keys| - 1] == k
    ensures k !in l.entries ==> Find(l, k, default) == (default, l)
  {
    if k in l.entries { TouchValid(l, k, bytes); }
  }

  lemma EvictOneValid<V>(l: Lru<V>, bytes: V -> nat)
    requires Valid(l, bytes)
    ensures Valid(EvictOne(l, bytes).0, bytes)
    ensures EvictOne(l, bytes).1 <==> |l.keys| > 0
    ensures |l.keys| > 0 ==> EvictOne(l, bytes).0.keys == l.keys[1..]
    ensures |l.keys| > 0 ==> EvictOne(l, bytes).0.used == l.used - bytes(l.entries[l.keys[0]])
    ensures EvictOne(l, bytes).0.capacity == l.capacity
  {
    if |l.keys| > 0 {
      var k := l.keys[0];
      var rest := l.keys[1..];
      assert k !in rest by {
        forall j | 0 <= j < |rest| ensures rest[j] != k { assert l.keys[0] != l.keys[j + 1]; }
      }
      assert forall x :: x in l.keys <==> x == k || x in rest;
      TotalIgnores(rest, l.entries, l.entries - {k}, bytes);
    }
  }

  lemma EraseAccounts<V>(l: Lru<V>, k: Key, bytes: V -> nat)
    requires Valid(l, bytes) && k in l.entries
    ensures bytes(l.entries[k]) <= l.used
    ensures Total(Remove(l.keys, k), l.entries - {k}, bytes) == l.used - bytes(l.entries[k])
  {
    assert k in l.keys;
    TotalRemove(l.keys, k, l.entries, bytes);
    TotalIgnores(Remove(l.keys, k), l.entries, l.entries - {k}, bytes);
  }

  /** Erase reports presence, keeps the invariant, and afterwards the key is nowhere. */
  lemma EraseValid<V>(l: Lru<V>, k: Key, bytes: V -> nat)
    requires Valid(l, bytes)
    ensures Valid(Erase(l, k, bytes).0, bytes)
    ensures Erase(l, k, bytes).1 <==> k in l.entries
    ensures k !in Erase(l, k, bytes).0.entries && k !in Erase(l, k, bytes).0.keys
    ensures k in l.entries ==> Erase(l, k, bytes).0.used == l.used - bytes(l.entries[k])
    ensures Erase(l, k, bytes).0.entries == l.entries - {k}
    ensures Erase(l, k, bytes).0.capacity == l.capacity
  {
    if k in l.entries {
      EraseAccounts(l, k, bytes);
    } else {
      assert k !in l.keys;
    }
  }

  predicate IsSuffix(a: seq<Key>, b: seq<Key>)
  {
    |a| <= |b| && a == b[|b| - |a|..]
  }

  /**
   * The eviction loop keeps the invariant; it stops once the new chunk
   * fits or nothing is left, and evicts nothing when it already fits.
   */
  lemma {:induction false} EvictWhileValid<V>(l: Lru<V>, n: nat, bytes: V -> nat)
    requires Valid(l, bytes)
    ensures Valid(EvictWhile(l, n, bytes), bytes)
    ensures EvictWhile(l, n, bytes).capacity == l.capacity
    ensures EvictWhile(l, n, bytes).used <= l.used
    ensures EvictWhile(l, n, bytes).used + n <= l.capacity || EvictWhile(l, n, bytes).keys == []
    ensures l.used + n <= l.capacity ==> EvictWhile(l, n, bytes) == l
    decreases |l.keys|
  {
    if l.used + n > l.capacity && |l.keys| > 0 {
      EvictOneValid(l, bytes);
      EvictWhileValid(EvictOne(l, bytes).0, n, bytes);
    }
  }

  /** The eviction loop drops keys from the front only: least recently used first. */
  lemma {:induction false} EvictWhileFromFront<V>(l: Lru<V>, n: nat, bytes: V -> nat)
    requires Valid(l, bytes)
    ensures IsSuffix(EvictWhile(l, n, bytes).keys, l.keys)
    decreases |l.keys|
  {
    if l.used + n > l.capacity && |l.keys| > 0 {
      EvictOneValid(l, bytes);
      var next := EvictOne(l, bytes).0;
      EvictWhileFromFront(next, n, bytes);
      var r := EvictWhile(next, n, bytes).keys;
      assert r == l.keys[1..][|next.keys| - |r|..];
      assert l.keys[1..][|next.keys| - |r|..] == l.keys[|l.keys| - |r|..];
    }
  }

  lemma EvictEnoughValid<V>(l: Lru<V>, n: nat, bytes: V -> nat)
    requires Valid(l, bytes)
    ensures Valid(EvictEnough(l, n, bytes).0, bytes)
    ensures EvictEnough(l, n, bytes).1 <==> |l.keys| > 0
    ensures EvictEnough(l, n, bytes).0.capacity == l.capacity
    ensures EvictEnough(l, n, bytes).0.used + n <= l.capacity || EvictEnough(l, n, bytes).0.keys == []
    ensures IsSuffix(EvictEnough(l, n, bytes).0.keys, l.keys)
  {
    EvictWhileValid(l, n, bytes);
    EvictWhileFromFront(l, n, bytes);
    assert l.keys[|l.keys| - |l.keys|..] == l.keys;
  }

  /**
   * After an insert the key is the most recently used one, it maps to the
   * new value and the invariant still holds.
   */
  lemma InsertValid<V>(l: Lru<V>, k: Key, v: V, bytes: V -> nat)
    requires Valid(l, bytes)
    ensures Insert(l, k, v, bytes).1 && Valid(Insert(l, k, v, bytes).0, bytes)
    ensures var r := Insert(l, k, v, bytes).0;
      |r.keys| > 0 && r.keys[|r.keys| - 1] == k && k in r.entries && r.entries[k] == v && r.capacity == l.capacity
  {
    EraseValid(l, k, bytes);
    var erased := if k in l.entries then Erase(l, k, bytes).0 else l;
    EvictThenAppendValid(erased, k, v, bytes(v), bytes);
  }

  /** Making room for `n` bytes in a cache without the key and then appending the key keeps the invariant. */
  lemma EvictThenAppendValid<V>(l: Lru<V>, k: Key, v: V, n: nat, bytes: V -> nat)
    requires Valid(l, bytes) && k !in l.entries
    ensures var r := Append(EvictEnough(l, n, bytes).0, k, v, bytes);
      && Valid(r, bytes) && |r.keys| > 0 && r.keys[|r.keys| - 1] == k && k in r.entries && r.entries[k] == v
      && r.capacity == l.capacity
  {
    EvictEnoughValid(l, n, bytes);
    var e := EvictEnough(l, n, bytes).0;
    assert k !in e.entries by { EvictWhileValid(l, n, bytes); }
    AppendValid(e, k, v, bytes);
  }

  /**
   * The assertion after the insert, bytes in use within capacity, holds
   * exactly when the new value alone fits in the capacity.
   */
  lemma InsertWithinCapacity<V>(l: Lru<V>, k: Key, v: V, bytes: V -> nat)
    requires Valid(l, bytes)
    ensures Insert(l, k, v, bytes).0.used <= l.capacity <==> bytes(v) <= l.capacity
  {
    EraseValid(l, k, bytes);
    var erased := if k in l.entries then Erase(l, k, bytes).0 else l;
    EvictEnoughValid(erased, bytes(v), bytes);
    var e := EvictEnough(erased, bytes(v), bytes).0;
    if e.keys == [] { ValidEmptyUsesNothing(e, bytes); }
  }

  /** The capacity setter as written never evicts: only the capacity changes. */
  lemma SetCapacityAsWrittenOnlyStores<V>(l: Lru<V>, value: nat, bytes: V -> nat)
    requires Valid(l, bytes)
    ensures SetCapacityAsWritten(l, value, bytes) == l.(capacity := value)
  {
  }

  /** A cache holding ten bytes under "a" stays over a five-byte capacity set by the setter as written. */
  lemma SetCapacityAsWrittenOverflows()
    ensures var l: Lru<nat> := Lru(["a"], map["a" := 10], 10, 20);
      && Valid(l, (x: nat) => x)
      && SetCapacityAsWritten(l, 5, (x: nat) => x).used > SetCapacityAsWritten(l, 5, (x: nat) => x).capacity
  {
    var l: Lru<nat> := Lru(["a"], map["a" := 10], 10, 20);
    assert Total(l.keys, l.entries, (x: nat) => x) == 10 by {
      assert l.keys[1..] == [];
    }
  }

  /** The setter as intended leaves the bytes in use within the new capacity, evicting from the front only. */
  lemma SetCapacityFits<V>(l: Lru<V>, value: nat, bytes: V -> nat)
    requires Valid(l, bytes)
    ensures Valid(SetCapacity(l, value, bytes), bytes)
    ensures SetCapacity(l, value, bytes).capacity == value && SetCapacity(l, value, bytes).used <= value
    ensures IsSuffix(SetCapacity(l, value, bytes).keys, l.keys)
    ensures l.used <= value ==> SetCapacity(l, value, bytes) == l.(capacity := value)
  {
    var stored := l.(capacity := value);
    assert Valid(stored, bytes) by {
      assert stored.keys == l.keys && stored.entries == l.entries && stored.used == l.used;
    }
    if stored.used > value && |stored.keys| > 0 {
      var r := EvictWhile(stored, 0, bytes);
      assert SetCapacity(l, value, bytes) == r;
      EvictWhileValid(stored, 0, bytes);
      EvictWhileFromFront(stored, 0, bytes);
      if r.keys == [] {
        ValidEmptyUsesNothing(r, bytes);
      }
    } else {
      assert SetCapacity(l, value, bytes) == stored;
      assert l.keys[|l.keys| - |l.keys|..] == l.keys;
      if |l.keys| == 0 {
        ValidEmptyUsesNothing(l, bytes);
      }
    }
  }

  // `generate_cache_brief`.

  /** The numbers a cache brief reports. */
  datatype Brief = Brief(count: nat, usedMegabytes: nat, capacityMegabytes: nat, usedPercent: real)

  /** The used percentage: zero for a zero capacity, otherwise used over capacity times 100. */
  function UsedPercent(capacity: nat, used: nat): (p: real)
    ensures capacity == 0 ==> p == 0.0
    ensures capacity > 0 && used <= capacity ==> 0.0 <= p <= 100.0
    ensures capacity > 0 && used == capacity ==> p == 100.0
  {
    if capacity > 0 then (used as real / capacity as real) * 100.0 else 0.0
  }

  /** The brief as written: the "capacity" field shows the used megabytes. */
  function BriefAsWritten(count: nat, capacity: nat, used: nat, bytesPerMegabyte: nat): Brief
    requires bytesPerMegabyte > 0
  {
    Brief(count, used / bytesPerMegabyte, used / bytesPerMegabyte, UsedPercent(capacity, used))
  }

  /** The brief as intended: the capacity field shows the capacity in megabytes. */
  function CacheBrief(count: nat, capacity: nat, used: nat, bytesPerMegabyte: nat): (b: Brief)
    requires bytesPerMegabyte > 0
    ensures b.capacityMegabytes * bytesPerMegabyte <= capacity < (b.capacityMegabytes + 1) * bytesPerMegabyte
    ensures b.usedMegabytes * bytesPerMegabyte <= used < (b.usedMegabytes + 1) * bytesPerMegabyte
    ensures used <= capacity ==> b.usedMegabytes <= b.capacityMegabytes
    ensures b.count == count && b.usedPercent == UsedPercent(capacity, used)
  {
    Brief(count, used / bytesPerMegabyte, capacity / bytesPerMegabyte, UsedPercent(capacity, used))
  }

  /** An empty cache of 1000 MB is reported by the brief as written with a capacity of 0 MB. */
  lemma BriefAsWrittenMisreports()
    ensures BriefAsWritten(0, 1000 * 1000000, 0, 1000000).capacityMegabytes == 0
    ensures CacheBrief(0, 1000 * 1000000, 0, 1000000).capacityMegabytes == 1000
  {
  }

  /**
   * The texture insert keeps the invariant and the capacity. A valid texture
   * that comes back is the key's entry and the key is the most recently used;
   * an absent key whose texture is invalid stays absent.
   */
  lemma InsertTextureValid<V>(l: Lru<V>, k: Key, pixelBytes: nat, texture: V, valid: V -> bool, default: V, bytes: V -> nat)
    requires Valid(l, bytes)
    ensures var (t, r) := InsertTexture(l, k, pixelBytes, texture, valid, default, bytes);
      && Valid(r, bytes) && r.capacity == l.capacity
      && (k in l.entries && !valid(l.entries[k]) ==> t == default && r == l)
      && (k in l.entries && valid(l.entries[k]) ==>
            t == l.entries[k] && r.entries == l.entries && r.used == l.used && r.keys[|r.keys| - 1] == k)
      && (k !in l.entries && valid(texture) ==>
            t == texture && r.entries[k] == texture && r.keys[|r.keys| - 1] == k)
      && (k !in l.entries && !valid(texture) ==> t == default && k !in r.entries && IsSuffix(r.keys, l.keys))
  {
    if k in l.entries {
      if valid(l.entries[k]) {
        TouchValid(l, k, bytes);
      }
    } else {
      InsertTextureAbsent(l, k, pixelBytes, texture, valid, default, bytes);
    }
  }

  /** An absent key: the texture is added after eviction when valid, and left out otherwise. */
  lemma InsertTextureAbsent<V>(l: Lru<V>, k: Key, pixelBytes: nat, texture: V, valid: V -> bool, default: V, bytes: V -> nat)
    requires Valid(l, bytes) && k !in l.entries
    ensures var (t, r) := InsertTexture(l, k, pixelBytes, texture, valid, default, bytes);
      && Valid(r, bytes) && r.capacity == l.capacity
      && (valid(texture) ==> t == texture && r.entries[k] == texture && r.keys[|r.keys| - 1] == k)
      && (!valid(texture) ==> t == default && k !in r.entries && IsSuffix(r.keys, l.keys))
  {
    var e := EvictEnough(l, pixelBytes, bytes).0;
    if valid(texture) {
      EvictThenAppendValid(l, k, texture, pixelBytes, bytes);
      assert InsertTexture(l, k, pixelBytes, texture, valid, default, bytes) == (texture, Append(e, k, texture, bytes));
    } else {
      EvictEnoughValid(l, pixelBytes, bytes);
      assert k !in e.entries by { EvictWhileValid(l, pixelBytes, bytes); }
      assert InsertTexture(l, k, pixelBytes, texture, valid, default, bytes) == (default, e);
    }
  }
}
