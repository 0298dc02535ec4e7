/**
 * The TinkerGraph property index: property key -> property value -> the set
 * of elements carrying that value, with the keys listed in `indexedKeys`
 * maintained automatically when element properties change.
 */
module TinkerIndexes {
  import opened Wrappers

  /** The nested index: property key -> property value -> bucket of elements. */
  type IndexMap<V, T> = map<string, map<V, set<T>>>

  /** `dropKeyIndex` dereferences the removed key map, which is null for an unknown key. */
  datatype IndexError = NullPointer

  /** The elements indexed under `(key, value)`; empty when the key or the value is unknown. */
  function Bucket<V(!new), T>(ix: IndexMap<V, T>, key: string, value: V): set<T>
  {
    if key in ix && value in ix[key] then ix[key][value] else {}
  }

  /**
   * `put`: the index after adding `element` under `(key, value)`; the key map
   * and the bucket are created when missing, and nothing else changes.
   */
  function Inserted<V(!new), T>(ix: IndexMap<V, T>, key: string, value: V, element: T): (r: IndexMap<V, T>)
    ensures r.Keys == ix.Keys + {key}
    ensures r[key].Keys == (if key in ix then ix[key].Keys else {}) + {value}
    ensures Bucket(r, key, value) == Bucket(ix, key, value) + {element}
    ensures forall v :: v != value ==> Bucket(r, key, v) == Bucket(ix, key, v)
    ensures forall k :: k in ix && k != key ==> r[k] == ix[k]
  {
    var keyMap := if key in ix then ix[key] else map[];
    ix[key := keyMap[value := Bucket(ix, key, value) + {element}]]
  }

  /**
   * `remove`: the index after evicting `element` from bucket `(key, value)`.
   * An unknown key or value leaves the index as it is; a bucket left empty is
   * deleted from its key map, and every other entry is kept.
   */
  function Removed<V(!new), T>(ix: IndexMap<V, T>, key: string, value: V, element: T): (r: IndexMap<V, T>)
    ensures key !in ix || value !in ix[key] ==> r == ix
    ensures r.Keys == ix.Keys
    ensures Bucket(r, key, value) == Bucket(ix, key, value) - {element}
    ensures key in ix ==> (value in r[key] <==> Bucket(r, key, value) != {})
    ensures key in ix ==> r[key].Keys == ix[key].Keys - (if Bucket(r, key, value) == {} then {value} else {})
    ensures forall v :: v != value ==> Bucket(r, key, v) == Bucket(ix, key, v)
    ensures forall k :: k in ix && k != key ==> r[k] == ix[k]
  {
    if key in ix && value in ix[key] then ix[key := RemovedFrom(ix[key], value, element)] else ix
  }

  /** `remove` within the key map of a known value: the bucket loses `element` and is deleted once empty. */
  function RemovedFrom<V(!new), T>(keyMap: map<V, set<T>>, value: V, element: T): (m: map<V, set<T>>)
    requires value in keyMap
    ensures m.Keys == keyMap.Keys - (if keyMap[value] - {element} == {} then {value} else {})
    ensures value in m ==> m[value] == keyMap[value] - {element}
    ensures forall v :: v in keyMap && v != value ==> m[v] == keyMap[v]
  {
    var objects := keyMap[value] - {element};
    if |objects| == 0 then keyMap - {value} else keyMap[value := objects]
  }

  /**
   * `removeElement` for an element of the index's class: `element` leaves
   * every bucket, every other element stays, and no key map or bucket is
   * deleted, even when it becomes empty.
   */
  function Evicted<V(!new), T>(ix: IndexMap<V, T>, element: T): (r: IndexMap<V, T>)
    ensures r.Keys == ix.Keys
    ensures forall k :: k in ix ==> r[k].Keys == ix[k].Keys
    ensures forall k, v :: Bucket(r, k, v) == Bucket(ix, k, v) - {element}
  {
    map k | k in ix :: EvictedFrom(ix[k], element)
  }

  /** One key map of `removeElement`: `element` leaves each of its buckets. */
  function EvictedFrom<V(!new), T>(keyMap: map<V, set<T>>, element: T): map<V, set<T>>
  {
    map v | v in keyMap :: keyMap[v] - {element}
  }

  /**
   * `autoUpdate`: when `key` is automatically indexed, `element` moves from
   * its old bucket (if it had an old value) to the bucket of `newValue`;
   * otherwise the index is unchanged.
   */
  function AutoUpdated<V(!new), T>(ix: IndexMap<V, T>, indexedKeys: set<string>, key: string,
                             newValue: V, oldValue: Option<V>, element: T): (r: IndexMap<V, T>)
    ensures key !in indexedKeys ==> r == ix
    ensures key in indexedKeys ==> r.Keys == ix.Keys + {key}
    ensures key in indexedKeys ==> Bucket(r, key, newValue) == Bucket(ix, key, newValue) + {element}
    ensures key in indexedKeys && oldValue.Some? && oldValue.value != newValue ==>
              Bucket(r, key, oldValue.value) == Bucket(ix, key, oldValue.value) - {element}
    ensures forall v :: v != newValue && oldValue != Some(v) ==> Bucket(r, key, v) == Bucket(ix, key, v)
    ensures forall k :: k in ix && k != key ==> r[k] == ix[k]
  {
    if key in indexedKeys then
      var cleared := if oldValue.Some? then Removed(ix, key, oldValue.value, element) else ix;
      Inserted(cleared, key, newValue, element)
    else
      ix
  }

  /** `autoRemove`: evicts `element` from `(key, oldValue)` only when `key` is automatically indexed. */
  function AutoRemoved<V(!new), T>(ix: IndexMap<V, T>, indexedKeys: set<string>, key: string,
                             oldValue: V, element: T): (r: IndexMap<V, T>)
    ensures key !in indexedKeys ==> r == ix
    ensures key in indexedKeys ==> r == Removed(ix, key, oldValue, element)
    ensures key in indexedKeys ==> element !in Bucket(r, key, oldValue)
  {
    if key in indexedKeys then Removed(ix, key, oldValue, element) else ix
  }

  /**
   * The backfill of `createKeyIndex`: every `(element, value)` pair of
   * `existing` put under `key`, in order.
   */
  function Backfilled<V(!new), T>(ix: IndexMap<V, T>, key: string, existing: seq<(T, V)>): IndexMap<V, T>
    decreases |existing|
  {
    if existing == [] then ix
    else
      var last := existing[|existing| - 1];
      Inserted(Backfilled(ix, key, existing[..|existing| - 1]), key, last.1, last.0)
  }

  /** The elements that `existing` puts under `(key, value)` in the backfill. */
  function BackfilledUnder<V(==,!new), T>(existing: seq<(T, V)>, value: V): set<T>
  {
    set i | 0 <= i < |existing| && existing[i].1 == value :: existing[i].0
  }

  /** After the backfill, bucket `(key, v)` holds its old elements plus exactly those given with value `v`. */
  lemma {:induction false} BackfillIndexesExisting<V(!new), T>(ix: IndexMap<V, T>, key: string, existing: seq<(T, V)>, v: V)
    ensures Bucket(Backfilled(ix, key, existing), key, v) == Bucket(ix, key, v) + BackfilledUnder(existing, v)
    decreases |existing|
  {
    if existing != [] {
      var n := |existing| - 1;
      BackfillIndexesExisting(ix, key, existing[..n], v);
      BackfilledUnderLast(existing, v);
    }
  }

  /** The elements given with value `v` are those of all but the last pair, plus the last one if its value is `v`. */
  lemma BackfilledUnderLast<V(!new), T>(existing: seq<(T, V)>, v: V)
    requires existing != []
    ensures var n := |existing| - 1;
            BackfilledUnder(existing, v)
            == BackfilledUnder(existing[..n], v) + (if existing[n].1 == v then {existing[n].0} else {})
  {
    var n := |existing| - 1;
    var prefix := existing[..n];
    forall x | x in BackfilledUnder(existing, v)
      ensures x in BackfilledUnder(prefix, v) + (if existing[n].1 == v then {existing[n].0} else {})
    {
      var i :| 0 <= i < |existing| && existing[i].1 == v && existing[i].0 == x;
      if i < n { assert prefix[i] == existing[i]; }
    }
    forall x | x in BackfilledUnder(prefix, v)
      ensures x in BackfilledUnder(existing, v)
    {
      var i :| 0 <= i < |prefix| && prefix[i].1 == v && prefix[i].0 == x;
      assert existing[i] == prefix[i];
    }
  }

  /** The backfill touches no key but `key`. */
  lemma {:induction false} BackfillKeepsOtherKeys<V(!new), T>(ix: IndexMap<V, T>, key: string, existing: seq<(T, V)>, k: string)
    requires k in ix && k != key
    ensures k in Backfilled(ix, key, existing) && Backfilled(ix, key, existing)[k] == ix[k]
    decreases |existing|
  {
    if existing != [] {
      BackfillKeepsOtherKeys(ix, key, existing[..|existing| - 1], k);
    }
  }

  /**
   * `createKeyIndex` on the index and the set of indexed keys: nothing when
   * `key` is already indexed, otherwise mark it and backfill `existing`.
   */
  function KeyIndexCreated<V(!new), T>(ix: IndexMap<V, T>, indexedKeys: set<string>, key: string,
                                 existing: seq<(T, V)>): (r: (IndexMap<V, T>, set<string>))
    ensures r.1 == indexedKeys + {key}
    ensures key in indexedKeys ==> r.0 == ix
  {
    if key in indexedKeys then (ix, indexedKeys)
    else (Backfilled(ix, key, existing), indexedKeys + {key})
  }

  /** Creating a key index twice is creating it once, whatever the second backfill would have been. */
  lemma CreateKeyIndexIdempotent<V(!new), T>(ix: IndexMap<V, T>, indexedKeys: set<string>, key: string,
                                       first: seq<(T, V)>, second: seq<(T, V)>)
    ensures var once := KeyIndexCreated(ix, indexedKeys, key, first);
            KeyIndexCreated(once.0, once.1, key, second) == once
  {
  }

  /** `dropKeyIndex` of a known key: the key and all its buckets are gone, nothing else changes. */
  function Dropped<V(!new), T>(ix: IndexMap<V, T>, key: string): (r: IndexMap<V, T>)
    requires key in ix
    ensures r.Keys == ix.Keys - {key}
    ensures forall v :: Bucket(r, key, v) == {}
    ensures forall k :: k in r ==> r[k] == ix[k]
  {
    ix - {key}
  }

  /** Re-putting an element already in its bucket leaves the bucket, and so its count, as it is. */
  lemma PutPresentKeepsBucket<V(!new), T>(ix: IndexMap<V, T>, key: string, value: V, element: T)
    requires element in Bucket(ix, key, value)
    ensures Bucket(Inserted(ix, key, value, element), key, value) == Bucket(ix, key, value)
  {
  }

  /** Putting then removing the same element restores every bucket it was not already in. */
  lemma {:induction false} PutThenRemove<V(!new), T>(ix: IndexMap<V, T>, key: string, value: V, element: T, k: string, v: V)
    requires element !in Bucket(ix, key, value)
    ensures Bucket(Removed(Inserted(ix, key, value, element), key, value, element), k, v) == Bucket(ix, k, v)
  {
    var ins := Inserted(ix, key, value, element);
    var out := Removed(ins, key, value, element);
    if k != key {
      if k in ix {
        assert out[k] == ins[k] == ix[k];
      } else {
        assert k !in out;
      }
    } else if v == value {
      assert Bucket(out, k, v) == (Bucket(ix, key, value) + {element}) - {element};
    } else {
      assert Bucket(out, k, v) == Bucket(ins, k, v);
    }
  }

  /**
   * The worked example of the index: elements 1, 2, 3 indexed under "name"
   * with values "a", "b", "a"; two removals empty bucket ("name", "a"), and
   * the emptied bucket is deleted from the key map.
   */
  lemma NameScenario()
    ensures var ix := Inserted(Inserted(Inserted(map[], "name", "a", 1), "name", "b", 2), "name", "a", 3);
            && Bucket(ix, "name", "a") == {1, 3} && |Bucket(ix, "name", "a")| == 2
            && |Bucket(Removed(ix, "name", "a", 1), "name", "a")| == 1
            && var emptied := Removed(Removed(ix, "name", "a", 1), "name", "a", 3);
               Bucket(emptied, "name", "a") == {} && "a" !in emptied["name"] && "b" in emptied["name"]
  {
    var ix1: IndexMap<string, int> := Inserted(map[], "name", "a", 1);
    var ix2 := Inserted(ix1, "name", "b", 2);
    var ix := Inserted(ix2, "name", "a", 3);
    assert Bucket(ix2, "name", "a") == {1} && Bucket(ix2, "name", "b") == {2};
    assert Bucket(ix, "name", "a") == {1, 3} && Bucket(ix, "name", "b") == {2};
    var removed := Removed(ix, "name", "a", 1);
    assert Bucket(removed, "name", "a") == {3} && Bucket(removed, "name", "b") == {2};
    var emptied := Removed(removed, "name", "a", 3);
    assert Bucket(emptied, "name", "a") == {} && Bucket(emptied, "name", "b") == {2};
  }

  /** The inner loop of `removeElement`: evicts `element` from every bucket of one key map. */
  method EvictFrom<V(!new), T>(keyMap: map<V, set<T>>, element: T) returns (m: map<V, set<T>>)
    ensures m == EvictedFrom(keyMap, element)
  {
    m := keyMap;
    var values := keyMap.Keys;
    while values != {}
      invariant values <= keyMap.Keys && m.Keys == keyMap.Keys
      invariant forall v :: v in values ==> m[v] == keyMap[v]
      invariant forall v :: v in keyMap && v !in values ==> m[v] == keyMap[v] - {element}
      decreases |values|
    {
      var v :| v in values;
      m := m[v := m[v] - {element}];
      values := values - {v};
    }
  }

  /** `s` lists each element of `bucket` exactly once and nothing else. */
  ghost predicate ListsExactly<T(!new)>(s: seq<T>, bucket: set<T>)
  {
    && (forall i, j :: 0 <= i < j < |s| ==> s[i] != s[j])
    && (forall x :: x in s <==> x in bucket)
  }

  class TinkerIndex<V(==,!new), T(==,!new)> {
    var index: IndexMap<V, T>
    var indexedKeys: set<string>
    /** Whether an element's run-time class is assignable to the index's element class. */
    const accepts: T -> bool

    constructor (accepts: T -> bool)
      ensures index == map[] && indexedKeys == {} && this.accepts == accepts
    {
      index := map[];
      indexedKeys := {};
      this.accepts := accepts;
    }

    method Put(key: string, value: V, element: T)
      modifies this`index
      ensures index == Inserted(old(index), key, value, element)
    {
      var keyMap := if key in index then index[key] else map[];
      var objects := if value in keyMap then keyMap[value] else {};
      objects := objects + {element};
      index := index[key := keyMap[value := objects]];
    }

    /** `get`: a list of the elements of bucket `(key, value)`, each once; empty for an unknown key or value. */
    method Get(key: string, value: V) returns (r: seq<T>)
      ensures ListsExactly(r, Bucket(index, key, value))
      ensures |r| == Count(key, value)
    {
      if key !in index {
        return [];
      }
      if value !in index[key] {
        return [];
      }
      var bucket := index[key][value];
      var rest := bucket;
      r := [];
      while rest != {}
        invariant rest <= bucket
        invariant forall x :: x in r <==> x in bucket && x !in rest
        invariant forall i, j :: 0 <= i < j < |r| ==> r[i] != r[j]
        invariant |r| + |rest| == |bucket|
        decreases |rest|
      {
        var x :| x in rest;
        r := r + [x];
        rest := rest - {x};
      }
    }

    /** `count`: the size of bucket `(key, value)`, 0 for an unknown key or value. */
    function Count(key: string, value: V): (n: nat)
      reads this
      ensures n == |Bucket(index, key, value)|
      ensures key !in index || value !in index[key] ==> n == 0
    {
      if key !in index then 0
      else if value !in index[key] then 0
      else |index[key][value]|
    }

    method Remove(key: string, value: V, element: T)
      modifies this`index
      ensures index == Removed(old(index), key, value, element)
    {
      if key in index {
        var keyMap := index[key];
        if value in keyMap {
          var objects := keyMap[value] - {element};
          if |objects| == 0 {
            keyMap := keyMap - {value};
          } else {
            keyMap := keyMap[value := objects];
          }
          index := index[key := keyMap];
        }
      }
    }

    /** `removeElement`: scans every key map and every bucket, evicting `element` from each. */
    method RemoveElement(element: T)
      modifies this`index
      ensures index == if accepts(element) then Evicted(old(index), element) else old(index)
    {
      if accepts(element) {
        ghost var start := index;
        var keys := index.Keys;
        while keys != {}
          invariant keys <= start.Keys && index.Keys == start.Keys
          invariant forall k :: k in keys ==> index[k] == start[k]
          invariant forall k :: k in start && k !in keys ==> index[k] == EvictedFrom(start[k], element)
          decreases |keys|
        {
          var k :| k in keys;
          var keyMap := EvictFrom(index[k], element);
          index := index[k := keyMap];
          keys := keys - {k};
        }
        assert index == Evicted(start, element);
      }
    }

    method AutoUpdate(key: string, newValue: V, oldValue: Option<V>, element: T)
      modifies this`index
      ensures index == AutoUpdated(old(index), indexedKeys, key, newValue, oldValue, element)
    {
      if key in indexedKeys {
        if oldValue.Some? {
          Remove(key, oldValue.value, element);
        }
        Put(key, newValue, element);
      }
    }

    method AutoRemove(key: string, oldValue: V, element: T)
      modifies this`index
      ensures index == AutoRemoved(old(index), indexedKeys, key, oldValue, element)
    {
      if key in indexedKeys {
        Remove(key, oldValue, element);
      }
    }

    /**
     * `createKeyIndex`: returns at once when `key` is already indexed;
     * otherwise marks it and indexes each `(element, value)` of `existing`,
     * the elements of the graph that carry `key`.
     */
    method CreateKeyIndex(key: string, existing: seq<(T, V)>)
      modifies this
      ensures (index, indexedKeys) == KeyIndexCreated(old(index), old(indexedKeys), key, existing)
    {
      if key in indexedKeys {
        return;
      }
      indexedKeys := indexedKeys + {key};
      var i := 0;
      while i < |existing|
        invariant 0 <= i <= |existing|
        invariant indexedKeys == old(indexedKeys) + {key}
        invariant index == Backfilled(old(index), key, existing[..i])
      {
        Put(key, existing[i].1, existing[i].0);
        assert existing[..i + 1][..i] == existing[..i];
        i := i + 1;
      }
      assert existing[..i] == existing;
    }

    /** `dropKeyIndex`: removes the whole key map of `key`; an unknown key throws and changes nothing. */
    method DropKeyIndex(key: string) returns (r: Outcome<IndexError>)
      modifies this`index
      ensures r.Pass? <==> key in old(index)
      ensures r.Pass? ==> index == Dropped(old(index), key)
      ensures r.Fail? ==> r.error == NullPointer && index == old(index)
    {
      if key !in index {
        return Fail(NullPointer);
      }
      index := index - {key};
      return Pass;
    }

    /** `getIndexedKeys`: the keys that have a key map in the index (not the automatically indexed keys). */
    function GetIndexedKeys(): (r: set<string>)
      reads this
      ensures forall k :: k in r <==> k in index
    {
      index.Keys
    }
  }
}
