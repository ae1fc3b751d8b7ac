/**
 * The `Storage[T]` contract the service runs over (Set, Get, GetAll, Delete), realised
 * as a map from key to value. The backend's failures are an oracle: while `failure`
 * holds an error, every call returns that error and changes nothing.
 */
module Storage {
  import opened Wrappers

  /** `storage.ErrKeyNotFound`, and any other error a backend can return. */
  datatype StoreError = KeyNotFound | Failure(message: string)

  /** `keys` lists every key of `entries` exactly once and `values` the values in that order. */
  ghost predicate Enumerates<T>(entries: map<string, T>, keys: seq<string>, values: seq<T>)
  {
    && |keys| == |values|
    && (forall i, j :: 0 <= i < j < |keys| ==> keys[i] != keys[j])
    && (forall k :: k in entries <==> k in keys)
    && (forall i :: 0 <= i < |keys| ==> keys[i] in entries && values[i] == entries[keys[i]])
  }

  /** A sequence without repeats has as many distinct elements as it is long. */
  lemma {:induction false} DistinctCount(keys: seq<string>)
    requires forall i, j :: 0 <= i < j < |keys| ==> keys[i] != keys[j]
    ensures |set k | k in keys| == |keys|
  {
    if keys != [] {
      var tail := keys[1..];
      DistinctCount(tail);
      assert (set k | k in keys) == {keys[0]} + (set k | k in tail);
      assert keys[0] !in (set k | k in tail);
    }
  }

  /** An enumeration has exactly as many values as the store has keys. */
  lemma EnumerationSize<T>(entries: map<string, T>, keys: seq<string>, values: seq<T>)
    requires Enumerates(entries, keys, values)
    ensures |values| == |entries|
    ensures entries == map[] ==> values == []
  {
    DistinctCount(keys);
    assert (set k | k in keys) == entries.Keys;
  }

  class MapStorage<T> {
    var entries: map<string, T>
    var failure: Option<StoreError>

    constructor ()
      ensures entries == map[] && failure == None
    {
      entries := map[];
      failure := None;
    }

    /** Stores `value` under `key`, overwriting any earlier value. */
    method Set(key: string, value: T) returns (err: Option<StoreError>)
      modifies this`entries
      ensures err == failure
      ensures failure.None? ==> entries == old(entries)[key := value]
      ensures failure.Some? ==> entries == old(entries)
    {
      err := failure;
      if failure.None? {
        entries := entries[key := value];
      }
    }

    /** The value under `key`; an absent key is `KeyNotFound`, told apart from a failure. */
    method Get(key: string) returns (r: Result<T, StoreError>)
      ensures failure.Some? ==> r == Err(failure.value)
      ensures failure.None? && key in entries ==> r == Ok(entries[key])
      ensures failure.None? && key !in entries ==> r == Err(KeyNotFound)
    {
      if failure.Some? {
        r := Err(failure.value);
      } else if key in entries {
        r := Ok(entries[key]);
      } else {
        r := Err(KeyNotFound);
      }
    }

    /** Every stored value, once each, in the (unspecified) order of `keys`. */
    method GetAll() returns (r: Result<seq<T>, StoreError>, ghost keys: seq<string>)
      ensures failure.Some? ==> r == Err(failure.value)
      ensures failure.None? ==> r.Ok? && Enumerates(entries, keys, r.value)
    {
      keys := [];
      if failure.Some? {
        return Err(failure.value), keys;
      }
      var values: seq<T> := [];
      var rest := entries.Keys;
      while rest != {}
        invariant rest <= entries.Keys
        invariant |keys| == |values|
        invariant forall k :: k in entries <==> k in keys || k in rest
        invariant forall i :: 0 <= i < |keys| ==> keys[i] !in rest
        invariant forall i, j :: 0 <= i < j < |keys| ==> keys[i] != keys[j]
        invariant forall i :: 0 <= i < |keys| ==> keys[i] in entries && values[i] == entries[keys[i]]
        decreases rest
      {
        var k :| k in rest;
        keys := keys + [k];
        values := values + [entries[k]];
        rest := rest - {k};
      }
      r := Ok(values);
    }

    /** Removes `key`; removing an absent key is not an error. */
    method Delete(key: string) returns (err: Option<StoreError>)
      modifies this`entries
      ensures err == failure
      ensures failure.None? ==> entries == old(entries) - {key}
      ensures failure.Some? ==> entries == old(entries)
    {
      err := failure;
      if failure.None? {
        entries := entries - {key};
      }
    }
  }
}
