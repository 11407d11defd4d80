/** The in-memory store both servers keep: `store_db`, a plain object keyed
    by digest in index.js, and `stringDB`, a `Map` in the controller. Both
    enumerate their entries in insertion order, which is what this class
    keeps beside the entries themselves. */
module Store {
  import opened Analysis

  /** A stored string: its digest, the string, its properties and the
      creation time (an ISO-8601 text supplied by the caller). */
  datatype Record = Record(id: Digest, value: string, properties: Properties, createdAt: string)

  /** No key occurs twice. */
  predicate Distinct(ks: seq<Digest>) {
    forall i, j :: 0 <= i < j < |ks| ==> ks[i] != ks[j]
  }

  /** `ks` with `k` taken out. */
  function Without(ks: seq<Digest>, k: Digest): (r: seq<Digest>)
    ensures forall x :: x in r <==> x in ks && x != k
    ensures Distinct(ks) ==> Distinct(r)
    ensures k !in ks ==> r == ks
  {
    if ks == [] then []
    else if ks[0] == k then Without(ks[1..], k)
    else
      var rest := Without(ks[1..], k);
      assert Distinct(ks) ==> ks[0] !in ks[1..];
      [ks[0]] + rest
  }

  /** The records stored under `ks`, in that order. */
  function ValuesOf(entries: map<Digest, Record>, ks: seq<Digest>): (r: seq<Record>)
    requires forall i :: 0 <= i < |ks| ==> ks[i] in entries
    ensures |r| == |ks|
    ensures forall i :: 0 <= i < |ks| ==> r[i] == entries[ks[i]]
  {
    if ks == [] then [] else [entries[ks[0]]] + ValuesOf(entries, ks[1..])
  }

  class Dictionary {
    /** The stored records, by key. */
    var entries: map<Digest, Record>
    /** The keys, in the order they were first stored. */
    var order: seq<Digest>

    ghost predicate Valid()
      reads this
    {
      Distinct(order) && forall k :: k in order <==> k in entries
    }

    constructor()
      ensures Valid() && entries == map[] && order == []
    {
      entries := map[];
      order := [];
    }

    /** `k in store_db` (every record is truthy), `stringDB.has(k)`. */
    predicate Has(k: Digest)
      reads this
    {
      k in entries
    }

    /** `store_db[k] = r`, `stringDB.set(k, r)`: a new key goes last, an
        existing one keeps its place. */
    method Set(k: Digest, r: Record)
      requires Valid()
      modifies this
      ensures Valid()
      ensures entries == old(entries)[k := r]
      ensures order == if k in old(entries) then old(order) else old(order) + [k]
    {
      if k !in entries {
        order := order + [k];
      }
      entries := entries[k := r];
    }

    /** `delete store_db[k]`, `stringDB.delete(k)`. */
    method Remove(k: Digest)
      requires Valid()
      modifies this
      ensures Valid()
      ensures entries == old(entries) - {k}
      ensures order == Without(old(order), k)
    {
      entries := entries - {k};
      order := Without(order, k);
    }

    /** `Object.values(store_db)`, `Array.from(stringDB.values())`: every
        stored record once, oldest first. */
    function Values(): (r: seq<Record>)
      requires Valid()
      reads this
      ensures |r| == |order|
      ensures forall x :: x in r <==> exists k :: k in entries && entries[k] == x
    {
      assert forall i :: 0 <= i < |order| ==> order[i] in entries;
      var r := ValuesOf(entries, order);
      assert forall k :: k in entries ==> exists i :: 0 <= i < |order| && order[i] == k && r[i] == entries[k];
      r
    }
  }
}
