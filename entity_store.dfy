/**
 * The indexed entity store the routes call (`IndexedEntity` in worker/core-utils,
 * which is not part of this model). One instance holds one entity type's records:
 * a map from storage key to record, and the type's index, the ordered list of
 * keys created so far. The contracts below state only what the routes and the
 * entity descriptors rely on.
 */
module EntityStore {
  import opened SharedTypes

  /**
   * What an entity class declares: its namespace (`entityName`), the name of its
   * index (`indexName`), the default record (`initialState`), its seed dataset
   * (`seedData`, absent for users) and how a record's key is derived (`keyOf`).
   */
  datatype Descriptor<!T> = Descriptor(
    entityName: string,
    indexName: string,
    initialState: T,
    seedData: Option<seq<T>>,
    keyOf: T -> string)

  /** No key occurs twice in the index. */
  predicate NoDuplicates(ids: seq<string>) {
    forall i, j :: 0 <= i < j < |ids| ==> ids[i] != ids[j]
  }

  /** The records the index lists, in index order (what `list` returns). */
  function ItemsAt<T>(records: map<string, T>, ids: seq<string>): (items: seq<T>)
    requires forall k :: k in ids ==> k in records
    ensures |items| == |ids|
    ensures forall i :: 0 <= i < |ids| ==> items[i] == records[ids[i]]
  {
    if ids == [] then [] else [records[ids[0]]] + ItemsAt(records, ids[1..])
  }

  /** The seed dataset, empty for a type that declares none. */
  function SeedOf<T>(d: Descriptor<T>): seq<T> {
    if d.seedData.Some? then d.seedData.value else []
  }

  class IndexedEntity<T> {
    const desc: Descriptor<T>
    var records: map<string, T>
    var index: seq<string>

    /**
     * Index and records agree: every listed key has a record and every record is
     * listed, once; every record sits at the key its descriptor derives for it.
     */
    ghost predicate Valid()
      reads this
    {
      NoDuplicates(index)
      && (forall k :: k in index <==> k in records)
      && (forall k :: k in records ==> desc.keyOf(records[k]) == k)
    }

    /** An empty store for the entity type `d`. */
    constructor (d: Descriptor<T>)
      ensures desc == d && records == map[] && index == []
      ensures Valid()
    {
      desc := d;
      records := map[];
      index := [];
    }

    /** `exists()`: whether a record is stored under `key`. */
    function Exists(key: string): (b: bool)
      reads this
      ensures b ==> key in records && (Valid() ==> desc.keyOf(records[key]) == key)
      ensures Valid() ==> (b <==> key in index)
    {
      key in records
    }

    /** `getState()`: the stored record, or the type's initial state when none is stored. */
    function GetState(key: string): (s: T)
      reads this
      ensures key in records ==> s == records[key]
      ensures key !in records ==> s == desc.initialState
    {
      if key in records then records[key] else desc.initialState
    }

    /** `list()`: every stored record, in index order. */
    function List(): (items: seq<T>)
      reads this
      requires Valid()
      ensures |items| == |index| == |records|
      ensures forall i :: 0 <= i < |items| ==> items[i] == records[index[i]]
    {
      CardinalityOfIndex();
      ItemsAt(records, index)
    }

    /** A duplicate-free index and the record map have the same size. */
    lemma CardinalityOfIndex()
      requires Valid()
      ensures |index| == |records|
    {
      IndexSize(index, records.Keys);
    }

    /**
     * `create(record)`: the record is stored under its derived key; that key is
     * appended to the index unless it is already there.
     */
    method Create(s: T)
      requires Valid()
      modifies this
      ensures Valid()
      ensures records == old(records)[desc.keyOf(s) := s]
      ensures index == if desc.keyOf(s) in old(records) then old(index) else old(index) + [desc.keyOf(s)]
    {
      var key := desc.keyOf(s);
      if key !in records {
        index := index + [key];
      }
      records := records[key := s];
    }

    /**
     * `ensureSeed()`: on an empty index every record of the seed dataset is
     * created, in order; on a non-empty index nothing changes.
     */
    method EnsureSeed()
      requires Valid()
      modifies this
      ensures Valid()
      ensures old(index) != [] ==> records == old(records) && index == old(index)
      ensures old(index) == [] ==>
        records == SeedRecords(desc.keyOf, SeedOf(desc)) && index == SeedIndex(desc.keyOf, SeedOf(desc))
    {
      if index != [] {
        return;
      }
      CardinalityOfIndex();
      assert records == map[];
      var seed := SeedOf(desc);
      var i := 0;
      while i < |seed|
        invariant 0 <= i <= |seed|
        invariant Valid()
        invariant records == SeedRecords(desc.keyOf, seed[..i])
        invariant index == SeedIndex(desc.keyOf, seed[..i])
      {
        assert seed[..i + 1][..i] == seed[..i];
        Create(seed[i]);
        i := i + 1;
      }
      assert seed[..i] == seed;
    }
  }

  /** The records after creating `seed` in order into an empty store (a later duplicate key wins). */
  function SeedRecords<T>(keyOf: T -> string, seed: seq<T>): (m: map<string, T>)
    ensures m.Keys == set s | s in seed :: keyOf(s)
  {
    if seed == [] then map[]
    else
      var init, last := seed[..|seed| - 1], seed[|seed| - 1];
      assert seed == init + [last];
      SeedRecords(keyOf, init)[keyOf(last) := last]
  }

  /** The index after creating `seed` in order into an empty store: first occurrences of keys. */
  function SeedIndex<T>(keyOf: T -> string, seed: seq<T>): (ids: seq<string>)
    ensures NoDuplicates(ids)
    ensures forall k :: k in ids <==> exists s :: s in seed && keyOf(s) == k
  {
    if seed == [] then []
    else
      var init, last := seed[..|seed| - 1], seed[|seed| - 1];
      var before := SeedIndex(keyOf, init);
      assert seed == init + [last];
      if keyOf(last) in before then before else before + [keyOf(last)]
  }

  /** The key of every record of `seed`, in order. */
  function KeysOf<T>(keyOf: T -> string, seed: seq<T>): (ids: seq<string>)
    ensures |ids| == |seed|
    ensures forall i :: 0 <= i < |seed| ==> ids[i] == keyOf(seed[i])
  {
    seq(|seed|, i requires 0 <= i < |seed| => keyOf(seed[i]))
  }

  /** With distinct keys, seeding indexes every seed record, in seed order. */
  lemma {:induction false} SeedIndexOfDistinct<T>(keyOf: T -> string, seed: seq<T>)
    requires NoDuplicates(KeysOf(keyOf, seed))
    ensures SeedIndex(keyOf, seed) == KeysOf(keyOf, seed)
  {
    if seed != [] {
      var init, last := seed[..|seed| - 1], seed[|seed| - 1];
      assert KeysOf(keyOf, init) == KeysOf(keyOf, seed)[..|seed| - 1];
      SeedIndexOfDistinct(keyOf, init);
      assert keyOf(last) !in KeysOf(keyOf, init);
    }
  }

  /** With distinct keys, seeding stores every seed record under its own key. */
  lemma {:induction false} SeedRecordsOfDistinct<T>(keyOf: T -> string, seed: seq<T>, i: nat)
    requires NoDuplicates(KeysOf(keyOf, seed))
    requires i < |seed|
    ensures keyOf(seed[i]) in SeedRecords(keyOf, seed)
    ensures SeedRecords(keyOf, seed)[keyOf(seed[i])] == seed[i]
  {
    var init, last := seed[..|seed| - 1], seed[|seed| - 1];
    if i < |seed| - 1 {
      assert KeysOf(keyOf, init) == KeysOf(keyOf, seed)[..|seed| - 1];
      SeedRecordsOfDistinct(keyOf, init, i);
      assert keyOf(seed[i]) != keyOf(last);
    }
  }

  /** Listing a freshly seeded store yields the seed dataset itself when its keys are distinct. */
  lemma SeededListIsSeed<T>(keyOf: T -> string, seed: seq<T>)
    requires NoDuplicates(KeysOf(keyOf, seed))
    ensures forall k :: k in SeedIndex(keyOf, seed) ==> k in SeedRecords(keyOf, seed)
    ensures ItemsAt(SeedRecords(keyOf, seed), SeedIndex(keyOf, seed)) == seed
  {
    SeedIndexOfDistinct(keyOf, seed);
    var items := ItemsAt(SeedRecords(keyOf, seed), SeedIndex(keyOf, seed));
    forall i | 0 <= i < |seed|
      ensures items[i] == seed[i]
    {
      SeedRecordsOfDistinct(keyOf, seed, i);
    }
  }

  /** A duplicate-free list of keys that are exactly a set has that set's size. */
  lemma {:induction false} IndexSize(ids: seq<string>, keys: set<string>)
    requires NoDuplicates(ids)
    requires forall k :: k in ids <==> k in keys
    ensures |ids| == |keys|
  {
    if ids != [] {
      var rest := ids[1..];
      assert NoDuplicates(rest);
      assert forall k :: k in rest <==> k in keys - {ids[0]};
      IndexSize(rest, keys - {ids[0]});
    }
  }
}
