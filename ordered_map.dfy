/**
 * The lookup structure behind every rule table. The skip list and the splay tree are
 * two implementations of the same insert/find contract; their internal linkage
 * (levels, rotations) is not part of this model, so an instance is described only
 * by the backend it was created as and by the key-to-value mapping it represents.
 */
module OrderedMaps {
  import opened Wrappers

  /** Which implementation an instance stands for (the class handed to `build_rules`). */
  datatype Backend = SkipList | SplayTree

  class OrderedMap<V> {
    const backend: Backend
    /** The abstract contents: each key inserted so far, with the value most recently inserted for it. */
    var entries: map<int, V>

    /** A new, empty structure: every `find` reports absence. */
    constructor (backend: Backend)
      ensures this.backend == backend
      ensures entries == map[]
      ensures forall key :: Find(key) == None
    {
      this.backend := backend;
      entries := map[];
    }

    /** Inserts or overwrites the mapping for `key`; a later insert of the same key wins. */
    method Insert(key: int, value: V)
      modifies this
      ensures entries == old(entries)[key := value]
      ensures Find(key) == Some(value)
      ensures forall k :: k != key ==> Find(k) == old(Find(k))
    {
      entries := entries[key := value];
    }

    /** The value stored for `key`, or `None` when no insert used that key. */
    function Find(key: int): (r: Option<V>)
      reads this
      ensures r.Some? <==> key in entries
      ensures r.Some? ==> r.value == entries[key]
    {
      if key in entries then Some(entries[key]) else None
    }
  }
}
