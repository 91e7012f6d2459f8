/**
 * The in-memory transaction store of test/inMemoryStore.js: a keyed
 * dictionary `_memoryStore` with save, update, load (optionally destroying
 * the entry) and clear. It never reports an error.
 */
module MemoryStore {
  import opened Js

  /** The options object of `load`; `destroy` deletes the key after reading. */
  datatype LoadOptions = LoadOptions(destroy: bool)

  /** What `load` reads: the stored value, or `undefined`. */
  function Lookup<V>(memory: map<string, V>, key: string): (r: Option<V>)
    ensures r.Some? <==> key in memory
    ensures r.Some? ==> r.value == memory[key]
  {
    if key in memory then Some(memory[key]) else None
  }

  /** The dictionary after `load`: the key is gone when destroy was asked for, otherwise nothing changes. */
  function AfterLoad<V>(memory: map<string, V>, key: string, options: Option<LoadOptions>): (m: map<string, V>)
    ensures key !in m || (key in memory && m[key] == memory[key])
    ensures forall k :: k in memory && k != key ==> k in m && m[k] == memory[k]
    ensures m.Keys <= memory.Keys
    ensures options.Some? && options.value.destroy ==> key !in m
    ensures options.None? || !options.value.destroy ==> m == memory
  {
    if options.Some? && options.value.destroy then memory - {key} else memory
  }

  class InMemoryStore<V> {
    var memory: map<string, V>

    /** `new InMemoryStore()` calls `clear`, so the dictionary starts empty. */
    constructor ()
      ensures memory == map[]
    {
      memory := map[];
    }

    /**
     * `save`: stores `data` under a new key through `update` and returns
     * that key. The key, `uid(8)` in the source, is an input here.
     */
    method Save(key: string, data: V) returns (k: string)
      modifies this
      ensures k == key
      ensures memory == old(memory)[key := data]
    {
      k := Update(key, data);
    }

    /** `update`: stores `data` under `key` and returns the key; other keys keep their values. */
    method Update(key: string, data: V) returns (k: string)
      modifies this
      ensures k == key
      ensures memory == old(memory)[key := data]
    {
      memory := memory[key := data];
      k := key;
    }

    /**
     * `load`: the value stored under `key`, or `undefined`; with
     * `destroy` the key is deleted after reading. Omitted options (a
     * callback in their place) are `{}`, which does not destroy.
     */
    method Load(key: string, options: Option<LoadOptions>) returns (result: Option<V>)
      modifies this
      ensures result == Lookup(old(memory), key)
      ensures memory == AfterLoad(old(memory), key, options)
    {
      result := if key in memory then Some(memory[key]) else None;
      if options.Some? && options.value.destroy {
        memory := memory - {key};
      }
    }

    /** `clear`: empties the dictionary. */
    method Clear()
      modifies this
      ensures memory == map[]
    {
      memory := map[];
    }
  }
}
