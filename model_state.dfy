/**
  The caller's `ModelStateDictionary`: a dictionary from a key to the list of
  error messages recorded under it, which `AddModelError` extends in place.
 */
module ModelState {

  /** The messages recorded under `key`, or none when the key is absent. */
  function Lookup(m: map<string, seq<string>>, key: string): seq<string>
  {
    if key in m then m[key] else []
  }

  /** The dictionary after recording `message` under `key`. */
  function WithError(m: map<string, seq<string>>, key: string, message: string): (r: map<string, seq<string>>)
    ensures r.Keys == m.Keys + {key}
    ensures Lookup(r, key) == Lookup(m, key) + [message]
    ensures forall k :: k != key ==> Lookup(r, k) == Lookup(m, k)
  {
    m[key := Lookup(m, key) + [message]]
  }

  class ModelStateDictionary {
    var entries: map<string, seq<string>>

    constructor ()
      ensures entries == map[]
    {
      entries := map[];
    }

    /** Appends `errorMessage` to the messages recorded under `key`, creating the key if needed. */
    method AddModelError(key: string, errorMessage: string)
      modifies this
      ensures entries == WithError(old(entries), key, errorMessage)
      ensures entries.Keys == old(entries).Keys + {key}
      ensures Lookup(entries, key) == Lookup(old(entries), key) + [errorMessage]
    {
      entries := entries[key := Lookup(entries, key) + [errorMessage]];
    }
  }
}
