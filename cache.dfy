/**
 * The cache store behind `Cache::remember`: a map from string keys to values.
 * Expiry (7 and 30 days) and eviction are not modelled.
 */
module Cache {
  import opened Wrappers

  /** What a `remember` call returns, whether it ran the producer, and the entries afterwards. */
  datatype Remembered<V> = Remembered(value: Option<V>, produced: bool, entries: map<string, V>)

  /**
   * Get-or-compute-and-store. A stored value is returned as it is and the
   * producer is not run. Otherwise the producer's value is returned and
   * stored, except that null (`None`) leaves no entry: the store reads a
   * stored null as a miss, so a null result is computed again next time.
   */
  function AfterRemember<V>(entries: map<string, V>, key: string, produced: Option<V>): Remembered<V> {
    if key in entries then Remembered(Some(entries[key]), false, entries)
    else Remembered(produced, true, if produced.Some? then entries[key := produced.value] else entries)
  }

  /**
   * `remember` touches at most its own key, and once that key holds a value a
   * later `remember` of the same key returns that value, does not run its
   * producer (so makes no remote call) and changes nothing, whatever it
   * would have produced.
   */
  lemma RememberStable<V>(entries: map<string, V>, key: string, first: Option<V>, later: Option<V>)
    ensures var r := AfterRemember(entries, key, first);
            forall other :: other != key ==>
              (other in r.entries <==> other in entries) &&
              (other in entries ==> r.entries[other] == entries[other])
    ensures var r := AfterRemember(entries, key, first);
            r.value.Some? ==> AfterRemember(r.entries, key, later) == Remembered(r.value, false, r.entries)
  {
  }

  /** A mutable cache store holding values of type `V`. */
  class CacheStore<V> {
    var entries: map<string, V>

    constructor ()
      ensures entries == map[]
    {
      entries := map[];
    }

    /** The stored value for `key`, if any. */
    function Get(key: string): (v: Option<V>)
      reads this
      ensures v.Some? <==> key in entries
      ensures v.Some? ==> v.value == entries[key]
    {
      if key in entries then Some(entries[key]) else None
    }

    /** Stores `value` under `key`. */
    method Put(key: string, value: V)
      modifies this
      ensures entries == old(entries)[key := value]
    {
      entries := entries[key := value];
    }

    /** `Cache::remember` with a producer that has no effect on this store. */
    method Remember(key: string, producer: () -> Option<V>) returns (value: Option<V>, produced: bool)
      modifies this
      ensures Remembered(value, produced, entries) == AfterRemember(old(entries), key, producer())
    {
      if key in entries {
        return Some(entries[key]), false;
      }
      value := producer();
      produced := true;
      if value.Some? {
        entries := entries[key := value.value];
      }
    }
  }
}
