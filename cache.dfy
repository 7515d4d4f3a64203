/** db/redis.go: the Redis cache, as a map from keys to stored JSON. */
module Redis {
  import opened Json

  class RedisCacheStore {
    var entries: map<string, Encoded>

    constructor ()
      ensures entries == map[]
    {
      entries := map[];
    }

    /** GET: the stored value; a missing key (redis.Nil) reads as the empty string. */
    function Get(key: string): (v: Encoded)
      reads this
      ensures key !in entries ==> v == Empty
      ensures key in entries ==> v == entries[key]
    {
      if key in entries then entries[key] else Empty
    }

    /** SET: the key holds `value`; every other key is unchanged. */
    method Set(key: string, value: Encoded)
      modifies this
      ensures entries == old(entries)[key := value]
    {
      entries := entries[key := value];
    }
  }
}
