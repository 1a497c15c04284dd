/**
 * The TTL cache the juggler sender keeps in front of the check fetcher
 * (senders/juggler/cache.go). Clock readings are explicit nanosecond counts
 * passed in by the caller; the fetcher is replaced by the outcome it produced.
 * Locking, the ready channel and the cleaner goroutine's sleeping are not part
 * of the model: each operation runs as one step on the store.
 */
module TtlCache {
  import opened HostFanout

  /** time.Minute in nanoseconds. */
  const Minute := 60_000_000_000

  /** itemType once its fetch has finished: the expiry and the fetched body. */
  datatype Item = Item(expires: int, body: seq<bv8>)

  /** What one pass of the cleaner keeps: items whose expiry is not in the past. */
  function Swept(store: map<string, Item>, now: int): (r: map<string, Item>)
    ensures forall k :: k in r <==> k in store && now - store[k].expires <= 0
    ensures forall k :: k in r ==> r[k] == store[k]
  {
    map k | k in store && now - store[k].expires <= 0 :: store[k]
  }

  class Cache {
    var ttl: int
    var interval: int
    var store: map<string, Item>

    /** The package-level GlobalCache: one-minute lifetime, five-minute sweeps. */
    constructor ()
      ensures ttl == Minute && interval == 5 * Minute && store == map[]
    {
      ttl := Minute;
      interval := 5 * Minute;
      store := map[];
    }

    method TuneCache(ttl': int, interval': int)
      modifies this
      ensures ttl == ttl' && interval == interval' && store == old(store)
    {
      ttl := ttl';
      interval := interval';
    }

    /**
     * Look `key` up at time `start`, finishing at time `finish`. A missing key is
     * fetched (`fetch` is what the fetcher returned) and remembered with expiry
     * start + ttl unless the fetch failed; a present key is served without
     * fetching. Either way the entry is dropped once `finish` has reached its expiry.
     */
    method Get(key: string, start: int, finish: int, fetch: FetchResult) returns (result: FetchResult, fetched: bool)
      modifies this
      ensures fetched <==> key !in old(store)
      ensures !fetched ==> result == Fetched(old(store)[key].body)
      ensures fetched ==> result == fetch
      ensures var expires := if fetched then start + old(ttl) else old(store)[key].expires;
              store == if result.FetchFailed? || finish - expires >= 0 then old(store) - {key}
                       else old(store)[key := Item(expires, result.body)]
      ensures ttl == old(ttl) && interval == old(interval)
    {
      var expires;
      if key !in store {
        fetched := true;
        expires := start + ttl;
        result := fetch;
        match fetch
        case Fetched(body) =>
          store := store[key := Item(expires, body)];
        case FetchFailed(_) =>
          store := store - {key};
      } else {
        fetched := false;
        var item := store[key];
        expires := item.expires;
        result := Fetched(item.body);
      }
      if finish - expires >= 0 {
        store := store - {key};
      }
    }

    method Delete(key: string)
      modifies this
      ensures store == old(store) - {key}
      ensures ttl == old(ttl) && interval == old(interval)
    {
      store := store - {key};
    }

    /** One pass of the cleaner: collect the stale keys, then delete them. */
    method Sweep(now: int)
      modifies this
      ensures store == Swept(old(store), now)
      ensures ttl == old(ttl) && interval == old(interval)
    {
      var stale: seq<string> := [];
      var unvisited := store.Keys;
      while unvisited != {}
        invariant unvisited <= store.Keys && store == old(store)
        invariant forall k :: k in stale ==> k in store && now - store[k].expires > 0
        invariant forall k :: k in store && k !in unvisited && now - store[k].expires > 0 ==> k in stale
        decreases unvisited
      {
        var k :| k in unvisited;
        if now - store[k].expires > 0 {
          stale := stale + [k];
        }
        unvisited := unvisited - {k};
      }
      ghost var before := store;
      for i := 0 to |stale|
        invariant forall k :: k in store <==> k in before && k !in stale[..i]
        invariant forall k :: k in store ==> store[k] == before[k]
        invariant ttl == old(ttl) && interval == old(interval)
      {
        store := store - {stale[i]};
      }
      assert stale[..|stale|] == stale;
    }
  }
}
