/** The rate limiter as it runs: one bucket object per client in a map, swept in a loop. */
module RateLimiterObject {
  import Spec = RateLimiterSpec

  class TokenBucket {
    var tokens: int
    const capacity: int
    var lastRefill: int
    var lastAccess: int

    function View(): Spec.Bucket
      reads this
    {
      Spec.Bucket(tokens, capacity, lastRefill, lastAccess)
    }

    constructor (rate: int, now: int)
      ensures View() == Spec.FreshBucket(rate, now)
    {
      tokens, capacity, lastRefill, lastAccess := rate, rate, now, now;
    }

    method Consume(now: int) returns (allowed: bool)
      modifies this
      ensures Spec.Served(View(), allowed) == Spec.Consume(old(View()), now)
      ensures var seconds := (now - old(lastRefill)) / 1_000_000_000;
              var earned := old(tokens) + if seconds > 0 then seconds else 0;
              var available := if seconds <= 0 || earned < capacity then earned else capacity;
              && (allowed <==> available > 0) && tokens == available - (if allowed then 1 else 0)
              && lastRefill == (if seconds > 0 then now else old(lastRefill)) && lastAccess == now
    {
      lastAccess := now;
      var elapsed := now - lastRefill;
      var tokensToAdd := elapsed / Spec.SECOND;
      if tokensToAdd > 0 {
        tokens := if tokens + tokensToAdd < capacity then tokens + tokensToAdd else capacity;
        lastRefill := now;
      }
      if tokens > 0 {
        tokens := tokens - 1;
        return true;
      }
      return false;
    }
  }

  class RateLimiter {
    const rate: int
    const bucketTTL: int
    var buckets: map<string, TokenBucket>

    /** No two clients share a bucket. */
    ghost predicate Valid()
      reads this
    {
      forall c, d :: c in buckets && d in buckets && buckets[c] == buckets[d] ==> c == d
    }

    function View(): Spec.Buckets
      reads this, buckets.Values
    {
      map client | client in buckets :: buckets[client].View()
    }

    constructor (rate: int, bucketTTL: int)
      ensures Valid() && View() == map[]
      ensures this.rate == rate && this.bucketTTL == bucketTTL
    {
      this.rate, this.bucketTTL, buckets := rate, bucketTTL, map[];
    }

    /** Makes sure that a client has a bucket, a full one when it is first asked for. */
    method EnsureBucket(client: string, now: int)
      requires Valid()
      modifies `buckets
      ensures Valid() && fresh(buckets.Values - old(buckets.Values)) && buckets.Keys == old(buckets.Keys) + {client}
      ensures View() == if client in old(buckets) then old(View())
                        else old(View())[client := Spec.Bucket(rate, rate, now, now)]
    {
      if client !in buckets {
        var bucket := new TokenBucket(rate, now);
        buckets := buckets[client := bucket];
      }
    }

    /** Takes a token from a client's bucket, and from no other. */
    method ConsumeFrom(client: string, now: int) returns (allowed: bool)
      requires Valid() && client in buckets
      modifies buckets[client]
      ensures Valid()
      ensures var s := Spec.Consume(old(View())[client], now);
              allowed == s.allowed && View() == old(View())[client := s.bucket]
    {
      assert forall c :: c in buckets && c != client ==> buckets[c] != buckets[client];
      allowed := buckets[client].Consume(now);
    }

    /** Answers a request of `client`; no other client notices. */
    method Allow(client: string, now: int) returns (allowed: bool)
      requires Valid()
      modifies this, buckets.Values
      ensures Valid() && fresh(buckets.Values - old(buckets.Values))
      ensures Spec.Reply(View(), allowed) == Spec.Allow(rate, old(View()), client, now)
      ensures buckets.Keys == old(buckets.Keys) + {client}
      ensures forall c :: c in old(buckets) && c != client ==> View()[c] == old(View())[c]
      ensures client !in old(buckets) ==> allowed == (rate > 0)
    {
      EnsureBucket(client, now);
      allowed := ConsumeFrom(client, now);
    }

    /** Deletes the buckets that have been idle for longer than the TTL, one client after another. */
    method Cleanup(now: int)
      requires Valid()
      modifies this
      ensures Valid() && buckets.Values <= old(buckets.Values)
      ensures View() == Spec.Cleanup(bucketTTL, old(View()), now)
      ensures forall c :: c in buckets <==> c in old(buckets) && now - old(buckets)[c].lastAccess <= bucketTTL
      ensures forall c :: c in buckets ==> buckets[c] == old(buckets)[c]
    {
      ghost var before := buckets;
      var clients := buckets.Keys;
      while clients != {}
        invariant Valid() && clients <= buckets.Keys <= before.Keys
        invariant forall c :: c in buckets ==> buckets[c] == before[c]
        invariant forall c :: c in before && c !in clients ==>
                    (c in buckets <==> now - before[c].lastAccess <= bucketTTL)
        decreases clients
      {
        var client :| client in clients;
        clients := clients - {client};
        var bucket := buckets[client];
        if now - bucket.lastAccess > bucketTTL {
          buckets := buckets - {client};
        }
      }
    }
  }
}
