/** The token-bucket rate limiter as functions on values: what it allows, and when eviction is invisible. */
module RateLimiterSpec {

  const SECOND: int := 1_000_000_000 // nanoseconds

  datatype Bucket = Bucket(tokens: int, capacity: int, lastRefill: int, lastAccess: int)

  datatype Served = Served(bucket: Bucket, allowed: bool)

  function Refill(b: Bucket, now: int): Bucket {
    var tokensToAdd := (now - b.lastRefill) / SECOND;
    if tokensToAdd > 0 then
      b.(tokens := if b.tokens + tokensToAdd < b.capacity then b.tokens + tokensToAdd else b.capacity,
         lastRefill := now)
    else b
  }

  /** One request: whole elapsed seconds become tokens, and a token is taken if there is one. */
  function Consume(b: Bucket, now: int): Served {
    var r := Refill(b.(lastAccess := now), now);
    if r.tokens > 0 then Served(r.(tokens := r.tokens - 1), true) else Served(r, false)
  }

  function FreshBucket(rate: int, now: int): Bucket {
    Bucket(rate, rate, now, now)
  }

  type Buckets = map<string, Bucket>

  datatype Reply = Reply(buckets: Buckets, allowed: bool)

  function Allow(rate: int, m: Buckets, client: string, now: int): Reply {
    var s := Consume(if client in m then m[client] else FreshBucket(rate, now), now);
    Reply(m[client := s.bucket], s.allowed)
  }

  function Cleanup(ttl: int, m: Buckets, now: int): Buckets {
    map client | client in m && now - m[client].lastAccess <= ttl :: m[client]
  }

  // ----- One bucket over a window -----

  /** What the requests of one client leave of a bucket that exists at `now`. */
  predicate Consistent(b: Bucket, now: int) {
    0 <= b.tokens <= b.capacity && b.lastRefill <= b.lastAccess <= now
  }

  lemma {:induction false} ConsumeKeepsConsistent(b: Bucket, now: int)
    requires Consistent(b, now)
    ensures Consistent(Consume(b, now).bucket, now)
    ensures Consume(b, now).bucket.capacity == b.capacity
  {
  }

  predicate Ordered(times: seq<int>) {
    forall i, j :: 0 <= i <= j < |times| ==> times[i] <= times[j]
  }

  datatype Tally = Tally(bucket: Bucket, allowed: nat)

  /** The bucket after the requests, and how many of them were allowed. */
  function Serve(b: Bucket, times: seq<int>): Tally
    decreases |times|
  {
    if times == [] then Tally(b, 0)
    else
      var before := Serve(b, times[..|times| - 1]);
      var s := Consume(before.bucket, times[|times| - 1]);
      Tally(s.bucket, before.allowed + (if s.allowed then 1 else 0))
  }

  lemma {:induction false} FloorsAdd(a: int, b: int)
    requires a >= 0 && b >= 0
    ensures a / SECOND + b / SECOND <= (a + b) / SECOND
  {
  }

  /** Whatever is allowed or left over was there at the start or came with whole seconds. */
  lemma {:induction false} TokensAreConserved(b: Bucket, times: seq<int>)
    requires Ordered(times) && times != [] && Consistent(b, times[0])
    ensures var t := Serve(b, times);
            && Consistent(t.bucket, times[|times| - 1]) && t.bucket.capacity == b.capacity
            && b.lastRefill <= t.bucket.lastRefill
            && t.allowed + t.bucket.tokens <= b.tokens + (t.bucket.lastRefill - b.lastRefill) / SECOND
    decreases |times|
  {
    var n := |times| - 1;
    var last := times[n];
    if n == 0 {
      assert times[..0] == [];
      ConsumeKeepsConsistent(b, last);
    } else {
      TokensAreConserved(b, times[..n]);
      var t := Serve(b, times[..n]);
      assert times[n - 1] <= last;
      ConsumeKeepsConsistent(t.bucket, last);
      FloorsAdd(t.bucket.lastRefill - b.lastRefill, last - t.bucket.lastRefill);
    }
  }

  /**
   * In a window of length T that starts at a request, one surviving bucket allows at most
   * capacity + T requests, T rounded up to whole seconds: the fraction of a second that a refill
   * drops costs no more than that.
   */
  lemma {:induction false} WindowBound(b: Bucket, times: seq<int>)
    requires Ordered(times) && times != [] && Consistent(b, times[0])
    ensures Serve(b, times).allowed <= b.capacity + (times[|times| - 1] - times[0] + SECOND - 1) / SECOND
  {
    var first, last := times[0], times[|times| - 1];
    var r := Refill(b.(lastAccess := first), first);
    ServeAfterRefill(b, times);
    TokensAreConserved(r, times);
    var t := Serve(r, times);
    assert first - r.lastRefill <= SECOND - 1;
    assert t.bucket.lastRefill - r.lastRefill <= last - first + SECOND - 1;
  }

  /** Refilling a bucket just before its first request changes nothing. */
  lemma {:induction false} ServeAfterRefill(b: Bucket, times: seq<int>)
    requires times != [] && Consistent(b, times[0])
    ensures var r := Refill(b.(lastAccess := times[0]), times[0]);
            Consistent(r, times[0]) && Serve(r, times) == Serve(b, times)
    decreases |times|
  {
    var n := |times| - 1;
    if n == 0 {
      assert times[..0] == [];
    } else {
      ServeAfterRefill(b, times[..n]);
    }
  }

  function AllAt(now: int, n: nat): (times: seq<int>)
    ensures |times| == n && forall i :: 0 <= i < n ==> times[i] == now
  {
    seq(n, i => now)
  }

  /** Requests at one instant take the tokens one by one. */
  lemma {:induction false} Drain(b: Bucket, now: int, n: nat)
    requires 0 <= n <= b.tokens && now - b.lastRefill < SECOND && n > 0
    ensures Serve(b, AllAt(now, n)) == Tally(b.(tokens := b.tokens - n, lastAccess := now), n)
    decreases n
  {
    assert AllAt(now, n)[..n - 1] == AllAt(now, n - 1);
    if n == 1 {
      assert AllAt(now, 0) == [];
    } else {
      Drain(b, now, n - 1);
    }
  }

  /**
   * After any idle time a burst is served from the tokens left and one more for each whole second, up to
   * the capacity, and no further.
   */
  lemma {:induction false} BurstAfterIdle(b: Bucket, now: int, n: nat)
    requires Consistent(b, now) && n > 0
    ensures var earned := b.tokens + (now - b.lastRefill) / 1_000_000_000;
            var available := if earned < b.capacity then earned else b.capacity;
            Serve(b, AllAt(now, n)).allowed == if n < available then n else available
    ensures Serve(b, AllAt(now, n)).bucket.lastAccess == now
  {
    var r := Refill(b.(lastAccess := now), now);
    ServeAfterRefill(b, AllAt(now, n));
    if n <= r.tokens {
      Drain(r, now, n);
    } else {
      RefusedBeyond(r, now, n);
    }
  }

  /** Requests at one instant beyond the tokens are refused. */
  lemma {:induction false} RefusedBeyond(b: Bucket, now: int, n: nat)
    requires 0 <= b.tokens < n && now - b.lastRefill < SECOND
    ensures Serve(b, AllAt(now, n)) == Tally(b.(tokens := 0, lastAccess := now), b.tokens)
    decreases n
  {
    assert AllAt(now, n)[..n - 1] == AllAt(now, n - 1);
    if n - 1 > b.tokens {
      RefusedBeyond(b, now, n - 1);
    } else if n == 1 {
      assert AllAt(now, 0) == [];
    } else {
      Drain(b, now, n - 1);
    }
  }

  lemma {:induction false} ServeInTwoParts(b: Bucket, first: seq<int>, second: seq<int>)
    ensures var t := Serve(b, first);
            var u := Serve(t.bucket, second);
            Serve(b, first + second) == Tally(u.bucket, t.allowed + u.allowed)
    decreases |second|
  {
    if second == [] {
      assert first + second == first;
    } else {
      var n := |second| - 1;
      ServeInTwoParts(b, first, second[..n]);
      assert (first + second)[..|first| + n] == first + second[..n];
    }
  }

  /** One request a second. */
  function Drip(first: int, n: nat): (times: seq<int>)
    ensures |times| == n && forall i :: 0 <= i < n ==> times[i] == first + i * SECOND
  {
    seq(n, i => first + i * SECOND)
  }

  /** An empty bucket allows exactly one request a second. */
  lemma {:induction false} DripIsServed(b: Bucket, first: int, n: nat)
    requires b.capacity > 0 && b.tokens == 0 && n > 0
    requires SECOND <= first - b.lastRefill < 2 * SECOND
    ensures var last := first + (n - 1) * SECOND;
            Serve(b, Drip(first, n)) == Tally(b.(lastRefill := last, lastAccess := last), n)
  {
    assert Drip(first, n)[..n - 1] == Drip(first, n - 1);
    if n == 1 {
      assert Drip(first, 0) == [];
      assert (first - b.lastRefill) / SECOND == 1;
    } else {
      DripIsServed(b, first, n - 1);
    }
  }

  /** The busiest window: a full bucket drained just before it earns a token, then every token as it is earned. */
  function BusiestWindow(capacity: nat, window: nat): seq<int> {
    var earned := (window + SECOND - 1) / SECOND;
    AllAt(SECOND - 1, capacity) + Drip(SECOND - 1 + window - (earned - 1) * SECOND, earned)
  }

  lemma {:induction false} BusiestWindowOrdered(capacity: nat, window: nat)
    requires capacity > 0
    ensures var times := BusiestWindow(capacity, window);
            && Ordered(times) && times != [] && times[0] == SECOND - 1
            && times[|times| - 1] - times[0] == window
  {
    var earned := (window + SECOND - 1) / SECOND;
    assert window <= earned * SECOND < window + SECOND;
  }

  /** The window bound is attained, at every capacity above zero and every window. */
  lemma {:induction false} WindowBoundIsTight(capacity: nat, window: nat)
    requires capacity > 0
    ensures var b := Bucket(capacity, capacity, 0, 0);
            var times := BusiestWindow(capacity, window);
            && Ordered(times) && times != [] && Consistent(b, times[0])
            && times[|times| - 1] - times[0] == window
            && Serve(b, times).allowed == capacity + (window + SECOND - 1) / SECOND
  {
    var b := Bucket(capacity, capacity, 0, 0);
    var earned := (window + SECOND - 1) / SECOND;
    BusiestWindowOrdered(capacity, window);
    Drain(b, SECOND - 1, capacity);
    var empty := b.(tokens := 0, lastAccess := SECOND - 1);
    var first := SECOND - 1 + window - (earned - 1) * SECOND;
    if earned > 0 {
      DripIsServed(empty, first, earned);
    } else {
      assert Drip(first, earned) == [];
    }
    ServeInTwoParts(b, AllAt(SECOND - 1, capacity), Drip(first, earned));
  }

  // ----- Eviction -----

  datatype Event = Request(client: string, at: int) | Sweep(at: int)

  predicate InOrder(events: seq<Event>) {
    forall i, j :: 0 <= i <= j < |events| ==> events[i].at <= events[j].at
  }

  datatype Limiter = Limiter(buckets: Buckets, answers: seq<bool>)

  /** The limiter after the events; one that does not evict ignores the sweeps. */
  function Run(rate: int, ttl: int, evicts: bool, events: seq<Event>): Limiter
    decreases |events|
  {
    if events == [] then Limiter(map[], [])
    else
      var before := Run(rate, ttl, evicts, events[..|events| - 1]);
      match events[|events| - 1]
      case Request(client, at) =>
        var r := Allow(rate, before.buckets, client, at);
        Limiter(r.buckets, before.answers + [r.allowed])
      case Sweep(at) =>
        if evicts then before.(buckets := Cleanup(ttl, before.buckets, at)) else before
  }

  /** The shortest idle time after which a bucket can be evicted. */
  function MinimumIdle(ttl: int): int {
    if ttl + 1 < 0 then 0 else ttl + 1
  }

  /** The evicting limiter has forgotten only buckets that are due to be full again. */
  ghost predicate Forgets(rate: int, ttl: int, evicting: Buckets, keeping: Buckets, now: int) {
    && evicting.Keys <= keeping.Keys
    && (forall client :: client in keeping ==> Consistent(keeping[client], now) && keeping[client].capacity == rate)
    && (forall client :: client in evicting ==> evicting[client] == keeping[client])
    && (forall client :: client in keeping && client !in evicting ==>
          now - keeping[client].lastAccess >= MinimumIdle(ttl))
  }

  lemma {:induction false} SameAnswers(rate: int, ttl: int, events: seq<Event>, now: int)
    requires InOrder(events) && 0 < rate <= MinimumIdle(ttl) / SECOND
    requires events != [] ==> events[|events| - 1].at <= now
    ensures Run(rate, ttl, true, events).answers == Run(rate, ttl, false, events).answers
    ensures Forgets(rate, ttl, Run(rate, ttl, true, events).buckets, Run(rate, ttl, false, events).buckets, now)
    decreases |events|
  {
    if events != [] {
      var n := |events| - 1;
      var at := events[n].at;
      if n > 0 {
        assert events[n - 1].at <= events[n].at;
      }
      SameAnswers(rate, ttl, events[..n], at);
      var evicting, keeping := Run(rate, ttl, true, events[..n]), Run(rate, ttl, false, events[..n]);
      if events[n].Request? {
        SameReply(rate, ttl, evicting.buckets, keeping.buckets, events[n].client, at);
      }
    }
  }

  /** A forgotten bucket and the one kept in its stead serve the next request alike. */
  lemma {:induction false} SameReply(rate: int, ttl: int, evicting: Buckets, keeping: Buckets, client: string, now: int)
    requires 0 < rate <= MinimumIdle(ttl) / SECOND
    requires Forgets(rate, ttl, evicting, keeping, now)
    ensures var e, k := Allow(rate, evicting, client, now), Allow(rate, keeping, client, now);
            e.allowed == k.allowed && Forgets(rate, ttl, e.buckets, k.buckets, now)
  {
    if client in keeping {
      ConsumeKeepsConsistent(keeping[client], now);
      if client !in evicting {
        var b := keeping[client];
        assert now - b.lastRefill >= MinimumIdle(ttl);
        assert (now - b.lastRefill) / SECOND >= rate;
        assert Refill(b.(lastAccess := now), now) == FreshBucket(rate, now);
      }
    }
  }

  /** The answers that one client got. */
  function AnswersTo(client: string, rate: int, ttl: int, evicts: bool, events: seq<Event>): seq<bool>
    decreases |events|
  {
    if events == [] then []
    else
      var before, last := events[..|events| - 1], events[|events| - 1];
      var answers := AnswersTo(client, rate, ttl, evicts, before);
      if last.Request? && last.client == client
      then answers + [Allow(rate, Run(rate, ttl, evicts, before).buckets, client, last.at).allowed]
      else answers
  }

  /** The events without the requests of other clients. */
  function Own(client: string, events: seq<Event>): seq<Event>
    decreases |events|
  {
    if events == [] then []
    else
      var own, last := Own(client, events[..|events| - 1]), events[|events| - 1];
      if last.Request? && last.client != client then own else own + [last]
  }

  /** What two limiters agree on about one client: the bucket, or that there is none. */
  predicate AgreeOn(client: string, m: Buckets, m': Buckets) {
    (client in m <==> client in m') && (client in m ==> m[client] == m'[client])
  }

  lemma {:induction false} RunOneMore(rate: int, ttl: int, evicts: bool, events: seq<Event>, last: Event)
    ensures var before, after := Run(rate, ttl, evicts, events), Run(rate, ttl, evicts, events + [last]);
            match last
            case Request(client, at) =>
              var r := Allow(rate, before.buckets, client, at);
              after == Limiter(r.buckets, before.answers + [r.allowed])
            case Sweep(at) =>
              after == before.(buckets := if evicts then Cleanup(ttl, before.buckets, at) else before.buckets)
  {
    assert (events + [last])[..|events|] == events;
  }

  lemma {:induction false} AllowAgrees(client: string, rate: int, m: Buckets, m': Buckets, asking: string, at: int)
    requires AgreeOn(client, m, m')
    ensures asking == client ==> Allow(rate, m, client, at).allowed == Allow(rate, m', client, at).allowed
    ensures asking == client ==>
              AgreeOn(client, Allow(rate, m, client, at).buckets, Allow(rate, m', client, at).buckets)
    ensures asking != client ==> AgreeOn(client, Allow(rate, m, asking, at).buckets, m')
  {
  }

  /** A client's answers depend on its own requests only: other clients might as well not exist. */
  lemma {:induction false} ClientsAreIndependent(client: string, rate: int, ttl: int, evicts: bool, events: seq<Event>)
    ensures AnswersTo(client, rate, ttl, evicts, events) == Run(rate, ttl, evicts, Own(client, events)).answers
    ensures AgreeOn(client, Run(rate, ttl, evicts, events).buckets, Run(rate, ttl, evicts, Own(client, events)).buckets)
    decreases |events|
  {
    if events != [] {
      var before, last := events[..|events| - 1], events[|events| - 1];
      ClientsAreIndependent(client, rate, ttl, evicts, before);
      RunOneMore(rate, ttl, evicts, before, last);
      RunOneMore(rate, ttl, evicts, Own(client, before), last);
      assert before + [last] == events;
      if last.Request? {
        AllowAgrees(client, rate, Run(rate, ttl, evicts, before).buckets,
                    Run(rate, ttl, evicts, Own(client, before)).buckets, last.client, last.at);
      }
    }
  }

  /** Without capacity nothing is ever allowed. */
  lemma {:induction false} NoCapacity(rate: int, ttl: int, evicts: bool, events: seq<Event>)
    requires rate <= 0
    ensures var l := Run(rate, ttl, evicts, events);
            && (forall client :: client in l.buckets ==>
                  l.buckets[client].tokens <= 0 && l.buckets[client].capacity == rate)
            && (forall i :: 0 <= i < |l.answers| ==> !l.answers[i])
    ensures |Run(rate, ttl, evicts, events).answers| == |Run(rate, ttl, !evicts, events).answers|
    decreases |events|
  {
    if events != [] {
      NoCapacity(rate, ttl, evicts, events[..|events| - 1]);
    }
  }

  /** `count` requests of one client at one instant, after the given events. */
  function ThenRequests(events: seq<Event>, at: int, count: nat): seq<Event> {
    if count == 0 then events else ThenRequests(events, at, count - 1) + [Request("client", at)]
  }

  lemma {:induction false} BurstInOrder(events: seq<Event>, at: int, count: nat)
    requires InOrder(events) && forall i :: 0 <= i < |events| ==> events[i].at <= at
    ensures InOrder(ThenRequests(events, at, count))
    ensures forall i :: 0 <= i < |ThenRequests(events, at, count)| ==> ThenRequests(events, at, count)[i].at <= at
  {
    if count > 0 {
      BurstInOrder(events, at, count - 1);
    }
  }

  /** The bucket that serves the client next. */
  function Current(rate: int, l: Limiter, at: int): Bucket {
    if "client" in l.buckets then l.buckets["client"] else FreshBucket(rate, at)
  }

  lemma {:induction false} OneRequest(rate: int, ttl: int, evicts: bool, events: seq<Event>, at: int)
    ensures var before := Run(rate, ttl, evicts, events);
            var after := Run(rate, ttl, evicts, events + [Request("client", at)]);
            var s := Consume(Current(rate, before, at), at);
            && "client" in after.buckets && after.buckets["client"] == s.bucket
            && after.answers == before.answers + [s.allowed]
  {
    assert (events + [Request("client", at)])[..|events|] == events;
  }

  lemma {:induction false} RefilledOnce(b: Bucket, at: int, tokens: int)
    ensures var r := Refill(b, at).(tokens := tokens, lastAccess := at); Refill(r, at) == r
  {
  }

  /** Requests at one instant are answered yes as long as the refilled bucket lasts. */
  lemma {:induction false} Burst(rate: int, ttl: int, evicts: bool, events: seq<Event>, at: int, b: Bucket, count: nat)
    requires b == Current(rate, Run(rate, ttl, evicts, events), at)
    requires 0 < count <= Refill(b, at).tokens
    ensures var after := Run(rate, ttl, evicts, ThenRequests(events, at, count));
            && "client" in after.buckets
            && after.buckets["client"] == Refill(b, at).(tokens := Refill(b, at).tokens - count, lastAccess := at)
            && after.answers != [] && after.answers[|after.answers| - 1]
    decreases count
  {
    OneRequest(rate, ttl, evicts, ThenRequests(events, at, count - 1), at);
    if count > 1 {
      Burst(rate, ttl, evicts, events, at, b, count - 1);
      RefilledOnce(b, at, Refill(b, at).tokens - (count - 1));
    }
  }

  /** A schedule that tells an evicting limiter apart: drain, idle just long enough, ask for one more than is due. */
  function TellTale(rate: int, ttl: int): seq<Event>
    requires rate > 0
  {
    var at := MinimumIdle(ttl);
    ThenRequests(ThenRequests([], 0, rate) + [Sweep(at)], at, at / SECOND + 1)
  }

  lemma {:induction false} TellTaleDiffers(rate: int, ttl: int)
    requires rate > 0 && rate > MinimumIdle(ttl) / SECOND
    ensures InOrder(TellTale(rate, ttl))
    ensures Run(rate, ttl, true, TellTale(rate, ttl)).answers != Run(rate, ttl, false, TellTale(rate, ttl)).answers
  {
    TellTaleInOrder(rate, ttl);
    EvictingAllowsLast(rate, ttl);
    KeepingRefusesLast(rate, ttl);
  }

  lemma {:induction false} TellTaleInOrder(rate: int, ttl: int)
    requires rate > 0
    ensures InOrder(TellTale(rate, ttl))
  {
    var at := MinimumIdle(ttl);
    BurstInOrder([], 0, rate);
    BurstInOrder(ThenRequests([], 0, rate) + [Sweep(at)], at, at / SECOND + 1);
  }

  /** The evicting limiter starts afresh after the sweep. */
  lemma {:induction false} EvictingAllowsLast(rate: int, ttl: int)
    requires rate > 0 && rate > MinimumIdle(ttl) / SECOND
    ensures var answers := Run(rate, ttl, true, TellTale(rate, ttl)).answers;
            answers != [] && answers[|answers| - 1]
  {
    var at := MinimumIdle(ttl);
    AfterSweep(rate, ttl, true);
    Burst(rate, ttl, true, ThenRequests([], 0, rate) + [Sweep(at)], at, FreshBucket(rate, at), at / SECOND + 1);
  }

  /** The keeping limiter has earned one token fewer than it is asked for. */
  lemma {:induction false} KeepingRefusesLast(rate: int, ttl: int)
    requires rate > 0 && rate > MinimumIdle(ttl) / SECOND
    ensures var answers := Run(rate, ttl, false, TellTale(rate, ttl)).answers;
            answers != [] && !answers[|answers| - 1]
  {
    var at := MinimumIdle(ttl);
    var due := at / SECOND;
    var swept := ThenRequests([], 0, rate) + [Sweep(at)];
    var kept := Bucket(0, rate, 0, 0);
    AfterSweep(rate, ttl, false);
    assert Refill(kept, at).tokens == due;
    if due > 0 {
      Burst(rate, ttl, false, swept, at, kept, due);
      RefilledOnce(kept, at, 0);
    } else {
      assert ThenRequests(swept, at, 0) == swept;
    }
    OneRequest(rate, ttl, false, ThenRequests(swept, at, due), at);
  }

  /** The bucket drained at time 0 is gone after the sweep, or still empty. */
  lemma {:induction false} AfterSweep(rate: int, ttl: int, evicts: bool)
    requires rate > 0
    ensures var l := Run(rate, ttl, evicts, ThenRequests([], 0, rate) + [Sweep(MinimumIdle(ttl))]);
            if evicts then "client" !in l.buckets
            else "client" in l.buckets && l.buckets["client"] == Bucket(0, rate, 0, 0)
  {
    var drain := ThenRequests([], 0, rate);
    Burst(rate, ttl, evicts, [], 0, FreshBucket(rate, 0), rate);
    assert (drain + [Sweep(MinimumIdle(ttl))])[..|drain|] == drain;
  }

  /**
   * Eviction is invisible, to every schedule of requests and sweeps under a nondecreasing clock,
   * exactly when the capacity refills within the shortest idle time before an eviction.
   */
  lemma {:induction false} EvictionInvisibleIff(rate: int, ttl: int)
    ensures (forall events: seq<Event> :: InOrder(events) ==>
               Run(rate, ttl, true, events).answers == Run(rate, ttl, false, events).answers)
            <==> (rate <= 0 || rate <= MinimumIdle(ttl) / SECOND)
  {
    if rate <= 0 {
      forall events: seq<Event> | InOrder(events)
        ensures Run(rate, ttl, true, events).answers == Run(rate, ttl, false, events).answers
      {
        NoCapacity(rate, ttl, true, events);
        NoCapacity(rate, ttl, false, events);
      }
    } else if rate <= MinimumIdle(ttl) / SECOND {
      forall events: seq<Event> | InOrder(events)
        ensures Run(rate, ttl, true, events).answers == Run(rate, ttl, false, events).answers
      {
        SameAnswers(rate, ttl, events, if events == [] then 0 else events[|events| - 1].at);
      }
    } else {
      TellTaleDiffers(rate, ttl);
    }
  }
}
