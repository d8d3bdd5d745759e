/** Whether heartbeats come often enough: an instance's own key under late and failed beats. Times in milliseconds. */
module HeartbeatSlack {
  import opened RedisSpec

  /** One tick of the heartbeat: how long after it the script runs, or that the beat fails. */
  datatype Beat = Beat(lag: nat, ok: bool)

  /** When the script of beat n runs; ticks are counted from 1, an interval apart. */
  function RunsAt(start: int, interval: nat, beats: seq<Beat>, n: nat): int
    requires n < |beats|
  {
    start + (n + 1) * interval + beats[n].lag
  }

  /** The key after a registration at `start` and the first n beats. */
  function KeyAfter(id: int, start: int, ttl: int, interval: nat, beats: seq<Beat>, n: nat): Keys<int>
    requires n <= |beats|
  {
    if n == 0 then SetNX(map[], 0, id, start, ttl).keys
    else
      var before := KeyAfter(id, start, ttl, interval, beats, n - 1);
      if beats[n - 1].ok then Heartbeat(before, 0, id, RunsAt(start, interval, beats, n - 1), ttl).keys else before
  }

  /** No two beats in a row fail, and every script runs within `lateness` of its tick. */
  predicate Disciplined(beats: seq<Beat>, lateness: nat) {
    && (forall n :: 0 <= n < |beats| ==> beats[n].lag <= lateness)
    && (forall n :: 0 <= n < |beats| - 1 ==> beats[n].ok || beats[n + 1].ok)
  }

  /** When its script runs, beat n finds the key still there and still its own. */
  predicate FindsKey(id: int, start: int, ttl: int, interval: nat, beats: seq<Beat>, n: nat)
    requires n < |beats|
  {
    var keys := KeyAfter(id, start, ttl, interval, beats, n);
    Heartbeat(keys, 0, id, RunsAt(start, interval, beats, n), ttl).code == Refreshed
  }

  ghost predicate NeverLost(id: int, start: int, ttl: int, interval: nat, beats: seq<Beat>) {
    forall n :: 0 <= n < |beats| ==> FindsKey(id, start, ttl, interval, beats, n)
  }

  /** The key outlasts the beat after next of the last successful one. */
  lemma {:induction false} KeyOutlasts(id: int, start: int, ttl: int, interval: nat, beats: seq<Beat>, lateness: nat,
                                       n: nat)
    requires n <= |beats| && Disciplined(beats, lateness)
    requires ttl >= 0 && 2 * interval + lateness <= WholeSeconds(ttl)
    ensures var keys := KeyAfter(id, start, ttl, interval, beats, n);
            && 0 in keys && keys[0].instanceID == id
            && keys[0].expiry
               >= start + n * interval + (if n == 0 || beats[n - 1].ok then 2 else 1) * interval + lateness
    ensures forall m :: 0 <= m < n ==> FindsKey(id, start, ttl, interval, beats, m)
    decreases n
  {
    if n > 0 {
      KeyOutlasts(id, start, ttl, interval, beats, lateness, n - 1);
      Scale(n, interval);
      assert beats[n - 1].lag <= lateness;
      assert FindsKey(id, start, ttl, interval, beats, n - 1);
    }
  }

  lemma {:induction false} Scale(n: nat, interval: nat)
    requires n > 0
    ensures n * interval == (n - 1) * interval + interval
  {
  }

  /** One beat on time, one failed, and the next as late as allowed. */
  function Worst(lateness: nat): seq<Beat> {
    [Beat(0, true), Beat(0, false), Beat(lateness, true)]
  }

  lemma {:induction false} WorstLosesKey(id: int, start: int, ttl: int, interval: nat, lateness: nat)
    requires ttl >= 0 && 2 * interval + lateness > WholeSeconds(ttl)
    ensures Disciplined(Worst(lateness), lateness) && !NeverLost(id, start, ttl, interval, Worst(lateness))
  {
    var beats := Worst(lateness);
    if FindsKey(id, start, ttl, interval, beats, 0) {
      var once := KeyAfter(id, start, ttl, interval, beats, 1);
      assert once[0] == Record(id, start + interval + WholeSeconds(ttl));
      assert KeyAfter(id, start, ttl, interval, beats, 2) == once;
      assert RunsAt(start, interval, beats, 2) == start + 3 * interval + lateness;
      assert !FindsKey(id, start, ttl, interval, beats, 2);
    }
  }

  /**
   * A key is never lost to any disciplined schedule exactly when two intervals and the lateness fit
   * into the TTL without its fraction of a second.
   */
  lemma {:induction false} NeverLostIff(id: int, start: int, ttl: int, interval: nat, lateness: nat)
    requires ttl >= 0
    ensures (forall beats :: Disciplined(beats, lateness) ==> NeverLost(id, start, ttl, interval, beats))
            <==> 2 * interval + lateness <= WholeSeconds(ttl)
  {
    if 2 * interval + lateness <= WholeSeconds(ttl) {
      forall beats | Disciplined(beats, lateness)
        ensures NeverLost(id, start, ttl, interval, beats)
      {
        KeyOutlasts(id, start, ttl, interval, beats, lateness, |beats|);
      }
    } else {
      WorstLosesKey(id, start, ttl, interval, lateness);
    }
  }

  /** The settings that configuration validation accepts. */
  predicate Validated(ttl: int, interval: int) {
    10_000 <= ttl <= 86_400_000 && 1_000 <= interval <= 3_600_000 && interval < ttl && ttl >= interval * 3
  }

  /** Validated settings leave room for scripts that run up to two seconds late. */
  lemma {:induction false} ValidatedSettingsNeverLoseKey(id: int, start: int, ttl: int, interval: int, beats: seq<Beat>)
    requires Validated(ttl, interval) && Disciplined(beats, 2_000)
    ensures NeverLost(id, start, ttl, interval, beats)
  {
    NeverLostIff(id, start, ttl, interval, 2_000);
  }
}
