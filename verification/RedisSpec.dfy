/** The shared store: the worker counter, the worker keys with their expiry, and the atomic scripts on them. */
module RedisSpec {
  import opened Bits

  // ----- The counter -----

  datatype Counter = Counter(stored: int, returned: int)

  /** The INCR script: counts up, and starts over when the total is exceeded. */
  function IncrWithReset(counter: int, total: int): Counter
    requires total > 0
  {
    var incremented := counter + 1;
    if incremented > total then
      var next := ((incremented - 1) % total) + 1;
      Counter(next, next)
    else
      Counter(incremented, incremented)
  }

  /** The counter after n executions of the script. */
  function CounterAfter(counter: int, total: int, n: nat): int
    requires total > 0
  {
    if n == 0 then counter else IncrWithReset(CounterAfter(counter, total, n - 1), total).stored
  }

  /** What execution number n, counted from zero, returns. */
  function Returned(counter: int, total: int, n: nat): int
    requires total > 0
  {
    IncrWithReset(CounterAfter(counter, total, n), total).returned
  }

  lemma {:induction false} NextResidue(r: int, total: int)
    requires total > 0 && 0 <= r < total
    ensures ((r + 1) % total) == if r + 1 == total then 0 else r + 1
  {
  }

  lemma {:induction false} ResidueOfNext(x: int, total: int)
    requires total > 0 && x >= 0
    ensures (x + 1) % total == (x % total + 1) % total
  {
    var q, r := x / total, x % total;
    NextResidue(r, total);
    if r + 1 == total {
      assert x + 1 == (q + 1) * total;
      DivModUnique(x + 1, total, q + 1, 0);
    } else {
      DivModUnique(x + 1, total, q, r + 1);
    }
  }

  /** The script returns the successor residue of the stored counter. */
  lemma {:induction false} ReturnsSuccessorResidue(counter: int, total: int)
    requires total > 0 && counter >= 0
    ensures IncrWithReset(counter, total) == Counter(counter % total + 1, counter % total + 1)
  {
    if counter < total {
      DivModUnique(counter, total, 0, counter);
    }
  }

  lemma {:induction false} ReturnedValue(counter: int, total: int, n: nat)
    requires total > 0 && counter >= 0
    ensures CounterAfter(counter, total, n) >= 0
    ensures n > 0 ==> CounterAfter(counter, total, n) == Returned(counter, total, n - 1)
    ensures Returned(counter, total, n) == (counter + n) % total + 1
  {
    if n > 0 {
      ReturnedValue(counter, total, n - 1);
      var x := counter + (n - 1);
      // the counter holds x % total + 1
      ResidueOfNext(x, total);
      NextResidue(x % total, total);
      var c := CounterAfter(counter, total, n);
      ReturnsSuccessorResidue(c, total);
      if x % total + 1 == total {
        DivModUnique(total, total, 1, 0);
      } else {
        DivModUnique(c, total, 0, c);
      }
    } else {
      ReturnsSuccessorResidue(counter, total);
    }
  }

  lemma {:induction false} ResiduesDistinct(x: int, i: int, j: int, total: int)
    requires total > 0 && 0 <= i < j < i + total
    ensures (x + i) % total != (x + j) % total
  {
    var e := (x + j) / total - (x + i) / total;
    assert e * total == (j - i) + (x + i) % total - (x + j) % total;
    assert e <= 0 ==> e * total <= 0;
    assert e >= 1 ==> e * total >= total;
  }

  /** The execution, counted from zero, of any window that returns `value`. */
  function WhenReturned(counter: int, total: int, value: int): nat
    requires total > 0 && counter >= 0 && 1 <= value <= total
  {
    (value - 1 - counter) % total
  }

  lemma {:induction false} SumOfResidue(counter: int, d: int, total: int)
    requires total > 0
    ensures (counter + (d - counter) % total) % total == d % total
  {
    var q := (d - counter) / total;
    var r := (d - counter) % total;
    assert counter + r == d - q * total;
    var q2 := d / total;
    assert d - q * total == (q2 - q) * total + d % total by {
      assert d == q2 * total + d % total;
    }
    DivModUnique(counter + r, total, q2 - q, d % total);
  }

  /**
   * Full cycle: of any `total` consecutive executions, by whomever, exactly one returns each value
   * in 1..total. They start from whatever non-negative counter `skipped` earlier executions left.
   */
  lemma {:induction false} FullCycle(counter: int, total: int, skipped: nat, value: int)
    requires total > 0 && counter >= 0 && 1 <= value <= total
    ensures exists i :: skipped <= i < skipped + total && Returned(counter, total, i) == value
    ensures forall i, j :: skipped <= i < j < skipped + total ==>
              Returned(counter, total, i) != Returned(counter, total, j)
  {
    var i := skipped + WhenReturned(counter + skipped, total, value);
    ReturnedValue(counter, total, i);
    SumOfResidue(counter + skipped, value - 1, total);
    DivModUnique(value - 1, total, 0, value - 1);
    assert Returned(counter, total, i) == value;
    forall i: int, j: int | skipped <= i < j < skipped + total
      ensures Returned(counter, total, i) != Returned(counter, total, j)
    {
      ReturnedValue(counter, total, i);
      ReturnedValue(counter, total, j);
      ResiduesDistinct(counter, i, j, total);
    }
  }

  /** Every value returned is in 1..total. */
  lemma {:induction false} ReturnedInRange(counter: int, total: int, n: nat)
    requires total > 0 && counter >= 0
    ensures 1 <= Returned(counter, total, n) <= total
  {
    ReturnedValue(counter, total, n);
  }

  // ----- The worker keys; times in milliseconds -----

  /** The value of a worker key: whose registration it is, and until when it is kept. */
  datatype Record = Record(instanceID: int, expiry: int)

  type Keys<K> = map<K, Record>

  /** A key can be seen up to and including its expiry instant. */
  predicate Visible<K>(keys: Keys<K>, key: K, now: int) {
    key in keys && now <= keys[key].expiry
  }

  datatype SetReply<K> = SetReply(keys: Keys<K>, success: bool)

  function SetNX<K>(keys: Keys<K>, key: K, instanceID: int, now: int, ttl: int): SetReply<K> {
    if Visible(keys, key, now) then SetReply(keys, false)
    else SetReply(keys[key := Record(instanceID, now + ttl)], true)
  }

  datatype BeatCode = Refreshed | TakenByAnother | Missing

  datatype BeatReply<K> = BeatReply(keys: Keys<K>, code: BeatCode)

  /** Whole seconds only: the script is handed the TTL without its fraction. */
  function WholeSeconds(ttl: int): int {
    (ttl / 1000) * 1000
  }

  /** The heartbeat script: refreshes the key if it still belongs to the caller. */
  function Heartbeat<K>(keys: Keys<K>, key: K, instanceID: int, now: int, ttl: int): BeatReply<K> {
    if !Visible(keys, key, now) then BeatReply(keys, Missing)
    else if keys[key].instanceID != instanceID then BeatReply(keys, TakenByAnother)
    else BeatReply(keys[key := Record(instanceID, now + WholeSeconds(ttl))], Refreshed)
  }

  /** Get and guarded Del: removes the key if it still belongs to the caller. */
  function DeleteIfOwned<K>(keys: Keys<K>, key: K, instanceID: int, now: int): Keys<K> {
    if Visible(keys, key, now) && keys[key].instanceID == instanceID then keys - {key} else keys
  }
}
