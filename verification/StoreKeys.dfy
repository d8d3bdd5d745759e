/** The names under which the store's entries are kept, and the format of a registry member. */
module StoreKeys {

  datatype Option<T> = None | Some(value: T)

  // ----- Numbers as text -----

  predicate IsDigit(c: char) {
    '0' <= c <= '9'
  }

  function DigitValue(c: char): (v: int)
    requires IsDigit(c)
    ensures 0 <= v <= 9 && DigitFor(v) == c
  {
    c as int - '0' as int
  }

  function DigitFor(v: int): (c: char)
    requires 0 <= v <= 9
    ensures IsDigit(c)
  {
    ('0' as int + v) as char
  }

  predicate AllDigits(s: string) {
    forall i :: 0 <= i < |s| ==> IsDigit(s[i])
  }

  function Digits(n: nat): (s: string)
    ensures s != [] && AllDigits(s)
  {
    if n < 10 then [DigitFor(n)] else Digits(n / 10) + [DigitFor(n % 10)]
  }

  /** The decimal form that the verb %d prints. */
  function Decimal(n: int): string {
    if n < 0 then "-" + Digits(-n) else Digits(n)
  }

  function Value(s: string): (n: int)
    requires AllDigits(s)
    ensures n >= 0
  {
    if s == [] then 0 else 10 * Value(s[..|s| - 1]) + DigitValue(s[|s| - 1])
  }

  const MAX_INT64: int := 0x7FFF_FFFF_FFFF_FFFF

  predicate IsInt64(n: int) {
    -MAX_INT64 - 1 <= n <= MAX_INT64
  }

  /** strconv.ParseInt in base 10 for 64 bits: an optional sign, digits, and the range check. */
  function ParseInt(s: string): Option<int> {
    var signed := s != [] && (s[0] == '-' || s[0] == '+');
    var rest := if signed then s[1..] else s;
    if rest == [] || !AllDigits(rest) then None
    else
      var n := if signed && s[0] == '-' then -Value(rest) else Value(rest);
      if IsInt64(n) then Some(n) else None
  }

  lemma {:induction false} ValueAppend(s: string, v: int)
    requires AllDigits(s) && 0 <= v <= 9
    ensures Value(s + [DigitFor(v)]) == 10 * Value(s) + v
  {
    var t := s + [DigitFor(v)];
    assert t[..|t| - 1] == s && t[|t| - 1] == DigitFor(v);
  }

  lemma {:induction false} ValueOfDigits(n: nat)
    ensures Value(Digits(n)) == n
  {
    if n < 10 {
      ValueAppend([], n);
      assert [] + [DigitFor(n)] == Digits(n);
    } else {
      ValueOfDigits(n / 10);
      ValueAppend(Digits(n / 10), n % 10);
    }
  }

  /** Digits read without a sign, and after one. */
  lemma {:induction false} ParseOfDigits(s: string)
    requires s != [] && AllDigits(s)
    ensures ParseInt(s) == if IsInt64(Value(s)) then Some(Value(s)) else None
    ensures ParseInt("-" + s) == if IsInt64(-Value(s)) then Some(-Value(s)) else None
  {
    assert IsDigit(s[0]);
    assert ("-" + s)[0] == '-' && ("-" + s)[1..] == s;
  }

  /** What is printed is read back, exactly for the numbers that fit 64 bits. */
  lemma {:induction false} ParseOfDecimal(n: int)
    ensures ParseInt(Decimal(n)) == if IsInt64(n) then Some(n) else None
  {
    var magnitude: nat := if n < 0 then -n else n;
    ValueOfDigits(magnitude);
    ParseOfDigits(Digits(magnitude));
  }

  lemma {:induction false} ValueDetermines(m: int, n: int)
    ensures Decimal(m) == Decimal(n) <==> m == n
  {
    ValueOfDigits(if m < 0 then -m else m);
    ValueOfDigits(if n < 0 then -n else n);
    assert m < 0 ==> Decimal(m)[0] == '-' && Decimal(m)[1..] == Digits(-m);
    assert n < 0 ==> Decimal(n)[0] == '-' && Decimal(n)[1..] == Digits(-n);
    assert m >= 0 ==> IsDigit(Decimal(m)[0]);
    assert n >= 0 ==> IsDigit(Decimal(n)[0]);
  }

  lemma {:induction false} DecimalHasNoColon(n: int)
    ensures ':' !in Decimal(n) && IsDigit(Decimal(n)[|Decimal(n)| - 1])
  {
    var s := Digits(if n < 0 then -n else n);
    assert forall i :: 0 <= i < |s| ==> IsDigit(s[i]);
    assert n < 0 ==> Decimal(n) == "-" + s;
  }

  // ----- Keys -----

  const DEFAULT_PREFIX: string := "lynx:eon-id:"

  /** A prefix ends in a separator; an empty one is the default. */
  function NormalizeKeyPrefix(prefix: string): (p: string)
    ensures p != [] && (p[|p| - 1] == ':' || p[|p| - 1] == '_')
    ensures prefix == [] ==> p == DEFAULT_PREFIX
    ensures prefix != [] ==> p == prefix || p == prefix + ":"
    ensures prefix != [] && (prefix[|prefix| - 1] == ':' || prefix[|prefix| - 1] == '_') ==> p == prefix
  {
    if prefix == [] then DEFAULT_PREFIX
    else if prefix[|prefix| - 1] != ':' && prefix[|prefix| - 1] != '_' then prefix + ":"
    else prefix
  }

  function WorkerKey(prefix: string, datacenter: int, worker: int): string {
    prefix + "dc:" + Decimal(datacenter) + ":worker:" + Decimal(worker)
  }

  function CounterKey(prefix: string, datacenter: int): string {
    prefix + "dc:" + Decimal(datacenter) + ":counter"
  }

  function RegistryKey(prefix: string): string {
    prefix + "registry"
  }

  /** Text is cut at its last separator in one way only. */
  lemma {:induction false} CutAtLast(a: string, x: string, b: string, y: string, c: char)
    requires a + [c] + x == b + [c] + y && c !in x && c !in y
    ensures a == b && x == y
  {
    var s := a + [c] + x;
    var t := b + [c] + y;
    assert s[|a|] == c && t[|b|] == c;
    assert forall i :: |a| < i < |s| ==> s[i] == x[i - |a| - 1];
    assert forall i :: |b| < i < |t| ==> t[i] == y[i - |b| - 1];
    assert |a| == |b|;
    assert a == s[..|a|] && b == t[..|b|] && x == s[|a| + 1..] && y == t[|b| + 1..];
  }

  lemma {:induction false} WorkerKeyParts(prefix: string, datacenter: int, worker: int)
    ensures WorkerKey(prefix, datacenter, worker)
            == (((prefix + "dc") + ":" + Decimal(datacenter)) + ":" + "worker") + ":" + Decimal(worker)
  {
  }

  /**
   * A worker key names one worker id of one datacenter under one prefix: instances share a key exactly
   * when they share all three.
   */
  lemma {:induction false} WorkerKeysCollideIff(p: string, d: int, w: int, p': string, d': int, w': int)
    ensures WorkerKey(p, d, w) == WorkerKey(p', d', w') <==> p == p' && d == d' && w == w'
  {
    if WorkerKey(p, d, w) == WorkerKey(p', d', w') {
      WorkerKeyParts(p, d, w);
      WorkerKeyParts(p', d', w');
      DecimalHasNoColon(w);
      DecimalHasNoColon(w');
      DecimalHasNoColon(d);
      DecimalHasNoColon(d');
      var upper, upper' := (p + "dc") + ":" + Decimal(d), (p' + "dc") + ":" + Decimal(d');
      CutAtLast(upper + ":" + "worker", Decimal(w), upper' + ":" + "worker", Decimal(w'), ':');
      CutAtLast(upper, "worker", upper', "worker", ':');
      CutAtLast(p + "dc", Decimal(d), p' + "dc", Decimal(d'), ':');
      ValueDetermines(d, d');
      ValueDetermines(w, w');
      assert (p + "dc")[..|p|] == p && (p' + "dc")[..|p'|] == p';
    }
  }

  lemma {:induction false} CounterKeyParts(prefix: string, datacenter: int)
    ensures CounterKey(prefix, datacenter) == ((prefix + "dc") + ":" + Decimal(datacenter)) + ":" + "counter"
  {
  }

  lemma {:induction false} CounterKeysCollideIff(p: string, d: int, p': string, d': int)
    ensures CounterKey(p, d) == CounterKey(p', d') <==> p == p' && d == d'
  {
    if CounterKey(p, d) == CounterKey(p', d') {
      DecimalHasNoColon(d);
      DecimalHasNoColon(d');
      var upper, upper' := (p + "dc") + ":" + Decimal(d), (p' + "dc") + ":" + Decimal(d');
      CounterKeyParts(p, d);
      CounterKeyParts(p', d');
      CutAtLast(upper, "counter", upper', "counter", ':');
      CutAtLast(p + "dc", Decimal(d), p' + "dc", Decimal(d'), ':');
      ValueDetermines(d, d');
      assert (p + "dc")[..|p|] == p && (p' + "dc")[..|p'|] == p';
    }
  }

  /** Worker keys, counters and registries never get in each other's way, whatever the prefixes. */
  lemma {:induction false} KindsOfKeysDisjoint(p: string, d: int, w: int, q: string, e: int, r: string)
    ensures WorkerKey(p, d, w) != CounterKey(q, e)
    ensures WorkerKey(p, d, w) != RegistryKey(r)
    ensures CounterKey(q, e) != RegistryKey(r)
  {
    var worker, counter, registry := WorkerKey(p, d, w), CounterKey(q, e), RegistryKey(r);
    DecimalHasNoColon(w);
    assert worker[|worker| - 1] == Decimal(w)[|Decimal(w)| - 1];
    assert counter[|counter| - 1] == 'r' && registry[|registry| - 1] == 'y';
  }

  // ----- Registry members -----

  function RegistryMember(datacenter: int, worker: int): string {
    Decimal(datacenter) + ":" + Decimal(worker)
  }

  /** strings.Split at every colon. */
  function Split(s: string): (parts: seq<string>)
    ensures parts != []
    decreases |s|
  {
    if s == [] then [[]]
    else if s[0] == ':' then [[]] + Split(s[1..])
    else
      var rest := Split(s[1..]);
      [[s[0]] + rest[0]] + rest[1..]
  }

  datatype Member = Member(datacenter: int, worker: int)

  /** How the registry is read: two parts, both numbers, or the member is skipped. */
  function ParseMember(s: string): Option<Member> {
    var parts := Split(s);
    if |parts| != 2 then None
    else
      match (ParseInt(parts[0]), ParseInt(parts[1]))
      case (Some(d), Some(w)) => Some(Member(d, w))
      case _ => None
  }

  lemma {:induction false} SplitWithoutColon(s: string)
    requires ':' !in s
    ensures Split(s) == [s]
    decreases |s|
  {
    if s != [] {
      SplitWithoutColon(s[1..]);
      assert [s[0]] + s[1..] == s;
    }
  }

  lemma {:induction false} SplitAtColon(a: string, b: string)
    requires ':' !in a
    ensures Split(a + ":" + b) == [a] + Split(b)
    decreases |a|
  {
    var s := a + ":" + b;
    if a == [] {
      assert s[1..] == b;
    } else {
      SplitAtColon(a[1..], b);
      assert s[1..] == a[1..] + ":" + b;
      assert [a[0]] + a[1..] == a;
    }
  }

  /** A registry member is read back as the registration it was written for. */
  lemma {:induction false} MemberRoundTrip(datacenter: int, worker: int)
    ensures ParseMember(RegistryMember(datacenter, worker))
            == if IsInt64(datacenter) && IsInt64(worker) then Some(Member(datacenter, worker)) else None
  {
    DecimalHasNoColon(datacenter);
    DecimalHasNoColon(worker);
    SplitAtColon(Decimal(datacenter), Decimal(worker));
    SplitWithoutColon(Decimal(worker));
    ParseOfDecimal(datacenter);
    ParseOfDecimal(worker);
  }
}
