/** The layout of an identifier: how its four parts are packed into an int64 and read back. */
module Snowflake {
  import opened Bits
  import opened MixedRadix

  datatype Layout = Layout(datacenterBits: int, workerBits: int, sequenceBits: int) {

    /** The bit allocations that GeneratorConfig.Validate accepts. */
    predicate Accepted() {
      && datacenterBits + workerBits + sequenceBits <= 22
      && 0 <= datacenterBits <= 10
      && 1 <= workerBits <= 20
      && 1 <= sequenceBits <= 20
      && Pow2(datacenterBits) <= 1024
      && Pow2(workerBits) <= 65536
      && Pow2(sequenceBits) >= 100
      && sequenceBits >= (datacenterBits + workerBits + sequenceBits) / 3
    }

    function WorkerShift(): nat
      requires Accepted()
    {
      sequenceBits
    }

    function DatacenterShift(): nat
      requires Accepted()
    {
      workerBits + sequenceBits
    }

    function TimestampShift(): nat
      requires Accepted()
    {
      datacenterBits + workerBits + sequenceBits
    }

    /** The width that ParseID assumes for a timestamp. */
    function TimestampBits(): int
      requires Accepted()
    {
      var bits := 64 - TimestampShift();
      if bits < 41 then 41 else bits
    }

    function MaxDatacenter(): nat
      requires Accepted()
    {
      Pow2(datacenterBits) - 1
    }

    function MaxWorker(): nat
      requires Accepted()
    {
      Pow2(workerBits) - 1
    }

    function MaxSequence(): nat
      requires Accepted()
    {
      Pow2(sequenceBits) - 1
    }

    /** How many milliseconds after its epoch a layout keeps identifiers non-negative. */
    function Lifetime(): nat
      requires Accepted()
    {
      Pow2(63 - TimestampShift())
    }
  }

  datatype Parts = Parts(timestamp: int, datacenter: int, worker: int, sequence: int)

  datatype ParseResult = Parsed(parts: Parts) | Negative | TimestampOutOfRange

  /** Every part but the timestamp fits its field. */
  predicate FitsFields(l: Layout, p: Parts)
    requires l.Accepted()
  {
    && 0 <= p.datacenter <= l.MaxDatacenter()
    && 0 <= p.worker <= l.MaxWorker()
    && 0 <= p.sequence <= l.MaxSequence()
  }

  /** The timestamp is at or after the epoch and the layout has not run out. */
  predicate InLifetime(l: Layout, epoch: int, timestamp: int)
    requires l.Accepted()
  {
    epoch <= timestamp < epoch + l.Lifetime()
  }

  /** The four parts combined by shifts and bitwise or. */
  function Pack(l: Layout, epoch: int, p: Parts): int
    requires l.Accepted() && FitsFields(l, p)
  {
    PackedWordFits(l, epoch, p);
    Signed64(PackedWord(l, epoch, p))
  }

  function PackedWord(l: Layout, epoch: int, p: Parts): nat
    requires l.Accepted() && FitsFields(l, p)
  {
    Or(Or(Or(Shl64(p.timestamp - epoch, l.TimestampShift()),
             Shl64(p.datacenter, l.DatacenterShift())),
          Shl64(p.worker, l.WorkerShift())),
       p.sequence)
  }

  /** The parts read back from an identifier by shifts and masks. */
  function Parse(l: Layout, epoch: int, id: int): ParseResult
    requires l.Accepted()
  {
    if id < 0 then Negative
    else
      var sequence := And(id, l.MaxSequence());
      var worker := And(Shr(id, l.WorkerShift()), l.MaxWorker());
      var datacenter := And(Shr(id, l.DatacenterShift()), l.MaxDatacenter());
      var timestamp := Shr(id, l.TimestampShift()) + epoch;
      var maxTimestamp := epoch + (Pow2(l.TimestampBits()) - 1);
      if timestamp < epoch || timestamp > maxTimestamp then TimestampOutOfRange
      else Parsed(Parts(timestamp, datacenter, worker, sequence))
  }

  /** The four fields side by side, as one number; `high` is the offset from the epoch. */
  function Sum(l: Layout, high: int, p: Parts): int
    requires l.Accepted()
  {
    Horner(high, Pow2(l.datacenterBits), p.datacenter, Pow2(l.workerBits), p.worker, Pow2(l.sequenceBits), p.sequence)
  }

  /** Every shift is the product of the bases below it. */
  lemma {:induction false} ShiftsMultiplyBases(l: Layout)
    requires l.Accepted()
    ensures Pow2(l.DatacenterShift()) == Pow2(l.workerBits) * Pow2(l.sequenceBits)
    ensures Pow2(l.TimestampShift()) == Pow2(l.datacenterBits) * (Pow2(l.workerBits) * Pow2(l.sequenceBits))
  {
    Pow2Add(l.workerBits, l.sequenceBits);
    Pow2Add(l.datacenterBits, l.workerBits + l.sequenceBits);
  }

  /** Every field in its own place. */
  lemma {:induction false} SumOfShiftedFields(l: Layout, high: int, p: Parts)
    requires l.Accepted()
    ensures Sum(l, high, p) == high * Pow2(l.TimestampShift()) + p.datacenter * Pow2(l.DatacenterShift())
                               + p.worker * Pow2(l.WorkerShift()) + p.sequence
  {
    ShiftsMultiplyBases(l);
    HornerScaled(high, Pow2(l.datacenterBits), p.datacenter, Pow2(l.workerBits), p.worker,
                 Pow2(l.sequenceBits), p.sequence);
  }

  /** A field that ends at or below bit 64 is shifted without loss, and stays below its end. */
  lemma {:induction false} ShlFits(x: nat, m: nat, n: nat)
    requires x < Pow2(m) && m + n <= 64
    ensures Shl64(x, n) == x * Pow2(n) < Pow2(m + n)
  {
    ShlKeepsLowBits(x, n);
    Pow2Monotone(m, 64 - n);
    DivModUnique(x, Pow2(64 - n), 0, x);
    Pow2Add(m, n);
    DigitAscends(x, Pow2(m), Pow2(n), 0, 0);
  }

  /** One more field or-ed in below a number whose lower bits are clear. */
  lemma {:induction false} OrField(upper: nat, base: nat, field: nat, bits: nat, shift: nat)
    requires base == upper * Pow2(bits + shift) && field < Pow2(bits)
    ensures Or(base, field * Pow2(shift)) == (upper * Pow2(bits) + field) * Pow2(shift)
  {
    Pow2Add(bits, shift);
    DigitAscends(field, Pow2(bits), Pow2(shift), 0, 0);
    MulMonotone(0, field, Pow2(shift));
    OrDisjoint(upper, field * Pow2(shift), bits + shift);
    MulAssociates(upper, Pow2(bits), Pow2(shift));
    Distribute(upper * Pow2(bits), field, Pow2(shift));
  }

  /** Or-ing three fields below a shifted number builds Horner's form. */
  lemma {:induction false} OrFields(high: nat, x: nat, y: nat, z: nat, db: nat, wb: nat, sb: nat)
    requires x < Pow2(db) && y < Pow2(wb) && z < Pow2(sb)
    ensures Or(Or(Or(high * Pow2(db + (wb + sb)), x * Pow2(wb + sb)), y * Pow2(sb)), z)
            == Horner(high, Pow2(db), x, Pow2(wb), y, Pow2(sb), z)
  {
    OrField(high, high * Pow2(db + (wb + sb)), x, db, wb + sb);
    var upper := high * Pow2(db) + x;
    OrField(upper, upper * Pow2(wb + sb), y, wb, sb);
    var middle := upper * Pow2(wb) + y;
    OrDisjoint(middle, z, sb);
  }

  /** The shift/or form is the arithmetic sum, with the timestamp offset cut to the bits left for it. */
  lemma {:induction false} PackedWordIsSum(l: Layout, epoch: int, p: Parts)
    requires l.Accepted() && FitsFields(l, p)
    ensures PackedWord(l, epoch, p) == Sum(l, (p.timestamp - epoch) % Pow2(64 - l.TimestampShift()), p)
  {
    var db, wb, sb := l.datacenterBits, l.workerBits, l.sequenceBits;
    var high := (p.timestamp - epoch) % Pow2(64 - l.TimestampShift());
    ShlKeepsLowBits(p.timestamp - epoch, l.TimestampShift());
    ShlFits(p.datacenter, db, wb + sb);
    ShlFits(p.worker, wb, sb);
    assert l.TimestampShift() == db + (wb + sb);
    OrFields(high, p.datacenter, p.worker, p.sequence, db, wb, sb);
    assert Shl64(p.timestamp - epoch, l.TimestampShift()) == high * Pow2(db + (wb + sb));
    assert PackedWord(l, epoch, p)
           == Or(Or(Or(high * Pow2(db + (wb + sb)), p.datacenter * Pow2(wb + sb)), p.worker * Pow2(sb)), p.sequence);
  }

  lemma {:induction false} PackedWordFits(l: Layout, epoch: int, p: Parts)
    requires l.Accepted() && FitsFields(l, p)
    ensures PackedWord(l, epoch, p) < Pow2(64)
  {
    PackedWordIsSum(l, epoch, p);
    SumBound(l, (p.timestamp - epoch) % Pow2(64 - l.TimestampShift()), p, 64 - l.TimestampShift());
  }

  /** The topmost field alone decides whether a sum stays below a power of two. */
  lemma {:induction false} SumBound(l: Layout, high: nat, p: Parts, m: nat)
    requires l.Accepted() && FitsFields(l, p)
    ensures 0 <= Sum(l, high, p)
    ensures high < Pow2(m) <==> Sum(l, high, p) < Pow2(m + l.TimestampShift())
  {
    ShiftsMultiplyBases(l);
    Pow2Add(m, l.TimestampShift());
    HornerBound(high, Pow2(l.datacenterBits), p.datacenter, Pow2(l.workerBits), p.worker,
                Pow2(l.sequenceBits), p.sequence, Pow2(m));
  }

  /** Until twice its lifetime has passed, a layout packs the whole timestamp offset. */
  lemma {:induction false} PackedWordKeepsTimestamp(l: Layout, epoch: int, p: Parts)
    requires l.Accepted() && FitsFields(l, p) && epoch <= p.timestamp < epoch + 2 * l.Lifetime()
    ensures PackedWord(l, epoch, p) == Sum(l, p.timestamp - epoch, p)
    ensures PackedWord(l, epoch, p) < Pow2(63) <==> InLifetime(l, epoch, p.timestamp)
  {
    var high := p.timestamp - epoch;
    SmallModPow2(high, 63 - l.TimestampShift());
    PackedWordIsSum(l, epoch, p);
    SumBound(l, high, p, 63 - l.TimestampShift());
  }

  lemma {:induction false} SmallModPow2(x: nat, n: nat)
    requires x < 2 * Pow2(n)
    ensures x % Pow2(n + 1) == x
  {
    DivModUnique(x, Pow2(n + 1), 0, x);
  }

  /** Within its lifetime a layout packs into the arithmetic sum of the shifted fields. */
  lemma {:induction false} PackIsSum(l: Layout, epoch: int, p: Parts)
    requires l.Accepted() && FitsFields(l, p) && InLifetime(l, epoch, p.timestamp)
    ensures Pack(l, epoch, p)
            == (p.timestamp - epoch) * Pow2(l.TimestampShift()) + p.datacenter * Pow2(l.DatacenterShift())
               + p.worker * Pow2(l.WorkerShift()) + p.sequence
    ensures Pack(l, epoch, p) == Sum(l, p.timestamp - epoch, p)
    ensures 0 <= Pack(l, epoch, p) < Pow2(63)
  {
    PackedWordFits(l, epoch, p);
    PackedWordKeepsTimestamp(l, epoch, p);
    SumOfShiftedFields(l, p.timestamp - epoch, p);
  }

  /** An identifier is non-negative exactly while its timestamp bits leave the sign bit clear. */
  lemma {:induction false} PackSign(l: Layout, epoch: int, p: Parts)
    requires l.Accepted() && FitsFields(l, p) && epoch <= p.timestamp < epoch + 2 * l.Lifetime()
    ensures Pack(l, epoch, p) >= 0 <==> InLifetime(l, epoch, p.timestamp)
  {
    PackedWordFits(l, epoch, p);
    PackedWordKeepsTimestamp(l, epoch, p);
  }

  /** At least 41 bits of milliseconds fit under every accepted layout. */
  lemma {:induction false} AtLeast41TimestampBits(l: Layout)
    requires l.Accepted()
    ensures l.Lifetime() >= Pow2(41)
  {
    var bits: nat := 63 - l.TimestampShift();
    assert l.Lifetime() == Pow2(bits);
    Pow2Monotone(41, bits);
  }

  /** The accepted allocations, in bits alone: what the limits on datacenters, workers and sequences come to. */
  lemma {:induction false} AcceptedAllocations(l: Layout)
    ensures l.Accepted() <==>
              && 0 <= l.datacenterBits <= 10 && 1 <= l.workerBits <= 16 && 7 <= l.sequenceBits <= 20
              && l.datacenterBits + l.workerBits + l.sequenceBits <= 22
              && l.datacenterBits + l.workerBits <= 2 * l.sequenceBits + 2
  {
    assert Pow2(7) == 128 && Pow2(10) == 1024 && Pow2(16) == 65536 && Pow2(17) == 131072;
    if l.datacenterBits >= 0 && l.workerBits >= 0 && l.sequenceBits >= 0 {
      if l.datacenterBits <= 10 {
        Pow2Monotone(l.datacenterBits, 10);
      }
      if l.workerBits <= 16 {
        Pow2Monotone(l.workerBits, 16);
      } else {
        Pow2Monotone(17, l.workerBits);
      }
      if l.sequenceBits <= 6 {
        Pow2Monotone(l.sequenceBits, 6);
      } else {
        Pow2Monotone(7, l.sequenceBits);
      }
    }
  }

  /** A shift and a mask read the remainder of a quotient. */
  lemma {:induction false} FieldIsRemainder(id: nat, shift: nat, bits: nat)
    ensures And(Shr(id, shift), Pow2(bits) - 1) == Shr(id, shift) % Pow2(bits)
  {
    var field := Shr(id, shift);
    AndMask(field, bits);
  }

  lemma {:induction false} WorkerIsRemainder(l: Layout, id: nat)
    requires l.Accepted()
    ensures And(Shr(id, l.WorkerShift()), l.MaxWorker()) == Shr(id, l.WorkerShift()) % Pow2(l.workerBits)
  {
    FieldIsRemainder(id, l.WorkerShift(), l.workerBits);
  }

  lemma {:induction false} DatacenterIsRemainder(l: Layout, id: nat)
    requires l.Accepted()
    ensures And(Shr(id, l.DatacenterShift()), l.MaxDatacenter())
            == Shr(id, l.DatacenterShift()) % Pow2(l.datacenterBits)
  {
    FieldIsRemainder(id, l.DatacenterShift(), l.datacenterBits);
  }

  lemma {:induction false} SequenceIsRemainder(l: Layout, id: nat)
    requires l.Accepted()
    ensures And(id, l.MaxSequence()) == id % Pow2(l.sequenceBits)
  {
    AndMask(id, l.sequenceBits);
  }

  /** A non-negative int64 leaves at most the lifetime above the timestamp shift. */
  lemma {:induction false} QuotientInLifetime(l: Layout, id: int)
    requires l.Accepted() && 0 <= id < Pow2(63)
    ensures 0 <= id / Pow2(l.TimestampShift()) < l.Lifetime() <= Pow2(l.TimestampBits())
  {
    var t := Pow2(l.TimestampShift());
    Pow2Add(63 - l.TimestampShift(), l.TimestampShift());
    DivBound(id, t, l.Lifetime());
    Pow2Monotone(63 - l.TimestampShift(), l.TimestampBits());
  }

  lemma {:induction false} DivBound(x: int, d: int, m: int)
    requires d > 0 && 0 <= x < m * d
    ensures 0 <= x / d < m
  {
    if x / d >= m {
      MulMonotone(m, x / d, d);
    }
  }

  /** ParseID accepts every non-negative int64: its own timestamp range check never fires. */
  lemma {:induction false} ParseAcceptsNonNegative(l: Layout, epoch: int, id: int)
    requires l.Accepted() && 0 <= id < Pow2(63)
    ensures var r := Parse(l, epoch, id);
            r.Parsed? && InLifetime(l, epoch, r.parts.timestamp) && FitsFields(l, r.parts)
  {
    SequenceIsRemainder(l, id);
    WorkerIsRemainder(l, id);
    DatacenterIsRemainder(l, id);
    QuotientInLifetime(l, id);
  }

  /** ParseID refuses exactly the negative identifiers. */
  lemma {:induction false} ParseRefusesNegative(l: Layout, epoch: int, id: int)
    requires l.Accepted() && id < Pow2(63)
    ensures Parse(l, epoch, id).Parsed? <==> id >= 0
    ensures Parse(l, epoch, id) == Negative <==> id < 0
  {
    if id >= 0 {
      ParseAcceptsNonNegative(l, epoch, id);
    }
  }

  /** What was packed is read back, exactly while the layout's lifetime lasts. */
  lemma {:induction false} ParseOfPack(l: Layout, epoch: int, p: Parts)
    requires l.Accepted() && FitsFields(l, p) && epoch <= p.timestamp
    ensures Parse(l, epoch, Pack(l, epoch, p)) == Parsed(p) <==> InLifetime(l, epoch, p.timestamp)
  {
    PackedWordFits(l, epoch, p);
    var id := Pack(l, epoch, p);
    if id >= 0 {
      ParseAcceptsNonNegative(l, epoch, id);
    }
    if InLifetime(l, epoch, p.timestamp) {
      ParseReadsSum(l, epoch, p);
    }
  }

  lemma {:induction false} ParseReadsSum(l: Layout, epoch: int, p: Parts)
    requires l.Accepted() && FitsFields(l, p) && InLifetime(l, epoch, p.timestamp)
    ensures Parse(l, epoch, Pack(l, epoch, p)) == Parsed(p)
  {
    PackIsSum(l, epoch, p);
    var id := Pack(l, epoch, p);
    SequenceIsRemainder(l, id);
    WorkerIsRemainder(l, id);
    DatacenterIsRemainder(l, id);
    QuotientInLifetime(l, id);
    ShiftsMultiplyBases(l);
    HornerDigits(p.timestamp - epoch, Pow2(l.datacenterBits), p.datacenter, Pow2(l.workerBits), p.worker,
                 Pow2(l.sequenceBits), p.sequence);
  }

  /** Every non-negative int64 is read into parts that fit, and packing them restores it. */
  lemma {:induction false} PackOfParse(l: Layout, epoch: int, id: int)
    requires l.Accepted() && 0 <= id < Pow2(63)
    ensures Parse(l, epoch, id).Parsed?
    ensures var p := Parse(l, epoch, id).parts;
            FitsFields(l, p) && InLifetime(l, epoch, p.timestamp) && Pack(l, epoch, p) == id
  {
    ParseAcceptsNonNegative(l, epoch, id);
    SequenceIsRemainder(l, id);
    WorkerIsRemainder(l, id);
    DatacenterIsRemainder(l, id);
    var p := Parse(l, epoch, id).parts;
    PackIsSum(l, epoch, p);
    ShiftsMultiplyBases(l);
    HornerRestores(id, Pow2(l.datacenterBits), Pow2(l.workerBits), Pow2(l.sequenceBits));
  }

  /** Order of the parts, most significant first. */
  predicate Precedes(p: Parts, q: Parts) {
    || p.timestamp < q.timestamp
    || (p.timestamp == q.timestamp && p.datacenter < q.datacenter)
    || (p.timestamp == q.timestamp && p.datacenter == q.datacenter && p.worker < q.worker)
    || (p.timestamp == q.timestamp && p.datacenter == q.datacenter && p.worker == q.worker && p.sequence < q.sequence)
  }

  /** Identifiers are ordered as their parts are. */
  lemma {:induction false} PackPreservesOrder(l: Layout, epoch: int, p: Parts, q: Parts)
    requires l.Accepted() && FitsFields(l, p) && FitsFields(l, q)
    requires InLifetime(l, epoch, p.timestamp) && InLifetime(l, epoch, q.timestamp)
    ensures Pack(l, epoch, p) < Pack(l, epoch, q) <==> Precedes(p, q)
  {
    if Precedes(p, q) {
      PackAscends(l, epoch, p, q);
    } else if p != q {
      PackAscends(l, epoch, q, p);
    }
  }

  lemma {:induction false} PackAscends(l: Layout, epoch: int, p: Parts, q: Parts)
    requires l.Accepted() && FitsFields(l, p) && FitsFields(l, q)
    requires InLifetime(l, epoch, p.timestamp) && InLifetime(l, epoch, q.timestamp)
    requires Precedes(p, q)
    ensures Pack(l, epoch, p) < Pack(l, epoch, q)
  {
    PackIsSum(l, epoch, p);
    PackIsSum(l, epoch, q);
    HornerAscends(p.timestamp - epoch, p.datacenter, p.worker, p.sequence,
                  q.timestamp - epoch, q.datacenter, q.worker, q.sequence,
                  Pow2(l.datacenterBits), Pow2(l.workerBits), Pow2(l.sequenceBits));
  }

  /** Different parts never share an identifier. */
  lemma {:induction false} PackInjective(l: Layout, epoch: int, p: Parts, q: Parts)
    requires l.Accepted() && FitsFields(l, p) && FitsFields(l, q)
    requires InLifetime(l, epoch, p.timestamp) && InLifetime(l, epoch, q.timestamp)
    ensures Pack(l, epoch, p) == Pack(l, epoch, q) <==> p == q
  {
    PackPreservesOrder(l, epoch, p, q);
    PackPreservesOrder(l, epoch, q, p);
  }
}
