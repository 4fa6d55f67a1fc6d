/**
  The snowflake bit layout: a 42-bit time delta, a 5-bit worker id, a 5-bit
  process id and a 12-bit increment, most significant first.
  `Pack` is the arithmetic of `SnowflakeID.generate` and `Unpack` the mask and
  shift arithmetic of the `SnowflakeID` constructor.
 */
module Layout {
  import opened Bits

  /** Milliseconds from the Unix epoch to 2015-01-01T00:00:00Z. */
  const EPOCH: nat := 1420070400000

  const WORKER_SHIFT: nat := 17
  const PROCESS_SHIFT: nat := 12
  const TIME_SHIFT: nat := 22

  const WORKER_TRUNCATE: nat := 0x3e0000
  const PROCESS_TRUNCATE: nat := 0x1f000
  const INCREMENT_TRUNCATE: nat := 0xfff

  /** Worker and process ids are reduced modulo 2^5. */
  const LIMITER: nat := 32

  /** The largest increment; one more rolls the counter over. */
  const MAX_INCREMENT: nat := 4095

  /** The four fields a snowflake is deconstructed into. */
  datatype Fields = Fields(timestamp: nat, workerId: nat, processId: nat, increment: nat)

  /** The value `generate` accumulates for a time delta, the two ids and the increment. */
  function Pack(delta: nat, workerId: nat, processId: nat, increment: nat): nat
  {
    ShiftLeft(delta, TIME_SHIFT)
    + ShiftLeft(workerId % LIMITER, WORKER_SHIFT)
    + ShiftLeft(processId % LIMITER, PROCESS_SHIFT)
    + increment
  }

  /** The fields the constructor extracts from a snowflake value. */
  function Unpack(v: nat): Fields
  {
    Fields(
      ShiftRight(v, TIME_SHIFT) + EPOCH,
      ShiftRight(And(v, WORKER_TRUNCATE), WORKER_SHIFT),
      ShiftRight(And(v, PROCESS_TRUNCATE), PROCESS_SHIFT),
      And(v, INCREMENT_TRUNCATE))
  }

  /** Pack written with its multipliers as numbers. */
  lemma PackValue(delta: nat, workerId: nat, processId: nat, increment: nat)
    ensures Pack(delta, workerId, processId, increment)
         == delta * 4194304 + (workerId % 32) * 131072 + (processId % 32) * 4096 + increment
  {
    Pow2Values();
  }

  /** A mask of five ones shifted left by k, applied and shifted back, is base-32 digit extraction. */
  lemma FiveBitField(v: nat, k: nat)
    ensures ShiftRight(And(v, ShiftLeft(31, k)), k) == ShiftRight(v, k) % 32
  {
    var z := And(ShiftRight(v, k), 31);
    AndShiftedMask(v, 31, k);
    Pow2Values();
    AndLowMask(ShiftRight(v, k), 5);
    DivModUnique(ShiftLeft(z, k), Pow2(k), z, 0);
  }

  /**
    Unpack reads the three low fields as base-2 digit groups of the value:
    the worker id is bits 17 to 21, the process id bits 12 to 16 and the
    increment bits 0 to 11, whatever the value; so the ids are at most 31 and
    the increment at most 4095.
   */
  lemma UnpackFields(v: nat)
    ensures Unpack(v).timestamp == v / 4194304 + EPOCH
    ensures Unpack(v).workerId == (v / 131072) % 32
    ensures Unpack(v).processId == (v / 4096) % 32
    ensures Unpack(v).increment == v % 4096
    ensures Unpack(v).workerId <= 31 && Unpack(v).processId <= 31
    ensures Unpack(v).increment <= MAX_INCREMENT
  {
    Pow2Values();
    assert WORKER_TRUNCATE == ShiftLeft(31, WORKER_SHIFT);
    assert PROCESS_TRUNCATE == ShiftLeft(31, PROCESS_SHIFT);
    FiveBitField(v, WORKER_SHIFT);
    FiveBitField(v, PROCESS_SHIFT);
    AndLowMask(v, 12);
  }

  /**
    Round trip: unpacking a packed value gives back the time delta shifted by
    EPOCH, both ids reduced modulo 32 and the increment, for any delta.
   */
  lemma UnpackPack(delta: nat, workerId: nat, processId: nat, increment: nat)
    requires increment <= MAX_INCREMENT
    ensures Unpack(Pack(delta, workerId, processId, increment))
         == Fields(delta + EPOCH, workerId % LIMITER, processId % LIMITER, increment)
  {
    var v := Pack(delta, workerId, processId, increment);
    var w, p := workerId % 32, processId % 32;
    PackValue(delta, workerId, processId, increment);
    UnpackFields(v);
    DivModUnique(v, 4194304, delta, w * 131072 + p * 4096 + increment);
    DivModUnique(v, 131072, delta * 32 + w, p * 4096 + increment);
    DivModUnique(delta * 32 + w, 32, delta, w);
    DivModUnique(v, 4096, delta * 1024 + w * 32 + p, increment);
    DivModUnique(delta * 1024 + w * 32 + p, 32, delta * 32 + w, p);
  }

  /** The other direction: every value is the packing of its own unpacked fields. */
  lemma PackUnpack(v: nat)
    ensures Unpack(v).timestamp >= EPOCH
    ensures Pack(Unpack(v).timestamp - EPOCH, Unpack(v).workerId, Unpack(v).processId, Unpack(v).increment) == v
  {
    var f := Unpack(v);
    UnpackFields(v);
    var t, w, p, i := v / 4194304, (v / 131072) % 32, (v / 4096) % 32, v % 4096;
    assert f == Fields(t + EPOCH, w, p, i);
    assert w % 32 == w && p % 32 == p;
    PackValue(t, w, p, i);
    SplitFields(v);
  }

  /** A value is the sum of its 22-bit-shifted top, two base-32 digits and its low 12 bits. */
  lemma SplitFields(v: nat)
    ensures v == (v / 4194304) * 4194304 + ((v / 131072) % 32) * 131072 + ((v / 4096) % 32) * 4096 + v % 4096
  {
    var i, q := v % 4096, v / 4096;
    var p, r := q % 32, q / 32;
    var w, t := r % 32, r / 32;
    assert v == t * 4194304 + w * 131072 + p * 4096 + i by {
      assert v == q * 4096 + i;
      assert q == r * 32 + p;
      assert r == t * 32 + w;
    }
    DivModUnique(v, 131072, r, p * 4096 + i);
    DivModUnique(v, 4194304, t, w * 131072 + p * 4096 + i);
  }

  /** Packing is injective on fields in range: distinct fields give distinct snowflakes. */
  lemma PackInjective(d1: nat, w1: nat, p1: nat, i1: nat, d2: nat, w2: nat, p2: nat, i2: nat)
    requires i1 <= MAX_INCREMENT && i2 <= MAX_INCREMENT
    requires Pack(d1, w1, p1, i1) == Pack(d2, w2, p2, i2)
    ensures d1 == d2 && w1 % LIMITER == w2 % LIMITER && p1 % LIMITER == p2 % LIMITER && i1 == i2
  {
    UnpackPack(d1, w1, p1, i1);
    UnpackPack(d2, w2, p2, i2);
  }

  /**
    The four summands of Pack occupy disjoint bit ranges, so each `+` of
    `generate` is the bitwise `|` of the layout.
   */
  lemma PackIsOr(delta: nat, workerId: nat, processId: nat, increment: nat)
    requires increment <= MAX_INCREMENT
    ensures Pack(delta, workerId, processId, increment)
         == Or(Or(Or(ShiftLeft(delta, TIME_SHIFT),
                     ShiftLeft(workerId % LIMITER, WORKER_SHIFT)),
                  ShiftLeft(processId % LIMITER, PROCESS_SHIFT)),
               increment)
  {
    var w, p := workerId % 32, processId % 32;
    var t, wb, pb := ShiftLeft(delta, 22), ShiftLeft(w, 17), ShiftLeft(p, 12);
    PackPartialSums(delta, w, p);
    OrAlignedLow(delta, 22, wb);
    OrAlignedLow(delta * 32 + w, 17, pb);
    OrAlignedLow(delta * 1024 + w * 32 + p, 12, increment);
  }

  /** The running sums of Pack are aligned on the boundary of the next field, which fits below it. */
  lemma PackPartialSums(delta: nat, w: nat, p: nat)
    requires w < 32 && p < 32
    ensures ShiftLeft(w, 17) < Pow2(22) && ShiftLeft(p, 12) < Pow2(17) && MAX_INCREMENT < Pow2(12)
    ensures ShiftLeft(delta, 22) + ShiftLeft(w, 17) == ShiftLeft(delta * 32 + w, 17)
    ensures ShiftLeft(delta, 22) + ShiftLeft(w, 17) + ShiftLeft(p, 12)
         == ShiftLeft(delta * 1024 + w * 32 + p, 12)
  {
    Pow2Values();
  }

  /** With a delta that fits its 42 bits, the snowflake fits in 64 bits. */
  lemma PackBelow64(delta: nat, workerId: nat, processId: nat, increment: nat)
    requires delta < Pow2(42)
    requires increment <= MAX_INCREMENT
    ensures Pack(delta, workerId, processId, increment) < Pow2(64)
  {
    PackValue(delta, workerId, processId, increment);
    Pow2Values();
  }
}
