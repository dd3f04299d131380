/**
 Buffer versions of the unbounded queues: the word that publishes a version id together
 with a tail, the ring index taken with a bit mask, and the table of capacities.
 */
module BufferVersion {
  import Ring

  function Pow2(k: nat): (r: nat)
    ensures 0 < r
  {
    if k == 0 then 1 else 2 * Pow2(k - 1)
  }

  const U32 := Pow2(32)
  const U64 := Pow2(64)

  ghost predicate IsPowerOfTwo(n: nat) {
    exists k: nat :: n == Pow2(k)
  }

  // ------------------------------------------------------------------ bits of unsigned words

  function BitAnd(x: nat, y: nat): nat {
    if x == 0 || y == 0 then 0
    else 2 * BitAnd(x / 2, y / 2) + (if x % 2 == 1 && y % 2 == 1 then 1 else 0)
  }

  function BitOr(x: nat, y: nat): nat {
    if x == 0 then y else if y == 0 then x
    else 2 * BitOr(x / 2, y / 2) + (if x % 2 == 1 || y % 2 == 1 then 1 else 0)
  }

  /** `x << k` in an unsigned word of 64 bits. */
  function ShiftLeft(x: nat, k: nat): nat {
    (x * Pow2(k)) % U64
  }

  function ShiftRight(x: nat, k: nat): nat {
    if k == 0 then x else ShiftRight(x / 2, k - 1)
  }

  lemma {:induction false} ShiftRightIsQuotient(x: nat, k: nat)
    ensures ShiftRight(x, k) == x / Pow2(k)
    decreases k
  {
    if k > 0 {
      ShiftRightIsQuotient(x / 2, k - 1);
      LowBit(x, Pow2(k - 1));
    }
  }

  /** The mask of a power of two keeps the remainder. */
  lemma {:induction false} MaskIsRemainder(x: nat, k: nat)
    ensures BitAnd(x, Pow2(k) - 1) == x % Pow2(k)
    decreases k
  {
    if k > 0 {
      MaskIsRemainder(x / 2, k - 1);
      LowBit(x, Pow2(k - 1));
      assert (Pow2(k) - 1) / 2 == Pow2(k - 1) - 1 && (Pow2(k) - 1) % 2 == 1;
    }
  }

  /** Division by `2 * half`, one bit at a time. */
  lemma LowBit(x: nat, half: nat)
    requires 0 < half
    ensures x % (2 * half) == 2 * ((x / 2) % half) + x % 2
    ensures x / (2 * half) == (x / 2) / half
  {
    var y := x / 2;
    var q, r := y / half, y % half;
    assert y == half * q + r;
    assert (2 * half) * q == 2 * (half * q);
    Ring.RemainderUnique(x, q, 2 * r + x % 2, 2 * half);
  }

  /** Joining a word whose low `k` bits are clear with a word of `k` bits is addition. */
  lemma {:induction false} OrIsSum(high: nat, low: nat, k: nat)
    requires low < Pow2(k)
    ensures BitOr(high * Pow2(k), low) == high * Pow2(k) + low
    decreases k
  {
    if k > 0 && high > 0 && low > 0 {
      var half := Pow2(k - 1);
      assert high * Pow2(k) == 2 * (high * half);
      OrIsSum(high, low / 2, k - 1);
      assert high * Pow2(k) > 0 by { Ring.AtLeastOneLap(Pow2(k), high); }
    } else if high == 0 {
      assert high * Pow2(k) == 0;
    }
  }

  lemma {:induction false} Pow2Sum(j: nat, k: nat)
    ensures Pow2(j + k) == Pow2(j) * Pow2(k)
    decreases j
  {
    if j > 0 {
      Pow2Sum(j - 1, k);
      assert Pow2(j) * Pow2(k) == 2 * (Pow2(j - 1) * Pow2(k));
    }
  }

  // ------------------------------------------------------------------ (version, tail) in a word

  function PackVersionAndTail(version: nat, tail: nat): nat {
    BitOr(ShiftLeft(version, 32), tail)
  }

  function UnpackVersionAndTail(word: nat): (nat, nat) {
    (ShiftRight(word, 32) % U32, word % U32)
  }

  lemma WordIsSquare()
    ensures U64 == U32 * U32
  {
    Pow2Sum(32, 32);
  }

  lemma ShiftedUp(version: nat, tail: nat)
    requires version < U32 && tail < U32
    ensures version * U32 + tail < U64 && ShiftLeft(version, 32) == version * U32
  {
    WordIsSquare();
    TwoDigits(version, tail, U32);
    Ring.RemainderUnique(version * U32, 0, version * U32, U64);
  }

  lemma PackIsSum(version: nat, tail: nat)
    requires version < U32 && tail < U32
    ensures PackVersionAndTail(version, tail) == version * U32 + tail < U64
  {
    ShiftedUp(version, tail);
    OrIsSum(version, tail, 32);
  }

  lemma TwoDigits(high: nat, low: nat, b: nat)
    requires high < b && low < b
    ensures high * b + low < b * b
  {
    ProductMonotone(high + 1, b, b);
    assert (high + 1) * b == high * b + b;
  }

  lemma TwoDigitsApart(high: nat, low: nat, b: nat)
    requires high < b && low < b
    ensures (high * b + low) / b == high && (high * b + low) % b == low && high % b == high
  {
    assert high * b == b * high;
    Ring.RemainderUnique(high * b + low, high, low, b);
    Ring.RemainderUnique(high, 0, high, b);
  }

  lemma ProductMonotone(a: nat, b: nat, c: nat)
    requires a <= b
    ensures a * c <= b * c
  {
    assert b * c == a * c + (b - a) * c;
  }

  /** Both halves survive the trip through the shared word. */
  lemma UnpackAfterPack(version: nat, tail: nat)
    requires version < U32 && tail < U32
    ensures UnpackVersionAndTail(PackVersionAndTail(version, tail)) == (version, tail)
  {
    PackIsSum(version, tail);
    ShiftRightIsQuotient(version * U32 + tail, 32);
    TwoDigitsApart(version, tail, U32);
  }

  lemma DigitsOf(x: nat, b: nat)
    requires 0 < b && x < b * b
    ensures x / b < b && (x / b) % b == x / b && (x / b) * b + x % b == x
  {
    var q := x / b;
    assert x == b * q + x % b;
    if q >= b {
      ProductMonotone(b, q, b);
    } else {
      Ring.RemainderUnique(q, 0, q, b);
    }
  }

  /** And every word is the packing of what it unpacks to. */
  lemma PackAfterUnpack(word: nat)
    requires word < U64
    ensures var (version, tail) := UnpackVersionAndTail(word);
            version < U32 && tail < U32 && PackVersionAndTail(version, tail) == word
  {
    WordIsSquare();
    ShiftRightIsQuotient(word, 32);
    DigitsOf(word, U32);
    PackIsSum(word / U32, word % U32);
  }

  // ------------------------------------------------------------------ ring index and capacities

  /** The ring index of the power-of-two build. */
  function PhysicalIndex(logical: nat, cap: nat): nat
    requires 0 < cap
  {
    BitAnd(logical, cap - 1)
  }

  lemma PhysicalIndexIsSlot(logical: nat, cap: nat)
    requires 0 < cap && IsPowerOfTwo(cap)
    ensures PhysicalIndex(logical, cap) == Ring.Slot(logical, cap)
  {
    var k: nat :| cap == Pow2(k);
    MaskIsRemainder(logical, k);
    Ring.SlotIsRemainder(logical, cap);
  }

  /** The next capacity, when capacities are powers of two. */
  function GreaterCapacity(cap: nat): (r: nat)
    ensures cap < r
  {
    if cap > 0 then cap * 2 else 4
  }

  /** The next capacity of the build without that restriction, below the largest one. */
  function GreaterCapacityAny(cap: nat): (r: nat)
    requires cap < U32 - 1
    ensures cap < r
  {
    if cap == 0 then 4
    else if cap < 512 then cap * 2
    else if cap < 1024 then cap * 3 / 2
    else if cap < 4096 then cap * 4 / 3
    else cap * 5 / 4
  }

  lemma GreaterCapacityIsPowerOfTwo(cap: nat)
    requires IsPowerOfTwo(cap)
    ensures IsPowerOfTwo(GreaterCapacity(cap))
  {
    var k: nat :| cap == Pow2(k);
    assert GreaterCapacity(cap) == Pow2(k + 1);
  }

  /** A power of two with room for a full old buffer and `extra` more values, and no doubling more. */
  ghost predicate GrownFor(cap: nat, extra: nat, newCap: nat) {
    && IsPowerOfTwo(newCap)
    && cap + extra < newCap && 2 * cap <= newCap
    && (newCap == 2 * cap || newCap <= 2 * (cap + extra))
  }

  /** The capacity chosen when `extra` values do not fit: the loop ends, the result is a power of
      two with room for a full old buffer and the new values, and no smaller doubling has it. */
  method CapacityFor(cap: nat, extra: nat) returns (newCap: nat)
    requires 0 < cap && IsPowerOfTwo(cap)
    ensures GrownFor(cap, extra, newCap)
  {
    GreaterCapacityIsPowerOfTwo(cap);
    newCap := GreaterCapacity(cap);
    while newCap <= cap + extra
      invariant IsPowerOfTwo(newCap) && 2 * cap <= newCap
      invariant newCap == 2 * cap || newCap <= 2 * (cap + extra)
      decreases cap + extra - newCap
    {
      GreaterCapacityIsPowerOfTwo(newCap);
      newCap := GreaterCapacity(newCap);
    }
  }
}
