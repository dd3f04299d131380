/**
 Machine counters. The other modules let heads, tails and slot states grow without bound;
 the program keeps them in words of `modulus` values that wrap. This module says when the
 wrapped word gives the same answer.
 */
module Counters {
  import Ring

  function WrappingAdd(a: nat, b: nat, modulus: nat): (r: nat)
    requires 0 < modulus
    ensures r < modulus
  {
    (a + b) % modulus
  }

  function WrappingSub(a: nat, b: nat, modulus: nat): (r: nat)
    requires 0 < modulus
    ensures r < modulus
  {
    (a - b) % modulus
  }

  /** The two words are equal exactly when the counters are, inside one window. */
  lemma SameWordIff(a: nat, b: nat, modulus: nat)
    requires 0 < modulus && a < b + modulus && b < a + modulus
    ensures a % modulus == b % modulus <==> a == b
  {
    if a < b {
      DifferentWords(a, b, modulus);
    } else if b < a {
      DifferentWords(b, a, modulus);
    }
  }

  lemma DifferentWords(a: nat, b: nat, modulus: nat)
    requires a < b < a + modulus
    ensures a % modulus != b % modulus
  {
    Ring.SlotsDiffer(a, b, modulus);
    Ring.SlotIsRemainder(a, modulus);
    Ring.SlotIsRemainder(b, modulus);
  }

  /** Adding to a word is adding to the counter behind it. */
  lemma AddAgrees(a: nat, b: nat, modulus: nat)
    requires 0 < modulus
    ensures WrappingAdd(a % modulus, b, modulus) == (a + b) % modulus
  {
    var q, r := a / modulus, a % modulus;
    var x := r + b;
    Ring.RemainderUnique(x + modulus * q, x / modulus + q, x % modulus, modulus) by {
      assert modulus * (x / modulus + q) == modulus * (x / modulus) + modulus * q;
    }
  }

  /** `tail.wrapping_sub(head)` is the length of the queue, also across the wrap. */
  lemma LengthAgrees(head: nat, tail: nat, modulus: nat)
    requires head <= tail < head + modulus
    ensures WrappingSub(tail % modulus, head % modulus, modulus) == tail - head
  {
    var n := tail - head;
    AddAgrees(head, n, modulus);
    var h, t := head % modulus, tail % modulus;
    assert t == (h + n) % modulus;
    if h + n < modulus {
      Ring.RemainderUnique(h + n, 0, h + n, modulus);
      Ring.RemainderUnique(n, 0, n, modulus);
    } else {
      Ring.RemainderUnique(h + n, 1, h + n - modulus, modulus);
      assert t - h == n - modulus;
      Ring.RemainderUnique(t - h, -1, n, modulus);
    }
  }

  /** The ring index of the wrapped counter is the ring index of the counter. */
  predicate IndexAgrees(p: nat, cap: nat, modulus: nat)
    requires 0 < cap && 0 < modulus
  {
    (p % modulus) % cap == p % cap
  }

  /** It is so for every counter exactly when the capacity divides the word size. */
  lemma IndexAgreesIff(cap: nat, modulus: nat)
    requires 0 < cap && 0 < modulus
    ensures (forall p: nat :: IndexAgrees(p, cap, modulus)) <==> modulus % cap == 0
  {
    if modulus % cap == 0 {
      var laps := WholeLaps(cap, modulus);
      forall p: nat ensures IndexAgrees(p, cap, modulus) {
        RemainderOfRemainder(p, laps, cap);
      }
    } else {
      FirstWrapDisagrees(cap, modulus);
    }
  }

  lemma WholeLaps(cap: nat, modulus: nat) returns (laps: nat)
    requires 0 < cap && 0 < modulus && modulus % cap == 0
    ensures 0 < laps && modulus == cap * laps
  {
    laps := modulus / cap;
    assert modulus == cap * laps + modulus % cap;
  }

  /** The first counter value that wraps. */
  lemma FirstWrapDisagrees(cap: nat, modulus: nat)
    requires 0 < cap && 0 < modulus && modulus % cap != 0
    ensures !IndexAgrees(modulus, cap, modulus)
  {
    Ring.RemainderUnique(modulus, 1, 0, modulus);
    Ring.RemainderUnique(0, 0, 0, cap);
  }

  lemma RemainderOfRemainder(p: nat, laps: nat, cap: nat)
    requires 0 < cap && 0 < laps
    ensures 0 < cap * laps
    ensures (p % (cap * laps)) % cap == p % cap
  {
    Ring.AtLeastOneLap(cap, laps);
    var modulus := cap * laps;
    var q, r := p / modulus, p % modulus;
    var q', r' := r / cap, r % cap;
    MulAssociative(cap, laps, q);
    assert cap * (laps * q + q') == cap * (laps * q) + cap * q';
    Ring.RemainderUnique(p, laps * q + q', r', cap);
  }

  lemma MulAssociative(a: nat, b: nat, c: nat)
    ensures (a * b) * c == a * (b * c)
  {
  }
}
