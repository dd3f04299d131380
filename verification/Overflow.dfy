/**
 The arithmetic of an overflow of the bounded single-producer multi-consumer queue
 (src/spmc/const_bounded.rs): which slots are handed to the receiver, how far the head moves, and
 when the two agree.
 */
module Overflow {
  import opened Ring

  /** How many values the two slices of an overflow from head `h` span: half of the capacity, but
      the upper half where they reach the end of the array. The head moves by `cap / 2`. */
  function BatchSize(h: nat, cap: nat): (m: nat)
    requires 0 < cap
    ensures cap / 2 <= m <= cap - cap / 2
  {
    if Slot(h, cap) < cap / 2 then cap / 2 else cap - cap / 2
  }

  /** The slices hold exactly the positions that the head moves over exactly when the capacity is
      even or the head is in the lower half of the array; otherwise one value comes twice. */
  lemma BatchIsExactIff(h: nat, cap: nat)
    requires 0 < cap
    ensures BatchSize(h, cap) == cap / 2 <==> cap % 2 == 0 || h % cap < cap / 2
    ensures BatchSize(h, cap) != cap / 2 ==> BatchSize(h, cap) == cap / 2 + 1
  {
    SlotIsRemainder(h, cap);
  }

  /** So an overflow conserves the values, whatever they are, exactly then: the receiver gets what
      the head moves over. */
  lemma OverflowConservesIff<T>(log: seq<T>, h: nat, cap: nat)
    requires 0 < cap && h + BatchSize(h, cap) <= |log|
    ensures multiset(PieceOrder(log[h..h + BatchSize(h, cap)], h, cap)) == multiset(log[h..h + cap / 2])
       <==> cap % 2 == 0 || h % cap < cap / 2
  {
    BatchIsExactIff(h, cap);
    PieceOrderKeepsValues(log[h..h + BatchSize(h, cap)], h, cap);
    assert |multiset(log[h..h + BatchSize(h, cap)])| == BatchSize(h, cap);
    assert |multiset(log[h..h + cap / 2])| == cap / 2;
  }

  // ------------------------------------------------------------------ bulk overflows

  /** With `len` values in the queue a slice of `slice` values goes to the receiver. */
  predicate BulkOverflows(len: nat, slice: nat, cap: nat) {
    len <= cap && len + slice > cap
  }

  /** A bulk overflow finds its whole batch published, in every state that leads to it, exactly
      for slices of at most half of the capacity and one. */
  lemma BulkOverflowFitsIff(cap: nat, slice: nat)
    requires 0 < cap
    ensures (forall len: nat, h: nat :: BulkOverflows(len, slice, cap) ==> BatchSize(h, cap) <= len)
       <==> slice <= cap / 2 + 1
  {
    if slice > cap / 2 + 1 {
      var len := if slice > cap then 0 else cap - slice + 1;
      assert BulkOverflows(len, slice, cap) && Slot(cap / 2, cap) == cap / 2 && BatchSize(cap / 2, cap) > len;
    }
  }

  /** An exchange lost to consumers that took `taken` of `len` values leaves room for the slice. */
  predicate FitsAfterLoss(len: nat, taken: nat, slice: nat, cap: nat) {
    len - taken + slice <= cap
  }

  /** The lock-free bulk overflow stores nothing when its exchange is lost and the slice still does
      not fit. In no state and for no loss does that happen exactly for slices of at most one
      value: two values are lost when the queue is full and a consumer takes one. */
  lemma NeverDropsIff(cap: nat, slice: nat)
    requires 0 < cap
    ensures (forall len: nat, taken: nat :: BulkOverflows(len, slice, cap) && 1 <= taken <= len ==>
               FitsAfterLoss(len, taken, slice, cap))
       <==> slice <= 1
  {
    if slice > 1 {
      assert BulkOverflows(cap, slice, cap) && !FitsAfterLoss(cap, 1, slice, cap);
    }
  }

  // ------------------------------------------------------------------ the slices

  /** Where in the array the value lies that comes as number `j` of an overflow batch. */
  function BatchIndex(j: nat, h: nat, cap: nat): (s: nat)
    requires 0 < cap && j < BatchSize(h, cap)
    ensures s < cap
  {
    var i := Slot(h, cap);
    if i < cap / 2 then i + j else if j < i - cap / 2 then j else i + (j - (i - cap / 2))
  }

  lemma BatchIndexIsSlot(j: nat, h: nat, cap: nat)
    requires 0 < cap && j < BatchSize(h, cap)
    ensures Slot(h + PieceOffset(j, BatchSize(h, cap), h, cap), cap) == BatchIndex(j, h, cap)
  {
    SlotOfOffset(h, PieceOffset(j, BatchSize(h, cap), h, cap), cap);
  }

  /** The slices of an overflow from head `h`: the piece up to the end of the array, then the
      piece that wrapped around. */
  function SlicesOf<T>(buf: seq<T>, h: nat): (seq<T>, seq<T>)
    requires 0 < |buf|
  {
    var headIdx := Slot(h, |buf|);
    if headIdx < |buf| / 2 then (buf[headIdx..headIdx + |buf| / 2], [])
    else (buf[headIdx..], buf[..headIdx - |buf| / 2])
  }

  lemma SlicesByIndex<T>(buf: seq<T>, h: nat, batch: seq<T>)
    requires 0 < |buf| && batch == SlicesOf(buf, h).1 + SlicesOf(buf, h).0
    ensures |batch| == BatchSize(h, |buf|)
    ensures forall j: nat {:trigger batch[j]} :: j < |batch| ==> batch[j] == buf[BatchIndex(j, h, |buf|)]
  {
  }

  /** Whatever the array holds, they are the values of the batch positions in the order of the pieces. */
  lemma SlicesAreRange<T>(buf: seq<T>, h: nat, right: seq<T>, left: seq<T>)
    requires 0 < |buf| && (right, left) == SlicesOf(buf, h)
    ensures BatchSize(h, |buf|) <= |buf|
    ensures left + right == PieceOrder(ReadRange(buf, h, BatchSize(h, |buf|)), h, |buf|)
  {
    var batch := left + right;
    SlicesByIndex(buf, h, batch);
    ByIndexIsRange(buf, h, batch);
  }

  lemma ByIndexIsRange<T>(buf: seq<T>, h: nat, batch: seq<T>)
    requires 0 < |buf| && |batch| == BatchSize(h, |buf|)
    requires forall j: nat {:trigger batch[j]} :: j < |batch| ==> batch[j] == buf[BatchIndex(j, h, |buf|)]
    ensures batch == PieceOrder(ReadRange(buf, h, |batch|), h, |buf|)
  {
    var vals := ReadRange(buf, h, |batch|);
    forall j: nat | j < |batch| ensures batch[j] == vals[PieceOffset(j, |batch|, h, |buf|)] {
      BatchIndexIsSlot(j, h, |buf|);
    }
  }
}
