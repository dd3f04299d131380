/**
 The ring buffer shared by every queue. A counter that only grows names a logical position,
 and position `p` lives in slot `p` modulo the capacity.

 `WriteRange` and `ReadRange` say what a bulk copy means one position at a time; the methods
 are the bulk copies themselves, which move one or two contiguous pieces.
 */
module Ring {

  /** The slot of a position: the remainder modulo the capacity (see `SlotIsRemainder`), by
      repeated subtraction so that proofs about positions need linear arithmetic only. */
  function Slot(p: nat, cap: nat): (s: nat)
    requires 0 < cap
    ensures s < cap
    decreases p
  {
    if p < cap then p else Slot(p - cap, cap)
  }

  lemma {:induction false} SlotIsRemainder(p: nat, cap: nat)
    requires 0 < cap
    ensures Slot(p, cap) == p % cap
    decreases p
  {
    if p >= cap {
      SlotIsRemainder(p - cap, cap);
      RemainderOfNextLap(p - cap, cap);
    }
  }

  lemma RemainderOfNextLap(p: nat, cap: nat)
    requires 0 < cap
    ensures (p + cap) % cap == p % cap
  {
    RemainderUnique(p + cap, p / cap + 1, p % cap, cap);
  }

  lemma RemainderUnique(x: int, q: int, r: nat, cap: nat)
    requires r < cap && x == cap * q + r
    ensures x % cap == r && x / cap == q
  {
    var q', r' := x / cap, x % cap;
    assert cap * (q - q') == r' - r;
    if q > q' {
      AtLeastOneLap(cap, q - q');
    } else if q' > q {
      AtLeastOneLap(cap, q' - q);
    }
  }

  lemma AtLeastOneLap(cap: nat, laps: nat)
    requires 1 <= laps
    ensures cap * laps >= cap
  {
    assert cap * laps == cap + cap * (laps - 1);
  }

  /** Slot of an offset that passes the end of the array at most once. */
  lemma {:induction false} SlotOfOffset(start: nat, k: nat, cap: nat)
    requires k <= cap && 0 < cap
    ensures Slot(start + k, cap)
         == var i := Slot(start, cap); if i + k < cap then i + k else i + k - cap
    decreases start
  {
    if start >= cap {
      SlotOfOffset(start - cap, k, cap);
    }
  }

  /** Two positions less than one capacity apart never share a slot. */
  lemma SlotsDiffer(p: nat, q: nat, cap: nat)
    requires p < q < p + cap
    ensures Slot(p, cap) != Slot(q, cap)
  {
    SlotOfOffset(p, q - p, cap);
  }

  /** The array after storing `slice` at positions `start`, `start + 1`, ... in this order. */
  function WriteRange<T>(buf: seq<T>, start: nat, slice: seq<T>): (r: seq<T>)
    requires 0 < |buf|
    ensures |r| == |buf|
  {
    if slice == [] then buf
    else
      var k := |slice| - 1;
      WriteRange(buf, start, slice[..k])[Slot(start + k, |buf|) := slice[k]]
  }

  /** The values found at the `n` positions from `start` on. */
  function ReadRange<T>(buf: seq<T>, start: nat, n: nat): (r: seq<T>)
    requires 0 < |buf|
    ensures |r| == n
    ensures forall p: nat {:trigger Slot(p, |buf|)} :: start <= p < start + n ==> r[p - start] == buf[Slot(p, |buf|)]
    ensures forall k {:trigger r[k]} :: 0 <= k < n ==> r[k] == buf[Slot(start + k, |buf|)]
  {
    seq(n, k requires 0 <= k < n => buf[Slot(start + k, |buf|)])
  }

  /** The positions from `from` on hold `vals`. */
  ghost predicate StoredAt<T>(buf: seq<T>, cap: nat, from: nat, vals: seq<T>)
    requires 0 < cap == |buf|
  {
    forall p: nat {:trigger Slot(p, cap)} :: from <= p < from + |vals| ==> buf[Slot(p, cap)] == vals[p - from]
  }

  function Min(a: int, b: int): int {
    if a < b then a else b
  }

  /** What a bulk store leaves at the positions of the lap that ends with it. */
  lemma {:induction false} WrittenSlots<T>(buf: seq<T>, start: nat, slice: seq<T>)
    requires 0 < |buf| && |slice| <= |buf|
    ensures var w := WriteRange(buf, start, slice);
            forall p: nat {:trigger Slot(p, |buf|)} :: p < start + |slice| <= p + |buf| ==>
              w[Slot(p, |buf|)] == if start <= p then slice[p - start] else buf[Slot(p, |buf|)]
  {
    if slice != [] {
      var n := |slice| - 1;
      WrittenSlots(buf, start, slice[..n]);
      forall p: nat | p < start + |slice| <= p + |buf| && p != start + n
        ensures Slot(p, |buf|) != Slot(start + n, |buf|)
      {
        SlotsDiffer(p, start + n, |buf|);
      }
    }
  }

  /** Round trip: what is stored at a tail is what a read from there returns, for every start
      and every slice that fits. */
  lemma RoundTrip<T>(buf: seq<T>, start: nat, slice: seq<T>)
    requires 0 < |buf| && |slice| <= |buf|
    ensures ReadRange(WriteRange(buf, start, slice), start, |slice|) == slice
  {
    WrittenSlots(buf, start, slice);
  }

  /** A store behind the live positions `head..tail` that fits leaves them all unchanged. */
  lemma WriteKeepsLive<T>(buf: seq<T>, head: nat, tail: nat, slice: seq<T>)
    requires 0 < |buf| && head <= tail && tail - head + |slice| <= |buf|
    ensures ReadRange(WriteRange(buf, tail, slice), head, tail - head)
         == ReadRange(buf, head, tail - head)
  {
    WrittenSlots(buf, tail, slice);
  }

  /** Two stores one after the other are one store of the concatenation. */
  lemma {:induction false} WriteRangeConcat<T>(buf: seq<T>, start: nat, a: seq<T>, b: seq<T>)
    requires 0 < |buf|
    ensures WriteRange(WriteRange(buf, start, a), start + |a|, b) == WriteRange(buf, start, a + b)
    decreases |b|
  {
    if b == [] {
      assert a + b == a;
    } else {
      var n := |b| - 1;
      WriteRangeConcat(buf, start, a, b[..n]);
      assert (a + b)[..|a + b| - 1] == a + b[..n];
    }
  }

  lemma TwoStores<T>(buf: seq<T>, start: nat, a: seq<T>, b: seq<T>)
    requires 0 < |buf| && |a| + |b| <= |buf|
    ensures ReadRange(WriteRange(WriteRange(buf, start, a), start + |a|, b), start, |a + b|) == a + b
  {
    WriteRangeConcat(buf, start, a, b);
    RoundTrip(buf, start, a + b);
  }

  // ------------------------------------------------------------------ the order of two pieces

  /** The offset from `head` of the value that arrives as number `j` out of `n`, when the piece
      that wrapped around to the front of the array is handed over before the piece that did not. */
  function PieceOffset(j: nat, n: nat, head: nat, cap: nat): (o: nat)
    requires 0 < cap && j < n
    ensures o < n
  {
    var right := cap - Slot(head, cap);
    if n <= right then j
    else if j < n - right then right + j else j - (n - right)
  }

  /** The values from position `head` on in the order in which they arrive. */
  function PieceOrder<T>(vals: seq<T>, head: nat, cap: nat): (r: seq<T>)
    requires 0 < cap
    ensures |r| == |vals|
    ensures forall j: nat {:trigger r[j]} :: j < |r| ==> r[j] == vals[PieceOffset(j, |vals|, head, cap)]
  {
    seq(|vals|, j requires 0 <= j < |vals| => vals[PieceOffset(j, |vals|, head, cap)])
  }

  /** It is a rotation by the length of the piece that does not wrap. */
  lemma PieceOrderIsRotation<T>(vals: seq<T>, head: nat, cap: nat)
    requires 0 < cap
    ensures var right := cap - Slot(head, cap);
            PieceOrder(vals, head, cap) == if |vals| <= right then vals else vals[right..] + vals[..right]
  {
  }

  /** A sequence that has the values of the log from `h` on one by one in this order. */
  lemma IsPieceOrder<T>(s: seq<T>, log: seq<T>, h: nat, cap: nat)
    requires 0 < cap && h + |s| <= |log|
    requires forall j: nat {:trigger s[j]} :: j < |s| ==> s[j] == log[h + PieceOffset(j, |s|, h, cap)]
    ensures s == PieceOrder(log[h..h + |s|], h, cap)
  {
    var order := PieceOrder(log[h..h + |s|], h, cap);
    forall j: nat | j < |s| ensures s[j] == order[j] {
    }
  }

  lemma CutAndJoin<T>(s: seq<T>, k: nat)
    requires k <= |s|
    ensures s[..k] + s[k..] == s
  {
  }

  /** The arrival order is a permutation: nothing is lost and nothing comes twice. */
  lemma PieceOrderKeepsValues<T>(vals: seq<T>, head: nat, cap: nat)
    requires 0 < cap
    ensures multiset(PieceOrder(vals, head, cap)) == multiset(vals)
  {
    PieceOrderIsRotation(vals, head, cap);
    var right := cap - Slot(head, cap);
    if right < |vals| {
      CutAndJoin(vals, right);
      assert multiset(vals[..right] + vals[right..]) == multiset(vals[..right]) + multiset(vals[right..]);
    }
  }

  /** The offset of the value that a pop or a steal copies as number `j`. */
  function CopyOffset(steal: bool, j: nat, n: nat, head: nat, cap: nat): (o: nat)
    requires 0 < cap && j < n
    ensures o < n
  {
    if steal then PieceOffset(j, n, head, cap) else j
  }

  /** The values `head..head + n` of the log as a pop or a steal hands them over. */
  function Expected<T>(log: seq<T>, steal: bool, head: nat, n: nat, cap: nat): seq<T>
    requires head + n <= |log| && 0 < cap
  {
    if steal then PieceOrder(log[head..head + n], head, cap) else log[head..head + n]
  }

  lemma ExpectedKeepsValues<T>(log: seq<T>, steal: bool, head: nat, n: nat, cap: nat)
    requires head + n <= |log| && 0 < cap
    ensures multiset(Expected(log, steal, head, n, cap)) == multiset(log[head..head + n])
    ensures |Expected(log, steal, head, n, cap)| == n
  {
    PieceOrderKeepsValues(log[head..head + n], head, cap);
  }

  lemma CopiedIsExpected<T>(log: seq<T>, steal: bool, head: nat, copied: seq<T>, cap: nat)
    requires 0 < cap && head + |copied| <= |log|
    requires forall j: nat {:trigger copied[j]} :: j < |copied| ==>
               copied[j] == log[head + CopyOffset(steal, j, |copied|, head, cap)]
    ensures copied == Expected(log, steal, head, |copied|, cap)
  {
    if steal { IsPieceOrder(copied, log, head, cap); }
  }

  /** The two slices of a steal of `n` values from slot `i` on: the piece up to the end of the
      array, and the piece that wraps around. */
  function StealPieces<T>(buf: seq<T>, i: nat, n: nat): (seq<T>, seq<T>)
    requires i < |buf| && n <= |buf|
  {
    if n <= |buf| - i then (buf[i..i + n], []) else (buf[i..], buf[..n - (|buf| - i)])
  }

  /** The array has `vals` in the slots from `i` on, and around its end. */
  ghost predicate InSlots<T>(buf: seq<T>, i: nat, vals: seq<T>)
    requires i < |buf| && |vals| <= |buf|
  {
    forall j: nat {:trigger vals[j]} :: j < |vals| ==>
      vals[j] == if i + j < |buf| then buf[i + j] else buf[i + j - |buf|]
  }

  /** Values at the positions from `head` on are in the slots from the slot of `head` on. */
  lemma PositionsInSlots<T>(buf: seq<T>, head: nat, vals: seq<T>)
    requires 0 < |buf| && |vals| <= |buf| && StoredAt(buf, |buf|, head, vals)
    ensures InSlots(buf, Slot(head, |buf|), vals)
  {
    forall j: nat | j < |vals|
      ensures buf[Slot(head + j, |buf|)] == vals[j]
           && Slot(head + j, |buf|) == var i := Slot(head, |buf|); if i + j < |buf| then i + j else i + j - |buf|
    {
      SlotOfOffset(head, j, |buf|);
    }
  }

  /** The slices in array order are these values. */
  lemma StealPiecesAreValues<T>(buf: seq<T>, i: nat, vals: seq<T>)
    requires i < |buf| && |vals| <= |buf| && InSlots(buf, i, vals)
    ensures var (right, left) := StealPieces(buf, i, |vals|);
            right + left == vals && |right| == Min(|vals|, |buf| - i)
  {
  }

  /** Handed over the second one first, they are the values in the order of the pieces. */
  lemma StealPiecesInOrder<T>(buf: seq<T>, head: nat, vals: seq<T>, right: seq<T>, left: seq<T>)
    requires 0 < |buf| && |vals| <= |buf| && StoredAt(buf, |buf|, head, vals)
    requires (right, left) == StealPieces(buf, Slot(head, |buf|), |vals|)
    ensures left + right == PieceOrder(vals, head, |buf|)
  {
    PositionsInSlots(buf, head, vals);
    StealPiecesAreValues(buf, Slot(head, |buf|), vals);
    PieceOrderIsRotation(vals, head, |buf|);
    Rotation(right, left, vals);
    assert [] + right == right;
  }

  lemma Rotation<T>(a: seq<T>, b: seq<T>, s: seq<T>)
    requires a + b == s
    ensures b + a == s[|a|..] + s[..|a|]
  {
  }

  /** First-in first-out order survives exactly when the range does not wrap. */
  lemma PieceOrderIsFifoIff(n: nat, head: nat, cap: nat)
    requires 0 < cap
    ensures (forall j: nat {:trigger PieceOffset(j, n, head, cap)} :: j < n ==> PieceOffset(j, n, head, cap) == j)
       <==> n <= cap - head % cap
  {
    SlotIsRemainder(head, cap);
    if n > cap - head % cap {
      assert PieceOffset(0, n, head, cap) != 0;
    }
  }

  // ------------------------------------------------------------------ the copies themselves

  /** Copies `src` into `dst[at..]`. */
  method CopyInto<T>(src: seq<T>, dst: array<T>, at: nat)
    requires at + |src| <= dst.Length
    modifies dst
    ensures forall s :: 0 <= s < dst.Length ==>
              dst[s] == if at <= s < at + |src| then src[s - at] else old(dst[s])
  {
    for i := 0 to |src|
      invariant forall s :: 0 <= s < dst.Length ==>
                  dst[s] == if at <= s < at + i then src[s - at] else old(dst[s])
    {
      dst[at + i] := src[i];
    }
  }

  /** Stores a slice at logical position `startTail` and returns the new tail. */
  method CopySlice<T>(buffer: array<T>, startTail: nat, slice: seq<T>) returns (newTail: nat)
    requires 0 < buffer.Length && |slice| <= buffer.Length
    modifies buffer
    ensures newTail == startTail + |slice|
    ensures buffer[..] == WriteRange(old(buffer[..]), startTail, slice)
  {
    ghost var before := buffer[..];
    SlotIsRemainder(startTail, buffer.Length);
    var tailIdx := startTail % buffer.Length;
    if tailIdx + |slice| <= buffer.Length {
      CopyInto(slice, buffer, tailIdx);
    } else {
      var right := buffer.Length - tailIdx;
      CopyInto(slice[..right], buffer, tailIdx);
      CopyInto(slice[right..], buffer, 0);
    }
    forall s | 0 <= s < |before| ensures buffer[s] == WriteRange(before, startTail, slice)[s] {
      WrittenSlot(before, startTail, slice, s);
    }
    assert buffer[..] == WriteRange(before, startTail, slice);
    newTail := startTail + |slice|;
  }

  /** The content of slot `s` after a bulk store, by its distance from the first slot written. */
  lemma WrittenSlot<T>(buf: seq<T>, start: nat, slice: seq<T>, s: nat)
    requires |slice| <= |buf| && s < |buf|
    ensures var i, cap := Slot(start, |buf|), |buf|;
            WriteRange(buf, start, slice)[s]
            == if i <= s < i + |slice| then slice[s - i]
               else if s + cap < i + |slice| then slice[s + cap - i]
               else buf[s]
  {
    var i, cap := Slot(start, |buf|), |buf|;
    var k := if i <= s then s - i else s + cap - i;
    SlotOfOffset(start, k, cap);
    if k < |slice| {
      WrittenAt(buf, start, slice, k);
    } else {
      UntouchedSlot(buf, start, slice, k);
    }
  }

  lemma WrittenAt<T>(buf: seq<T>, start: nat, slice: seq<T>, k: nat)
    requires k < |slice| <= |buf|
    ensures WriteRange(buf, start, slice)[Slot(start + k, |buf|)] == slice[k]
  {
    WrittenSlots(buf, start, slice);
  }

  lemma {:induction false} UntouchedSlot<T>(buf: seq<T>, start: nat, slice: seq<T>, k: nat)
    requires |slice| <= k < |buf|
    ensures WriteRange(buf, start, slice)[Slot(start + k, |buf|)] == buf[Slot(start + k, |buf|)]
  {
    if slice != [] {
      var n := |slice| - 1;
      UntouchedSlot(buf, start, slice[..n], k);
      SlotsDiffer(start + n, start + k, |buf|);
    }
  }

  /** Copies `src[from..from + n]` to `dst[at..]`. */
  method CopyBetween<T>(src: array<T>, from: nat, dst: array<T>, at: nat, n: nat)
    requires from + n <= src.Length && at + n <= dst.Length && src != dst
    modifies dst
    ensures forall s :: 0 <= s < dst.Length ==>
              dst[s] == if at <= s < at + n then src[from + (s - at)] else old(dst[s])
  {
    for i := 0 to n
      invariant forall s :: 0 <= s < dst.Length ==>
                  dst[s] == if at <= s < at + i then src[from + (s - at)] else old(dst[s])
    {
      dst[at + i] := src[from + i];
    }
  }

  /** Copies the `n` values from logical position `head` on to the front of `dst`, in one piece
      or, past the end of the array, in two. */
  method CopyOut<T>(buffer: array<T>, head: nat, n: nat, dst: array<T>)
    requires 0 < buffer.Length && n <= buffer.Length && n <= dst.Length && buffer != dst
    modifies dst
    ensures dst[..n] == ReadRange(buffer[..], head, n)
    ensures dst[n..] == old(dst[n..])
  {
    SlotIsRemainder(head, buffer.Length);
    var headIdx := head % buffer.Length;
    var right := buffer.Length - headIdx;
    if n <= right {
      CopyBetween(buffer, headIdx, dst, 0, n);
    } else {
      CopyBetween(buffer, headIdx, dst, 0, right);
      CopyBetween(buffer, 0, dst, right, n - right);
    }
    forall k | 0 <= k < n ensures dst[..n][k] == ReadRange(buffer[..], head, n)[k] {
      SlotOfOffset(head, k, buffer.Length);
    }
    forall k | 0 <= k < dst.Length - n ensures dst[n..][k] == old(dst[n..])[k] {
    }
  }
}
