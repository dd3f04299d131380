/**
 The producer of the bounded single-producer multi-consumer queue (src/spmc/const_bounded.rs),
 running against any number of consumers.

 Every access to the shared head lets the consumers move first and last (`Interfere`); the
 module SpmcNetwork shows that moving the head on, up to the tail, is all they can do
 (`OthersRely`). The shared actions of the producer are `LoadHead`, `CasHead` and `StoreTail`;
 with the stores behind the tail they are the producer actions of that machine, and their
 preconditions are its guards.
 */
module SpmcProducer {
  import opened Ring
  import opened Overflow
  import opened SpmcNetwork
  import opened BatchReceiver
  import opened PushTest
  import opened Wrappers

  // ------------------------------------------------------------------ what a sound queue holds

  /** The live slots of a sound queue read as its log. */
  lemma ReadsLog<T>(q: Queue<T>, h: nat, n: nat)
    requires QueueInv(q) && q.head <= h && h + n <= q.tail
    ensures n <= q.cap && ReadRange(q.buf, h, n) == q.log[h..h + n]
  {
  }

  /** Taken from a sound queue, the slices of an overflow are the values published from `h` on, the
      wrapped piece first. */
  lemma SlicesAreBatch<T>(q: Queue<T>, h: nat, right: seq<T>, left: seq<T>)
    requires QueueInv(q) && q.head <= h && h + BatchSize(h, q.cap) <= q.tail
    requires (right, left) == SlicesOf(q.buf, h)
    ensures left + right == PieceOrder(q.log[h..h + BatchSize(h, q.cap)], h, q.cap)
  {
    SlicesAreRange(q.buf, h, right, left);
    ReadsLog(q, h, BatchSize(h, q.cap));
  }

  /** A batch for the receiver: the oldest published values from `h` on, in the order of the pieces,
      and `extra`. At an even capacity these are the values that the head moves over, once each. */
  ghost predicate OldestBatch<T>(log: seq<T>, h: nat, cap: nat, extra: seq<T>, batch: seq<T>)
    requires 0 < cap
  {
    var m := BatchSize(h, cap);
    && h + m <= |log| && batch == PieceOrder(log[h..h + m], h, cap) + extra
    && (cap % 2 == 0 ==> multiset(batch) == multiset(log[h..h + cap / 2]) + multiset(extra))
  }

  /** At an even capacity nothing is lost and nothing comes twice. */
  lemma EvenBatchConserves<T>(log: seq<T>, h: nat, cap: nat, extra: seq<T>, vals: seq<T>)
    requires 0 < cap && cap % 2 == 0 && h + BatchSize(h, cap) <= |log|
    requires vals == log[h..h + BatchSize(h, cap)]
    ensures BatchSize(h, cap) == cap / 2
    ensures multiset(PieceOrder(vals, h, cap) + extra) == multiset(log[h..h + cap / 2]) + multiset(extra)
  {
    PieceOrderKeepsValues(vals, h, cap);
  }

  lemma BatchOf<T>(log: seq<T>, h: nat, cap: nat, extra: seq<T>, vals: seq<T>)
    requires 0 < cap && h + BatchSize(h, cap) <= |log| && vals == log[h..h + BatchSize(h, cap)]
    ensures OldestBatch(log, h, cap, extra, PieceOrder(vals, h, cap) + extra)
  {
    if cap % 2 == 0 { EvenBatchConserves(log, h, cap, extra, vals); }
  }

  /** Exactly one batch was handed over. */
  predicate OneMore<T(==)>(given: seq<T>, before: seq<T>) {
    0 < |given| && given[..|given| - 1] == before
  }

  function Last<T>(s: seq<T>): T
    requires 0 < |s|
  {
    s[|s| - 1]
  }

  /** The slots from which an overflow takes its batch hold what was live. */
  lemma BatchIsOldest<T>(q: Queue<T>, h: nat, extra: seq<T>, vals: seq<T>)
    requires QueueInv(q) && q.head <= h && h + BatchSize(h, q.cap) <= q.tail
    requires vals == ReadRange(q.buf, h, BatchSize(h, q.cap))
    ensures OldestBatch(q.log, h, q.cap, extra, PieceOrder(vals, h, q.cap) + extra)
  {
    ReadsLog(q, h, BatchSize(h, q.cap));
    BatchOf(q.log, h, q.cap, extra, vals);
  }

  // ------------------------------------------------------------------ the queue

  class SpmcBoundedQueue<T(0)> {
    const capacity: nat
    const buffer: array<T>
    var tail: nat
    var cachedHead: nat
    var head: nat
    ghost var seen: nat                 // the largest head that the producer has observed
    ghost var log: seq<T>               // the value published at each position
    ghost var claims: seq<(nat, nat)>   // the ranges that the producer took: (start, length)

    ghost function View(): Queue<T>
      reads this, buffer
    {
      Queue(capacity, head, tail, cachedHead, seen, buffer[..], log)
    }

    ghost predicate Valid()
      reads this, buffer
    {
      QueueInv(View())
    }

    /** There is no more behind the cached head than the queue can hold. */
    ghost predicate Fresh()
      reads this
    {
      tail <= cachedHead + capacity
    }

    ghost function MarksNow(): Marks
      reads this
    {
      Marks(cachedHead, seen, tail)
    }

    /** The single pushes are safe (`PushIsSafeIff`). */
    ghost predicate CanPush()
      reads this
    {
      SafeToPush(MarksNow(), capacity)
    }

    constructor (cap: nat)
      requires 0 < cap
      ensures Valid() && Fresh() && fresh(buffer)
      ensures capacity == cap && head == tail == 0 && log == [] && claims == []
    {
      capacity := cap;
      buffer := new T[cap];
      tail, cachedHead, head := 0, 0, 0;
      seen, log, claims := 0, [], [];
    }

    // ---------------------------------------------------------------- shared accesses

    /** Consumers claim any number of published values. */
    method Interfere()
      requires Valid()
      modifies `head
      ensures Valid() && ConsumerRely(old(View()), View())
    {
      var h: nat :| head <= h <= tail;
      head := h;
    }

    method LoadHead() returns (h: nat)
      requires Valid()
      modifies `head, `seen
      ensures Valid() && old(head) <= h <= head && seen == h && tail <= h + capacity
    {
      Interfere();
      h := head;
      seen := h;
      Interfere();
    }

    /** Compare-and-exchange of the head by `n`. A weak one may fail for no reason, as often as
        the hardware likes but finitely often: at most `spurious` times in a call. One that moves
        the head past the tail leaves the queue unsound, and nothing is said of it from then on. */
    method CasHead(expected: nat, n: nat, spurious: nat) returns (won: bool, actual: nat, left: nat)
      requires Valid()
      modifies `head, `seen, `claims
      ensures !won || expected + n <= tail ==> Valid()
      ensures won ==> old(head) <= expected && tail <= expected + capacity
      ensures won ==> seen == expected + n <= head && claims == old(claims) + [(expected, n)]
      ensures won && tail < expected + n ==> head == expected + n
      ensures !won ==> old(head) <= actual <= head && seen == actual && claims == old(claims)
      ensures !won ==> tail <= actual + capacity && left <= spurious && (actual == expected ==> left < spurious)
    {
      Interfere();
      left, actual := spurious, head;
      var fails: bool := *;
      if head != expected {
        won := false;
        seen := head;
      } else if spurious > 0 && fails {
        won, left := false, spurious - 1;
        seen := head;
      } else {
        won := true;
        head, seen, claims := head + n, expected + n, claims + [(expected, n)];
      }
      if head <= tail {
        Interfere();
      }
    }

    /** Publishes the values stored at the positions from the old tail on. */
    method StoreTail(newTail: nat)
      requires Valid() && tail <= newTail <= head + capacity
      modifies `tail, `log
      ensures Valid() && View() == Publish(old(View()), ReadRange(buffer[..], old(tail), newTail - old(tail)))
    {
      log := log + ReadRange(buffer[..], tail, newTail - tail);
      tail := newTail;
    }

    /** A bulk store behind the tail while there is room. */
    method CopyBehindTail(start: nat, slice: seq<T>) returns (newTail: nat)
      requires Valid() && tail <= start && start + |slice| <= head + capacity
      modifies buffer
      ensures Valid() && newTail == start + |slice|
      ensures buffer[..] == WriteRange(old(buffer[..]), start, slice)
    {
      ghost var before := buffer[..];
      newTail := CopySlice(buffer, start, slice);
      WrittenSlots(before, start, slice);
    }

    /** Two stores one behind the other. */
    method CopyTwoBehindTail(first: seq<T>, last: seq<T>) returns (newTail: nat)
      requires Valid() && tail + |first| + |last| <= head + capacity
      modifies buffer
      ensures Valid() && newTail == tail + |first + last|
      ensures ReadRange(buffer[..], tail, |first + last|) == first + last
    {
      TwoStores(buffer[..], tail, first, last);
      newTail := CopyBehindTail(tail, first);
      newTail := CopyBehindTail(newTail, last);
    }

    method PushUnchecked(value: T, t: nat)
      requires Valid() && t == tail < head + capacity
      modifies `tail, `log, buffer
      ensures Valid() && tail == old(tail) + 1 && log == old(log) + [value]
    {
      RoundTrip(buffer[..], t, [value]);
      var newTail := CopyBehindTail(t, [value]);
      StoreTail(newTail);
    }

    method PushSlice(slice: seq<T>, t: nat)
      requires Valid() && t == tail && t + |slice| <= head + capacity
      modifies `tail, `log, buffer
      ensures Valid() && tail == old(tail) + |slice| && log == old(log) + slice
    {
      RoundTrip(buffer[..], t, slice);
      var newTail := CopyBehindTail(t, slice);
      StoreTail(newTail);
    }

    /** The producer's own length; it refreshes the cached head. */
    method ProducerLen() returns (len: nat)
      requires Valid()
      modifies `head, `seen, `cachedHead
      ensures Valid() && Fresh()
      ensures old(head) <= cachedHead <= head && len == tail - cachedHead <= capacity
    {
      cachedHead := LoadHead();
      len := tail - cachedHead;
    }

    // ---------------------------------------------------------------- pop

    /** Takes the oldest value that no consumer took, exactly once; `None` only when the consumers
        took them all. However often consumers get in between, the loop ends. */
    method ProducerPop(spurious: nat) returns (r: Option<T>)
      requires Valid()
      modifies `head, `seen, `cachedHead, `claims
      ensures Valid() && Fresh()
      ensures r.None? ==> head == tail && claims == old(claims)
      ensures r.Some? ==> old(head) < cachedHead <= head && claims == old(claims) + [(cachedHead - 1, 1)]
                          && r.value == log[cachedHead - 1]
    {
      var h, left := cachedHead, spurious;
      while true
        invariant Valid() && cachedHead <= h <= head && old(head) <= head && claims == old(claims)
        decreases tail - h, left
      {
        if h == tail {
          cachedHead := LoadHead();
          if h == cachedHead {
            return None;
          }
          h := cachedHead;
        }
        var won, actual;
        won, actual, left := CasHead(h, 1, left);
        if won {
          cachedHead := h + 1;
          SlotIsRemainder(h, capacity);
          return Some(buffer[h % capacity]);
        }
        h := actual;
      }
    }

    /** Copies values out that were live in an earlier state of the queue; nobody stored since. */
    method CopyClaimed(h: nat, n: nat, dst: array<T>, ghost before: Queue<T>)
      requires QueueInv(before) && before.cap == capacity && before.buf == buffer[..] && before.log == log
      requires before.head <= h && h + n <= before.tail && n <= dst.Length && dst != buffer
      modifies dst
      ensures h + n <= |log| && dst[..n] == log[h..h + n] && dst[n..] == old(dst[n..])
    {
      ReadsLog(before, h, n);
      CopyOut(buffer, h, n, dst);
    }

    /** The loop of a bulk pop: moves the head over as many values as are asked for or left, in one
        exchange. */
    method ClaimMany(max: nat, spurious: nat) returns (won: bool, h: nat, n: nat)
      requires Valid()
      modifies `head, `seen, `cachedHead, `claims
      ensures Valid()
      ensures !won ==> n == 0 && (max == 0 || head == tail) && claims == old(claims)
      ensures won ==> old(head) <= h && h + n == seen <= head && n == Min(max, tail - h)
      ensures won ==> cachedHead <= h && claims == old(claims) + [(h, n)]
    {
      var left := spurious;
      h := cachedHead;
      while true
        invariant Valid() && cachedHead <= h <= head && old(head) <= head && claims == old(claims)
        decreases tail - h, left
      {
        n := Min(max, tail - h);
        if n == 0 {
          cachedHead := LoadHead();
          if h == cachedHead {
            return false, h, 0;
          }
          h := cachedHead;
          n := Min(max, tail - h);
        }
        var actual;
        won, actual, left := CasHead(h, n, left);
        if won {
          return;
        }
        h := actual;
      }
    }

    /** Takes the oldest values into `dst`, as many as there is space for or as are left behind the
        claimed start; nothing only when there is no space to fill or nothing is left. */
    method ProducerPopMany(dst: array<T>, spurious: nat) returns (n: nat)
      requires Valid() && dst != buffer
      modifies `head, `seen, `cachedHead, `claims, dst
      ensures Valid()
      ensures n <= dst.Length && (n == 0 ==> dst.Length == 0 || head == tail)
      ensures claims == old(claims) ==> n == 0
      ensures claims != old(claims) ==> n == Min(dst.Length, tail - (cachedHead - n))
      ensures claims != old(claims) ==> old(head) + n <= cachedHead <= head
                                        && claims == old(claims) + [(cachedHead - n, n)]
                                        && dst[..n] == log[cachedHead - n..cachedHead] && dst[n..] == old(dst[n..])
    {
      ghost var before := View();
      var won, h;
      won, h, n := ClaimMany(dst.Length, spurious);
      if won {
        CopyClaimed(h, n, dst, before);
        cachedHead := h + n;
      }
    }

    // ---------------------------------------------------------------- push

    /** What an overflow from head `h` hands to the receiver, whatever the slots hold. */
    ghost function RawBatch(h: nat, extra: seq<T>): seq<T>
      requires 0 < capacity == buffer.Length
      reads this, buffer
    {
      PieceOrder(ReadRange(buffer[..], h, BatchSize(h, capacity)), h, capacity) + extra
    }

    /** One batch more was handed over, and it is the oldest values from `h` on and the value. */
    ghost predicate Gave(h: nat, value: T, given: seq<seq<T>>, before: seq<seq<T>>)
      requires 0 < capacity
      reads this
    {
      OneMore(given, before) && OldestBatch(log, h, capacity, [value], Last(given))
    }

    lemma RawIsOldest(before: Queue<T>, h: nat, extra: seq<T>)
      requires QueueInv(before) && before.cap == capacity == buffer.Length
      requires before.buf == buffer[..] && before.log == log
      requires before.head <= h && h + BatchSize(h, capacity) <= before.tail
      ensures OldestBatch(log, h, capacity, extra, RawBatch(h, extra))
    {
      BatchIsOldest(before, h, extra, ReadRange(before.buf, h, BatchSize(h, capacity)));
    }

    lemma GaveIsRight(before: Queue<T>, h: nat, value: T, given: seq<seq<T>>, givenBefore: seq<seq<T>>)
      requires QueueInv(before) && before.cap == capacity == buffer.Length
      requires before.buf == buffer[..] && before.log == log
      requires before.head <= h && before.tail == h + capacity
      requires given == givenBefore + [RawBatch(h, [value])]
      ensures Gave(h, value, given, givenBefore)
    {
      RawIsOldest(before, h, [value]);
    }

    /** The slices of an overflow from head `h`. */
    method Slices(h: nat) returns (right: seq<T>, left: seq<T>)
      requires 0 < capacity == buffer.Length
      ensures left + right == PieceOrder(ReadRange(buffer[..], h, BatchSize(h, capacity)), h, capacity)
    {
      var slices := SlicesOf(buffer[..], h);
      right, left := slices.0, slices.1;
      SlicesAreRange(buffer[..], h, right, left);
    }

    method GiveBatchAndOne(h: nat, br: MutexVecQueue<T>, value: T)
      requires 0 < capacity == buffer.Length && br.Valid() && !br.mine
      modifies br
      ensures br.Valid() && !br.mine && br.given == old(br.given) + [RawBatch(h, [value])]
    {
      var right, left := Slices(h);
      br.PushManyAndOne(left, right, value);
    }

    method GiveBatchAndSlice(h: nat, br: MutexVecQueue<T>, slice: seq<T>)
      requires 0 < capacity == buffer.Length && br.Valid() && !br.mine
      modifies br
      ensures br.Valid() && !br.mine && br.given == old(br.given) + [RawBatch(h, slice)]
    {
      var right, left := Slices(h);
      br.PushManyAndSlice(left, right, slice);
    }

    /** The same with the mutex held; it is released. */
    method GiveLockedBatchAndOne(h: nat, br: MutexVecQueue<T>, value: T)
      requires 0 < capacity == buffer.Length && br.Valid() && br.mine
      modifies br
      ensures br.Valid() && !br.mine && br.given == old(br.given) + [RawBatch(h, [value])]
    {
      var right, left := Slices(h);
      br.PushManyAndOneWithInner(left, right, value);
      br.Unlock();
    }

    method GiveLockedBatchAndSlice(h: nat, br: MutexVecQueue<T>, slice: seq<T>)
      requires 0 < capacity == buffer.Length && br.Valid() && br.mine
      modifies br
      ensures br.Valid() && !br.mine && br.given == old(br.given) + [RawBatch(h, slice)]
    {
      var right, left := Slices(h);
      br.PushManyAndSliceWithInner(left, right, slice);
      br.Unlock();
    }

    /** Moves half of a full queue and the value to the receiver if the head is still `hd` at the
        exchange, or stores the value after all if a consumer made room first; never both. */
    method HandleOverflowOne(t: nat, hd: nat, br: MutexVecQueue<T>, value: T, spurious: nat) returns (ghost atCas: nat)
      requires Valid() && br.Valid() && !br.mine && t == tail == hd + capacity && seen == hd
      modifies `head, `seen, `tail, `log, `claims, buffer, br
      ensures Valid() && br.Valid() && !br.mine && hd <= atCas <= head
      ensures atCas == hd ==>
        && log == old(log) && tail == old(tail) && seen == hd + capacity / 2
        && claims == old(claims) + [(hd, capacity / 2)] && Gave(hd, value, br.given, old(br.given))
      ensures atCas != hd ==>
        && log == old(log) + [value] && tail == old(tail) + 1 && seen == atCas
        && claims == old(claims) && br.given == old(br.given)
    {
      ghost var before := View();
      var h, left, won := hd, spurious, false;
      while !won && tail - h == capacity
        modifies `head, `seen, `claims
        invariant Valid() && hd <= h <= head && before.head <= head && h + capacity >= tail
        invariant won ==> before.head <= h == hd && seen == h + capacity / 2
        invariant won ==> claims == old(claims) + [(h, capacity / 2)]
        invariant !won ==> claims == old(claims) && h == seen
        decreases !won, tail - h, left
      {
        var actual;
        won, actual, left := CasHead(h, capacity / 2, left);
        if !won {
          h := actual;
        }
      }
      atCas := h;
      if won {
        GiveBatchAndOne(h, br, value);
        GaveIsRight(before, h, value, br.given, old(br.given));
      } else {
        PushUnchecked(value, t);
      }
    }

    /** What a bulk overflow from head `h` did: claimed half of the capacity and handed over a batch
        and the slice. If the whole batch was published, the batch is the oldest values and the
        queue stays sound, as always for slices of at most half of the capacity and one
        (`BulkOverflowFitsIff`); otherwise the head may have passed the tail. */
    ghost predicate Spilled(h: nat, oldClaims: seq<(nat, nat)>, oldGiven: seq<seq<T>>, given: seq<seq<T>>,
                            slice: seq<T>)
      requires 0 < capacity == buffer.Length
      reads this, buffer
    {
      && claims == oldClaims + [(h, capacity / 2)] && given == oldGiven + [RawBatch(h, slice)]
      && (h + BatchSize(h, capacity) <= tail ==> OldestBatch(log, h, capacity, slice, RawBatch(h, slice)))
      && (|slice| <= capacity / 2 + 1 ==> h + BatchSize(h, capacity) <= tail)
      && (h + capacity / 2 <= tail ==> Valid())
      && (h + capacity / 2 > tail ==> head == h + capacity / 2)
    }

    /** The same for a slice of any length: it overflows exactly if it does not fit behind the head
        that the last exchange met. */
    method HandleOverflowMany(t: nat, hd: nat, br: MutexVecQueue<T>, slice: seq<T>, spurious: nat)
      returns (ghost spilled: bool, ghost atCas: nat)
      requires Valid() && br.Valid() && !br.mine && t == tail && seen == hd && capacity < tail - hd + |slice|
      modifies `head, `seen, `tail, `log, `claims, buffer, br
      ensures br.Valid() && !br.mine && hd <= atCas && 0 < capacity == buffer.Length
      ensures spilled <==> capacity < old(tail) - atCas + |slice|
      ensures !spilled ==> Valid() && log == old(log) + slice && claims == old(claims) && br.given == old(br.given)
      ensures spilled ==> log == old(log) && tail == old(tail)
                          && Spilled(atCas, old(claims), old(br.given), br.given, slice)
    {
      ghost var before := View();
      var h, left, won := hd, spurious, false;
      while !won && capacity < tail - h + |slice|
        modifies `head, `seen, `claims
        invariant hd <= h <= head && before.head <= head && 0 < capacity == buffer.Length
        invariant !won || h + capacity / 2 <= tail ==> Valid()
        invariant won ==> before.head <= h && capacity < tail - h + |slice| && tail <= h + capacity
                          && claims == old(claims) + [(h, capacity / 2)]
                          && (tail < h + capacity / 2 ==> head == h + capacity / 2)
        invariant !won ==> claims == old(claims) && h == seen
        decreases !won, tail - h, left
      {
        var actual;
        won, actual, left := CasHead(h, capacity / 2, left);
        if !won {
          h := actual;
        }
      }
      spilled, atCas := won, h;
      if won {
        GiveBatchAndSlice(h, br, slice);
        SpillIsRight(h, slice, before);
      } else {
        PushSlice(slice, t);
      }
    }

    lemma SpillIsRight(h: nat, slice: seq<T>, before: Queue<T>)
      requires QueueInv(before) && before.cap == capacity == buffer.Length
      requires before.buf == buffer[..] && before.log == log && before.tail == tail
      requires before.head <= h && capacity < tail - h + |slice| && tail <= h + capacity
      ensures h + BatchSize(h, capacity) <= tail ==> OldestBatch(log, h, capacity, slice, RawBatch(h, slice))
      ensures |slice| <= capacity / 2 + 1 ==> h + BatchSize(h, capacity) <= tail
    {
      BulkOverflowFitsIff(capacity, |slice|);
      if h <= tail { assert BulkOverflows(tail - h, |slice|, capacity); }
      if h + BatchSize(h, capacity) <= tail { RawIsOldest(before, h, slice); }
    }

    /** The lock-free form gives up when somebody else has the mutex; a lost exchange means that
        there is room for one value. */
    method HandleLockFreeOverflowOne(t: nat, hd: nat, br: MutexVecQueue<T>, value: T)
      returns (ok: bool, ghost atCas: nat)
      requires Valid() && br.Valid() && !br.mine && t == tail == hd + capacity && seen == hd
      modifies `head, `seen, `tail, `log, `claims, buffer, br
      ensures Valid() && br.Valid() && !br.mine && hd <= atCas <= head
      ensures !ok ==> log == old(log) && claims == old(claims) && br.given == old(br.given) && br.locked
                      && tail == old(tail) && seen == atCas == hd
      ensures ok && atCas == hd ==>
        && log == old(log) && tail == old(tail) && seen == hd + capacity / 2
        && claims == old(claims) + [(hd, capacity / 2)] && Gave(hd, value, br.given, old(br.given))
      ensures ok && atCas != hd ==>
        && log == old(log) + [value] && tail == old(tail) + 1 && seen == atCas
        && claims == old(claims) && br.given == old(br.given)
    {
      ghost var before := View();
      atCas := hd;
      ok := br.TryLock();
      if !ok {
        return;
      }
      var won, actual, _ := CasHead(hd, capacity / 2, 0);
      if won {
        GiveLockedBatchAndOne(hd, br, value);
        GaveIsRight(before, hd, value, br.given, old(br.given));
      } else {
        br.Unlock();
        atCas := actual;
        PushUnchecked(value, t);
      }
    }

    /** The same for a slice of any length. After a lost exchange the slice may still not fit, and
        then the code answers `Ok` although nobody has the values (`NeverDropsIff`). */
    method HandleLockFreeOverflowMany(t: nat, hd: nat, br: MutexVecQueue<T>, slice: seq<T>)
      returns (ok: bool, ghost spilled: bool, ghost stored: bool)
      requires Valid() && br.Valid() && !br.mine && t == tail && seen == hd && capacity < tail - hd + |slice|
      modifies `head, `seen, `tail, `log, `claims, buffer, br
      ensures br.Valid() && !br.mine && (!spilled ==> Valid()) && 0 < capacity == buffer.Length
      ensures !ok ==> !spilled && !stored && br.locked
      ensures ok ==> (stored <==> spilled || old(tail) - seen + |slice| <= capacity)
      ensures spilled ==> stored && log == old(log) && tail == old(tail)
                          && Spilled(hd, old(claims), old(br.given), br.given, slice)
      ensures !spilled ==> claims == old(claims) && br.given == old(br.given)
                           && log == if stored then old(log) + slice else old(log)
      ensures ok && !spilled ==> hd < seen
    {
      ghost var before := View();
      ok := br.TryLock();
      if !ok {
        return false, false, false;
      }
      var won, actual, _ := CasHead(hd, capacity / 2, 0);
      spilled := won;
      if won {
        GiveLockedBatchAndSlice(hd, br, slice);
        SpillIsRight(hd, slice, before);
        stored := true;
      } else {
        br.Unlock();
        stored := tail - actual + |slice| <= capacity;
        if tail - actual + |slice| <= capacity {
          PushSlice(slice, t);
        }
      }
    }

    /** Pushes a value: it ends up in exactly one place, behind the tail or, after a batch of the
        oldest values, in the receiver. The call takes the path of `PushPathOf` for the heads that
        it meets and leaves what `AfterPush` says. */
    method ProducerPush(value: T, br: MutexVecQueue<T>, spurious: nat) returns (ghost atLoad: nat, ghost atCas: nat)
      requires Valid() && CanPush() && br.Valid() && !br.mine
      modifies `head, `seen, `cachedHead, `tail, `log, `claims, buffer, br
      ensures Valid() && br.Valid() && !br.mine
      ensures old(seen) <= atLoad <= atCas <= head
      ensures MarksNow() == AfterPush(old(MarksNow()), capacity, atLoad, atCas)
      ensures if PushPathOf(old(MarksNow()), capacity, atLoad, atCas).Spill? then
                log == old(log) && claims == old(claims) + [(atCas, capacity / 2)]
                && Gave(atCas, value, br.given, old(br.given))
              else log == old(log) + [value] && claims == old(claims) && br.given == old(br.given)
    {
      atLoad, atCas := head, head;
      var t, h := tail, cachedHead;
      if t - h == capacity {
        cachedHead := LoadHead();
        atLoad, atCas := cachedHead, cachedHead;
        if h == cachedHead {
          atCas := HandleOverflowOne(t, h, br, value, spurious);
          return;
        }
        // the queue is not full
      }
      PushUnchecked(value, t);
    }

    /** `Err(value)` leaves the queue and the receiver alone; somebody else has the receiver. */
    method ProducerLockFreePush(value: T, br: MutexVecQueue<T>)
      returns (ok: bool, ghost atLoad: nat, ghost atCas: nat)
      requires Valid() && CanPush() && br.Valid() && !br.mine
      modifies `head, `seen, `cachedHead, `tail, `log, `claims, buffer, br
      ensures Valid() && br.Valid() && !br.mine
      ensures old(seen) <= atLoad <= atCas <= head
      ensures !ok ==> log == old(log) && claims == old(claims) && br.given == old(br.given) && br.locked
                      && PushPathOf(old(MarksNow()), capacity, atLoad, atCas).Spill? && tail == cachedHead + capacity
      ensures ok ==> MarksNow() == AfterPush(old(MarksNow()), capacity, atLoad, atCas)
      ensures ok ==> if PushPathOf(old(MarksNow()), capacity, atLoad, atCas).Spill? then
                log == old(log) && claims == old(claims) + [(atCas, capacity / 2)]
                && Gave(atCas, value, br.given, old(br.given))
              else log == old(log) + [value] && claims == old(claims) && br.given == old(br.given)
    {
      atLoad, atCas := head, head;
      var t, h := tail, cachedHead;
      if t - h == capacity {
        cachedHead := LoadHead();
        atLoad, atCas := cachedHead, cachedHead;
        if h == cachedHead {
          ok, atCas := HandleLockFreeOverflowOne(t, h, br, value);
          return;
        }
        // the queue is not full
      }
      PushUnchecked(value, t);
      ok := true;
    }

    /** `Err` only when a load of the head found the queue full. */
    method ProducerMaybePush(value: T) returns (ok: bool)
      requires Valid() && CanPush()
      modifies `head, `seen, `cachedHead, `tail, `log, buffer
      ensures Valid() && Fresh()
      ensures if ok then log == old(log) + [value]
              else log == old(log) && tail == cachedHead + capacity && old(head) <= cachedHead
    {
      var t, h := tail, cachedHead;
      if t - h >= capacity {
        cachedHead := LoadHead();
        if h == cachedHead {
          return false;
        }
        // the queue is not full
      }
      PushUnchecked(value, t);
      ok := true;
    }

    /** The caller answers for the room. */
    method ProducerPushManyUnchecked(first: seq<T>, last: seq<T>)
      requires Valid() && tail + |first| + |last| <= head + capacity
      modifies `tail, `log, buffer
      ensures Valid() && log == old(log) + (first + last)
    {
      var newTail := CopyTwoBehindTail(first, last);
      StoreTail(newTail);
    }

    /** Pushes a slice of any length. The test loads the head whenever the cached one leaves too
        little room. It overflows exactly if the slice does not fit behind the last head met. */
    method ProducerPushMany(slice: seq<T>, br: MutexVecQueue<T>, spurious: nat)
      returns (ghost spilled: bool, ghost atCas: nat)
      requires Valid() && br.Valid() && !br.mine
      modifies `head, `seen, `cachedHead, `tail, `log, `claims, buffer, br
      ensures br.Valid() && !br.mine && old(head) <= atCas && 0 < capacity == buffer.Length
      ensures spilled <==> capacity < old(tail) - atCas + |slice|
      ensures !spilled ==> Valid() && log == old(log) + slice && claims == old(claims) && br.given == old(br.given)
      ensures spilled ==> log == old(log) && tail == old(tail)
                          && Spilled(atCas, old(claims), old(br.given), br.given, slice)
    {
      spilled, atCas := false, head;
      if tail - cachedHead + |slice| > capacity {
        cachedHead := LoadHead();
        if tail - cachedHead + |slice| > capacity {
          spilled, atCas := HandleOverflowMany(tail, cachedHead, br, slice, spurious);
          return;
        }
      }
      atCas := head;
      PushSlice(slice, tail);
    }

    /** `Ok` with nothing stored is the case in which the code loses the slice: exactly when the
        exchange was lost and the slice did not fit behind the head that it met. */
    method ProducerLockFreePushMany(slice: seq<T>, br: MutexVecQueue<T>)
      returns (ok: bool, ghost spilled: bool, ghost stored: bool)
      requires Valid() && br.Valid() && !br.mine
      modifies `head, `seen, `cachedHead, `tail, `log, `claims, buffer, br
      ensures br.Valid() && !br.mine && (!spilled ==> Valid()) && 0 < capacity == buffer.Length
      ensures !ok ==> !spilled && !stored && br.locked
      ensures !ok || spilled ==> capacity < old(tail) - cachedHead + |slice| && old(head) <= cachedHead
      ensures ok ==> (stored <==> spilled || old(tail) - seen + |slice| <= capacity)
      ensures spilled ==> stored && log == old(log) && tail == old(tail)
                          && Spilled(cachedHead, old(claims), old(br.given), br.given, slice)
      ensures !spilled ==> claims == old(claims) && br.given == old(br.given)
                           && log == if stored then old(log) + slice else old(log)
      ensures |slice| <= 1 ==> ok == stored
    {
      if tail - cachedHead + |slice| > capacity {
        cachedHead := LoadHead();
        if tail - cachedHead + |slice| > capacity {
          ok, spilled, stored := HandleLockFreeOverflowMany(tail, cachedHead, br, slice);
          return;
        }
      }
      PushSlice(slice, tail);
      return true, false, true;
    }

    /** `Err` only when a load of the head left too little room. */
    method ProducerMaybePushMany(slice: seq<T>) returns (ok: bool)
      requires Valid()
      modifies `head, `seen, `cachedHead, `tail, `log, buffer
      ensures Valid() && Fresh()
      ensures if ok then log == old(log) + slice
              else log == old(log) && tail + |slice| > cachedHead + capacity && old(head) <= cachedHead
    {
      if tail - cachedHead + |slice| > capacity {
        cachedHead := LoadHead();
        if tail - cachedHead + |slice| > capacity {
          return false;
        }
      }
      PushSlice(slice, tail);
      ok := true;
    }

    /** Stores two slices behind the tail, the second one first, and publishes them only if the
        condition (the exchange on the head of the source of a steal) holds. */
    method ProducerCopyAndCommitIf(left: seq<T>, right: seq<T>, condition: bool) returns (ok: bool)
      requires Valid() && tail + |left| + |right| <= head + capacity
      modifies `tail, `log, buffer
      ensures Valid() && ok == condition
      ensures log == if ok then old(log) + (right + left) else old(log)
    {
      var newTail := CopyTwoBehindTail(right, left);
      ok := condition;
      if ok {
        StoreTail(newTail);
      }
    }
  }
}
