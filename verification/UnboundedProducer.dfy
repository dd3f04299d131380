/**
 The producer of the unbounded queues, running against consumers: src/spmc/unbounded.rs, and
 src/spsc/unbounded.rs, whose producer differs in the test of its push and has no pop.

 As in SpmcProducer every access to the shared head lets the consumers move first and last. The
 shared actions `LoadHead`, `CasHead` and `StoreWord`, the stores behind the tail and the
 installation of a version are the producer actions of the machine in SpmcUnbounded, and their
 preconditions are its guards.
 */
module UnboundedProducer {
  import opened Ring
  import opened PushTest
  import opened SpmcUnbounded
  import opened Wrappers
  import B = BufferVersion

  // ------------------------------------------------------------------ growing a buffer

  /** The pieces of `buf` that growth copies: from the slot of `h` to the slot of `t`, or around the
      end of the array when the latter is not behind the former. */
  function Pieces<T>(buf: seq<T>, h: nat, t: nat): (seq<T>, seq<T>)
    requires 0 < |buf| && h <= t
  {
    var hi, ti := Slot(h, |buf|), Slot(t, |buf|);
    if h == t then ([], [])
    else if hi < ti then (buf[hi..ti], [])
    else (buf[hi..], buf[..ti])
  }

  /** The tail that growth computes from the pieces is the old tail exactly when the positions from
      the cached head on fit into the old buffer: empty, contiguous, wrapped or exactly full. */
  lemma RecomputedTailIff<T>(buf: seq<T>, h: nat, t: nat)
    requires 0 < |buf| && h <= t
    ensures var (right, left) := Pieces(buf, h, t);
            h + |right| + |left| == t <==> t - h <= |buf|
  {
    if t - h <= |buf| { SlotOfOffset(h, t - h, |buf|); }
  }

  /** Then the pieces are the values at these positions, in order. */
  lemma PiecesAreLive<T>(buf: seq<T>, h: nat, t: nat)
    requires 0 < |buf| && h <= t && t - h <= |buf|
    ensures var (right, left) := Pieces(buf, h, t);
            right + left == ReadRange(buf, h, t - h)
  {
    RecomputedTailIff(buf, h, t);
    var (right, left) := Pieces(buf, h, t);
    var live := ReadRange(buf, h, t - h);
    SlotOfOffset(h, t - h, |buf|);
    forall k: nat | k < t - h ensures (right + left)[k] == live[k] {
      SlotOfOffset(h, k, |buf|);
    }
  }

  /** Growth preserves the queue: stored from the same head on, the new buffer has the same value
      at every position. */
  lemma GrowthKeepsQueue<T>(buf: seq<T>, memory: seq<T>, h: nat, t: nat, right: seq<T>, left: seq<T>)
    requires 0 < |buf| <= |memory| && h <= t && t - h <= |buf| && (right, left) == Pieces(buf, h, t)
    ensures h + |right| + |left| == t
    ensures ReadRange(WriteRange(WriteRange(memory, h, right), h + |right|, left), h, t - h) == ReadRange(buf, h, t - h)
  {
    PiecesAreLive(buf, h, t);
    RecomputedTailIff(buf, h, t);
    StoredPieces(buf, memory, h, t - h, right, left);
  }

  lemma StoredPieces<T>(buf: seq<T>, memory: seq<T>, h: nat, n: nat, right: seq<T>, left: seq<T>)
    requires 0 < |buf| <= |memory| && n <= |buf| && right + left == ReadRange(buf, h, n)
    ensures ReadRange(WriteRange(WriteRange(memory, h, right), h + |right|, left), h, n) == ReadRange(buf, h, n)
  {
    assert |right + left| == n;
    TwoStores(memory, h, right, left);
  }

  /** A stale cached head makes growth go wrong: after a bulk pop of `n` values from a full queue, which
      leaves the cached head where it was, and `n` values stored in their place, the tail that growth
      computes is the position of the oldest value, `n` positions after the cached head. */
  lemma StaleGrowthLosesTail<T>(buf: seq<T>, h: nat, n: nat)
    requires 0 < n <= |buf|
    ensures var t := h + |buf| + n;
            var (right, left) := Pieces(buf, h, t);
            h + |right| + |left| == h + n == t - |buf|
  {
    SlotOfOffset(h, n, |buf|);
    NextLap(h, n, |buf|);
  }

  lemma NextLap(h: nat, n: nat, cap: nat)
    requires 0 < n <= cap
    ensures Slot(h + cap + n, cap) == Slot(h + n, cap)
  {
  }

  // ------------------------------------------------------------------ lemmas for the class

  /** A store that keeps the live positions keeps the shared state sound. */
  lemma RefillIsShared<T>(q: Shared<T>, buf: seq<T>)
    requires SharedInv(q) && |buf| == Newest(q).cap
    requires var v := Newest(q);
             forall p: nat {:trigger Slot(p, v.cap)} :: 0 < v.cap && q.head <= p < q.tail ==>
               buf[Slot(p, v.cap)] == v.buf[Slot(p, v.cap)]
    ensures var v := Newest(q); SharedInv(SetNewest(q, v.(buf := buf)))
  {
    var v := Newest(q);
    var q' := SetNewest(q, v.(buf := buf));
    assert VersionInv(v, q.head, q.log);
    assert VersionInv(Newest(q'), q'.head, q'.log);
    assert forall i: nat {:trigger q'.versions[i]} :: i < |q.versions| - 1 ==> q'.versions[i] == q.versions[i];
  }

  lemma RangeIsStored<T>(q: Shared<T>, n: nat)
    requires SharedInv(q) && q.tail + n <= q.head + Newest(q).cap
    ensures 0 < |Newest(q).buf| && ProducerInv(q, Filling(ReadRange(Newest(q).buf, q.tail, n)))
  {
    assert VersionInv(Newest(q), q.head, q.log);
  }

  /** A larger buffer that reads the same from `h` on is ready to be installed. */
  lemma RangeIsGrown<T>(q: Shared<T>, h: nat, buf: seq<T>)
    requires SharedInv(q) && q.published == NewestId(q)
    requires h <= q.seen && q.tail <= h + Newest(q).cap && 0 < Newest(q).cap < |buf|
    requires |Newest(q).buf| == Newest(q).cap
    requires ReadRange(buf, h, q.tail - h) == ReadRange(Newest(q).buf, h, q.tail - h)
    ensures ProducerInv(q, Growing(h, q.tail, buf))
  {
    var v := Newest(q);
    assert VersionInv(v, q.head, q.log);
    forall p: nat | q.head <= p < q.tail ensures buf[Slot(p, |buf|)] == q.log[p] {
      assert ReadRange(buf, h, q.tail - h)[p - h] == buf[Slot(p, |buf|)];
      assert ReadRange(v.buf, h, q.tail - h)[p - h] == v.buf[Slot(p, v.cap)];
    }
  }

  /** The live slots of the newest version read as the log. */
  lemma ReadsLog<T>(q: Shared<T>, h: nat, n: nat)
    requires SharedInv(q) && q.head <= h && h + n <= q.tail
    ensures 0 < Newest(q).cap == |Newest(q).buf| && n <= Newest(q).cap
    ensures ReadRange(Newest(q).buf, h, n) == q.log[h..h + n]
  {
    assert VersionInv(Newest(q), q.head, q.log);
  }

  /** The copy itself. */
  method CopyPieces<T>(buffer: array<T>, h: nat, right: seq<T>, left: seq<T>) returns (newTail: nat)
    requires 0 < buffer.Length && |right| + |left| <= buffer.Length
    modifies buffer
    ensures newTail == h + |right| + |left|
    ensures buffer[..] == WriteRange(WriteRange(old(buffer[..]), h, right), h + |right|, left)
  {
    newTail := CopySlice(buffer, h, right);
    newTail := CopySlice(buffer, newTail, left);
  }

  method CopyLive<T(0)>(buffer: array<T>, h: nat, t: nat, newCapacity: nat) returns (newBuffer: array<T>, newTail: nat)
    requires 0 < buffer.Length < newCapacity && h <= t && t - h <= buffer.Length
    ensures fresh(newBuffer) && newBuffer.Length == newCapacity && newTail == t
    ensures ReadRange(newBuffer[..], h, t - h) == ReadRange(buffer[..], h, t - h)
  {
    var (right, left) := Pieces(buffer[..], h, t);
    newBuffer := new T[newCapacity];
    GrowthKeepsQueue(buffer[..], newBuffer[..], h, t, right, left);
    newTail := CopyPieces(newBuffer, h, right, left);
  }

  // ------------------------------------------------------------------ the queue

  class UnboundedQueue<T(0)> {
    var buffer: array<T>                // the newest version, which the producer has cached
    var id: nat                         // ... and its id
    var tail: nat                       // the shared word: the tail
    var published: nat                  // ... and the published version
    var cachedHead: nat
    var head: nat
    ghost var older: seq<Version<T>>    // the versions that consumers may still work on
    ghost var seen: nat                 // the largest head that the producer has observed
    ghost var log: seq<T>               // the value published at each position
    ghost var claims: seq<(nat, nat)>   // the ranges that the producer took: (start, length)

    ghost function View(): Shared<T>
      reads this, buffer
    {
      Shared(head, tail, published, cachedHead, seen, older + [Version(buffer.Length, buffer[..], tail)], log)
    }

    ghost predicate Sound()
      reads this, buffer
    {
      SharedInv(View()) && id == |older| && B.IsPowerOfTwo(buffer.Length)
    }

    /** Sound, with no version in the cell that is not published. */
    ghost predicate Valid()
      reads this, buffer
    {
      Sound() && published == id
    }

    /** There is no more behind the cached head than the buffer can hold. */
    ghost predicate Fresh()
      reads this
    {
      tail <= cachedHead + buffer.Length
    }

    /** The single pushes are safe (`PushTest.TestIsSafeIff`). */
    ghost predicate CanPush()
      reads this
    {
      SafeToPush(Marks(cachedHead, seen, tail), buffer.Length)
    }

    /** What a push with the given test did whose load met (or would have met) the head `atLoad`: one
        version more exactly when it could not store in place, and the cached head is the one that
        was loaded, if one was. */
    twostate predicate Pushed(test: Test, atLoad: nat)
      reads this
    {
      var m, cap := Marks(old(cachedHead), old(seen), old(tail)), old(buffer.Length);
      && (if StoresInPlace(test, m, cap, atLoad) then buffer == old(buffer) && id == old(id)
          else fresh(buffer) && id == old(id) + 1 && B.GrownFor(cap, 1, buffer.Length))
      && cachedHead == if Fires(test, m, cap) then atLoad else old(cachedHead)
    }

    constructor (capacity: nat)
      requires B.IsPowerOfTwo(capacity)
      ensures Valid() && Fresh() && fresh(buffer)
      ensures buffer.Length == capacity && head == tail == 0 && log == [] && claims == []
    {
      buffer := new T[capacity];
      tail, cachedHead, head, id, published := 0, 0, 0, 0, 0;
      older, seen, log, claims := [], 0, [], [];
      new;
      assert VersionInv(View().versions[0], 0, []);
    }

    // ---------------------------------------------------------------- shared accesses

    /** Consumers claim any number of published values. */
    method Interfere()
      requires Sound()
      modifies `head
      ensures Sound() && ConsumerRely(old(View()), View()) && AnyRely(old(View()), View())
    {
      var h: nat :| head <= h <= tail;
      ClaimKeepsSharedInv(View(), h - head);
      head := h;
      assert View() == Claim(old(View()), h - old(head));
    }

    method LoadHead() returns (h: nat)
      requires Sound()
      modifies `head, `seen
      ensures Sound() && old(head) <= h <= head && seen == h && tail <= h + buffer.Length
    {
      Interfere();
      h := head;
      seen := h;
      Interfere();
    }

    /** One compare-and-exchange of the head by `n`, which may fail for no reason (`fails`). */
    method Cas(expected: nat, n: nat, fails: bool) returns (won: bool, actual: nat)
      requires Sound() && expected + n <= tail
      modifies `head, `seen, `claims
      ensures Sound() && actual == old(head)
      ensures won == (actual == expected && !fails)
      ensures if won then head == seen == expected + n && claims == old(claims) + [(expected, n)]
              else head == seen == actual && claims == old(claims)
    {
      actual := head;
      won := head == expected && !fails;
      if won {
        ClaimKeepsSharedInv(View(), n);
        head, claims := head + n, claims + [(expected, n)];
        assert View() == Claim(old(View()), n);
      }
      seen := head;
    }

    /** The same while consumers get in between; a weak one fails for no reason at most `spurious`
        times in a call. */
    method CasHead(expected: nat, n: nat, spurious: nat) returns (won: bool, actual: nat, left: nat)
      requires Sound() && expected + n <= tail
      modifies `head, `seen, `claims
      ensures Sound()
      ensures won ==> old(head) <= expected && seen == expected + n <= head && claims == old(claims) + [(expected, n)]
      ensures !won ==> old(head) <= actual <= head && seen == actual && claims == old(claims)
      ensures !won ==> left <= spurious && (actual == expected ==> left < spurious)
    {
      Interfere();
      var fails: bool := *;
      left := if fails && spurious > 0 then spurious - 1 else spurious;
      won, actual := Cas(expected, n, fails && spurious > 0);
      Interfere();
    }

    /** The store of the shared word publishes the values stored from the old tail on, and the
        newest version with them. */
    method StoreWord(newTail: nat, ghost slice: seq<T>)
      requires Sound() && newTail == tail + |slice| <= head + buffer.Length
      requires ReadRange(buffer[..], tail, |slice|) == slice
      modifies `tail, `log, `published
      ensures Valid() && View() == PublishAll(old(View()), slice) && AnyRely(old(View()), View())
    {
      RangeIsStored(View(), |slice|);
      PublishIsShared(View(), slice);
      log := log + slice;
      tail, published := newTail, id;
      assert View() == PublishAll(old(View()), slice);
    }

    /** A bulk store behind the tail while there is room. */
    method CopyBehindTail(start: nat, slice: seq<T>) returns (newTail: nat)
      requires Sound() && tail <= start && start + |slice| <= head + buffer.Length
      modifies buffer
      ensures Sound() && newTail == start + |slice|
      ensures buffer[..] == WriteRange(old(buffer[..]), start, slice) && AnyRely(old(View()), View())
    {
      ghost var before := View();
      WrittenSlots(buffer[..], start, slice);
      newTail := CopySlice(buffer, start, slice);
      RefillIsShared(before, buffer[..]);
      assert View() == SetNewest(before, Newest(before).(buf := buffer[..]));
    }

    /** Two stores one behind the other are one. */
    method CopyBoth(first: seq<T>, last: seq<T>) returns (newTail: nat)
      requires Sound() && tail + |first + last| <= head + buffer.Length
      modifies buffer
      ensures Sound() && newTail == tail + |first + last|
      ensures buffer[..] == WriteRange(old(buffer[..]), tail, first + last)
    {
      WriteRangeConcat(buffer[..], tail, first, last);
      newTail := CopyBehindTail(tail, first);
      newTail := CopyBehindTail(newTail, last);
    }

    method CopyTwoBehindTail(first: seq<T>, last: seq<T>) returns (newTail: nat)
      requires Sound() && tail + |first + last| <= head + buffer.Length
      modifies buffer
      ensures Sound() && newTail == tail + |first + last|
      ensures ReadRange(buffer[..], tail, |first + last|) == first + last
    {
      RoundTrip(buffer[..], tail, first + last);
      newTail := CopyBoth(first, last);
    }

    method PushUnchecked(value: T, t: nat)
      requires Valid() && t == tail < head + buffer.Length
      modifies `tail, `log, `published, buffer
      ensures Valid() && tail == old(tail) + 1 && log == old(log) + [value]
    {
      PushSlice([value], t);
    }

    method PushSlice(slice: seq<T>, t: nat)
      requires Sound() && t == tail && t + |slice| <= head + buffer.Length
      modifies `tail, `log, `published, buffer
      ensures Valid() && tail == old(tail) + |slice| && log == old(log) + slice
    {
      RoundTrip(buffer[..], t, slice);
      var newTail := CopyBehindTail(t, slice);
      StoreWord(newTail, slice);
    }

    /** Refreshes the cached head and compares it with the one in use. */
    method Refresh(h: nat) returns (same: bool)
      requires Valid() && h <= head
      modifies `head, `seen, `cachedHead
      ensures Valid() && Fresh()
      ensures h <= cachedHead <= head && old(head) <= cachedHead && same == (h == cachedHead)
    {
      cachedHead := LoadHead();
      same := h == cachedHead;
    }

    /** The producer's own length; it refreshes the cached head. */
    method ProducerLen() returns (len: nat)
      requires Valid()
      modifies `head, `seen, `cachedHead
      ensures Valid() && Fresh()
      ensures old(head) <= cachedHead <= head && len == tail - cachedHead <= buffer.Length
    {
      var _ := Refresh(cachedHead);
      len := tail - cachedHead;
    }

    // ---------------------------------------------------------------- growth

    /** Makes a larger buffer that has the values from position `h` on in their places and stores it
        into the version cell; the recomputed tail is the tail (`RecomputedTailIff`). */
    method CreateNewVersion(h: nat, t: nat, newCapacity: nat) returns (newTail: nat)
      requires Valid() && t == tail && h <= seen && tail <= h + buffer.Length
      requires buffer.Length < newCapacity && B.IsPowerOfTwo(newCapacity)
      modifies `buffer, `id, `older
      ensures Sound() && fresh(buffer) && buffer.Length == newCapacity && newTail == t
      ensures View() == Install(old(View()), buffer[..]) && id == old(id) + 1 && AnyRely(old(View()), View())
      ensures ReadRange(buffer[..], h, t - h) == old(ReadRange(buffer[..], h, t - h))
    {
      ghost var before := View();
      var newBuffer;
      newBuffer, newTail := CopyLive(buffer, h, t, newCapacity);
      RangeIsGrown(before, h, newBuffer[..]);
      InstallIsShared(before, h, newBuffer[..]);
      older := older + [Version(buffer.Length, buffer[..], tail)];
      buffer, id := newBuffer, id + 1;
      assert View() == Install(before, buffer[..]);
    }

    /** Grows and appends `values`, with room to spare behind them. */
    method HandleOverflow(h: nat, t: nat, values: seq<T>)
      requires Valid() && t == tail && h == cachedHead && tail <= h + buffer.Length
      modifies `buffer, `id, `older, `tail, `log, `published
      ensures Valid() && fresh(buffer) && id == old(id) + 1
      ensures log == old(log) + values && tail == old(tail) + |values| < cachedHead + buffer.Length
      ensures B.GrownFor(old(buffer.Length), |values|, buffer.Length)
    {
      var newCapacity := B.CapacityFor(buffer.Length, |values|);
      var newTail := CreateNewVersion(h, t, newCapacity);
      PushSlice(values, newTail);
    }

    /** `producer_reserve` copies from the cached head without loading the head. */
    method ProducerReserve(newCapacity: nat)
      requires Valid() && Fresh() && buffer.Length < newCapacity && B.IsPowerOfTwo(newCapacity)
      modifies `buffer, `id, `older, `tail, `log, `published
      ensures Valid() && Fresh() && fresh(buffer) && buffer.Length == newCapacity
      ensures log == old(log) && tail == old(tail) && id == old(id) + 1
    {
      var newTail := CreateNewVersion(cachedHead, tail, newCapacity);
      StoreWord(newTail, []);
    }

    // ---------------------------------------------------------------- push

    /** A push always succeeds: in place, or into a larger version. */
    method ProducerPush(value: T) returns (ghost atLoad: nat)
      requires Valid() && CanPush()
      modifies this, buffer
      ensures Valid() && Fresh() && old(seen) <= atLoad <= head && Pushed(AtLeast, atLoad)
      ensures log == old(log) + [value] && claims == old(claims) && old(head) <= head
    {
      atLoad := head;
      var t, h := tail, cachedHead;
      if t - h >= buffer.Length {
        var same := Refresh(h);
        atLoad := cachedHead;
        if same {
          HandleOverflow(h, t, [value]);
          return;
        }
        // the queue is not full
      }
      PushUnchecked(value, t);
    }

    /** The push of the single-consumer queue, which tests for equality. */
    method SpscProducerPush(value: T) returns (ghost atLoad: nat)
      requires Valid() && CanPush()
      modifies this, buffer
      ensures Valid() && old(seen) <= atLoad <= head && Pushed(Equal, atLoad)
      ensures old(Fresh()) ==> Fresh()
      ensures log == old(log) + [value] && claims == old(claims) && old(head) <= head
    {
      atLoad := head;
      var t, h := tail, cachedHead;
      if t - h == buffer.Length {
        var same := Refresh(h);
        atLoad := cachedHead;
        if same {
          HandleOverflow(h, t, [value]);
          return;
        }
        // the queue is not full
      }
      PushUnchecked(value, t);
    }

    /** A bulk push of any length; its test loads the head whenever the cached one leaves too little
        room, so it needs no fresh cached head. It grows exactly if the slice does not fit behind the
        last head met. */
    method ProducerPushMany(slice: seq<T>) returns (ghost met: nat)
      requires Valid()
      modifies this, buffer
      ensures Valid() && Fresh() && (buffer == old(buffer) || fresh(buffer))
      ensures old(head) <= met <= head
      ensures id == if old(buffer.Length) < old(tail) - met + |slice| then old(id) + 1 else old(id)
      ensures if id == old(id) then buffer == old(buffer) else B.GrownFor(old(buffer.Length), |slice|, buffer.Length)
      ensures log == old(log) + slice && claims == old(claims) && old(head) <= head
    {
      met := head;
      if tail - cachedHead + |slice| > buffer.Length {
        var _ := Refresh(cachedHead);
        met := cachedHead;
        if tail - cachedHead + |slice| > buffer.Length {
          HandleOverflow(cachedHead, tail, slice);
          return;
        }
      }
      PushSlice(slice, tail);
    }

    /** The caller answers for the room. */
    method ProducerPushManyUnchecked(first: seq<T>, last: seq<T>)
      requires Valid() && tail + |first + last| <= head + buffer.Length
      modifies `tail, `log, `published, buffer
      ensures Valid() && log == old(log) + (first + last)
    {
      var newTail := CopyTwoBehindTail(first, last);
      StoreWord(newTail, first + last);
    }

    /** Stores two slices behind the tail, the second one first, and publishes them only if the
        condition (the exchange on the head of the source of a steal) holds. */
    method ProducerCopyAndCommitIf(left: seq<T>, right: seq<T>, condition: bool) returns (ok: bool)
      requires Valid() && tail + |right + left| <= head + buffer.Length
      modifies `tail, `log, `published, buffer
      ensures Valid() && ok == condition
      ensures log == if ok then old(log) + (right + left) else old(log)
    {
      var newTail := CopyTwoBehindTail(right, left);
      ok := condition;
      if ok {
        StoreWord(newTail, right + left);
      }
    }

    // ---------------------------------------------------------------- pop

    /** The loop of a pop: moves the head over one published value; `None` when there is nothing to
        take. However often consumers get in between, it ends. */
    method ClaimOne(spurious: nat) returns (r: Option<nat>)
      requires Valid()
      modifies `head, `seen, `cachedHead, `claims
      ensures Valid() && old(cachedHead) <= cachedHead <= head && old(head) <= head
      ensures r.None? ==> head == tail && claims == old(claims)
      ensures r.Some? ==> cachedHead <= r.value && old(head) <= r.value < seen == r.value + 1 <= head
                          && claims == old(claims) + [(r.value, 1)]
    {
      var h, left := cachedHead, spurious;
      while true
        invariant Valid() && old(cachedHead) <= cachedHead <= h <= head && old(head) <= head && claims == old(claims)
        decreases tail - h, left
      {
        if h == tail {
          var same := Refresh(h);
          if same {
            return None;
          }
          h := cachedHead;
        }
        var won, actual;
        won, actual, left := CasHead(h, 1, left);
        if won {
          return Some(h);
        }
        h := actual;
      }
    }

    /** Reads a value that was live in an earlier state of the queue; nobody stored since. */
    method ReadClaimed(h: nat, ghost before: Shared<T>) returns (value: T)
      requires SharedInv(before) && Newest(before).buf == buffer[..] && before.log == log
      requires before.head <= h < before.tail
      ensures h < |log| && value == log[h]
    {
      ReadsLog(before, h, 1);
      value := buffer[Slot(h, buffer.Length)];
      assert ReadRange(buffer[..], h, 1)[0] == log[h..h + 1][0];
    }

    /** Takes the oldest value that no consumer took, exactly once; `None` only when the consumers
        took them all. */
    method ProducerPop(spurious: nat) returns (r: Option<T>)
      requires Valid()
      modifies `head, `seen, `cachedHead, `claims
      ensures Valid()
      ensures r.None? ==> head == tail && claims == old(claims)
      ensures r.Some? ==> old(head) < cachedHead <= head && claims == old(claims) + [(cachedHead - 1, 1)]
                          && r.value == log[cachedHead - 1]
    {
      ghost var before := View();
      var won := ClaimOne(spurious);
      if won.None? {
        return None;
      }
      var h := won.value;
      cachedHead := h + 1;
      var value := ReadClaimed(h, before);
      r := Some(value);
    }

    /** How much to take from the head in use on, after a refresh if it promises nothing. */
    method NextRange(max: nat, from: nat) returns (h: nat, n: nat, stop: bool)
      requires Valid() && cachedHead <= from <= head
      modifies `head, `seen, `cachedHead
      ensures Valid() && cachedHead <= h <= head && old(head) <= head && from <= h
      ensures n == Min(max, tail - h) && h + n <= tail
      ensures stop ==> n == 0 && (max == 0 || cachedHead == head == tail)
      ensures 0 < max && !stop ==> 0 < n && cachedHead == old(cachedHead)
    {
      h := from;
      n := Min(max, tail - h);
      stop := false;
      if n == 0 {
        stop := Refresh(h);
        h := cachedHead;
        n := Min(max, tail - h);
      }
    }

    /** The loop of a bulk pop: moves the head over up to `max` values in one exchange. */
    method ClaimMany(max: nat, spurious: nat) returns (won: bool, h: nat, n: nat)
      requires Valid()
      modifies `head, `seen, `cachedHead, `claims
      ensures Valid()
      ensures !won ==> n == 0 && (max == 0 || cachedHead == head == tail) && claims == old(claims)
      ensures won ==> n <= max && old(head) <= h && h + n == seen <= head && claims == old(claims) + [(h, n)]
      ensures won ==> n == Min(max, tail - h)
      ensures won && 0 < max ==> 0 < n && cachedHead == old(cachedHead)
    {
      var left := spurious;
      h := cachedHead;
      while true
        invariant Valid() && cachedHead <= h <= head && old(head) <= head && claims == old(claims)
        invariant 0 < max ==> cachedHead == old(cachedHead)
        decreases tail - h, left
      {
        var stop, actual;
        h, n, stop := NextRange(max, h);
        if stop {
          return false, h, 0;
        }
        won, actual, left := CasHead(h, n, left);
        if won {
          return;
        }
        h := actual;
      }
    }

    /** Copies values out that were live in an earlier state of the queue; nobody stored since. */
    method CopyClaimed(h: nat, n: nat, dst: array<T>, ghost before: Shared<T>)
      requires SharedInv(before) && Newest(before).buf == buffer[..] && before.log == log
      requires before.head <= h && h + n <= before.tail && n <= dst.Length && dst != buffer
      modifies dst
      ensures h + n <= |log| && dst[..n] == log[h..h + n] && dst[n..] == old(dst[n..])
    {
      ReadsLog(before, h, n);
      CopyOut(buffer, h, n, dst);
    }

    /** Takes the oldest values into `dst`, as many as there is space for or as are left behind the
        claimed start; without a claim only when there is no space to fill or nothing is left. It
        never takes over the head that it moved: as long as the cached head promises values, it stays
        where it was (`StaleAfterPop`). */
    method ProducerPopMany(dst: array<T>, spurious: nat) returns (n: nat)
      requires Valid() && dst != buffer
      modifies `head, `seen, `cachedHead, `claims, dst
      ensures Valid()
      ensures n <= dst.Length
      ensures claims == old(claims) ==> n == 0 && (dst.Length == 0 || cachedHead == head == tail)
      ensures claims != old(claims) ==> n == Min(dst.Length, tail - (seen - n))
      ensures claims != old(claims) && 0 < dst.Length ==> 0 < n && cachedHead == old(cachedHead)
      ensures claims != old(claims) ==> old(head) + n <= seen <= head && claims == old(claims) + [(seen - n, n)]
                                        && dst[..n] == log[seen - n..seen] && dst[n..] == old(dst[n..])
    {
      ghost var before := View();
      var won, h;
      won, h, n := ClaimMany(dst.Length, spurious);
      if won {
        CopyClaimed(h, n, dst, before);
      }
    }
  }

  /** How calls leave the cached head too far behind: a full queue, a bulk pop, and as many values
      stored in the place of those popped. Then growth from the cached head loses values
      (`StaleGrowthLosesTail`), and unless a consumer took more meanwhile neither push is safe
      (`StaleAfterPop`). */
  method RefillAfterPop<T(0)>(q: UnboundedQueue<T>, dst: array<T>, value: T, spurious: nat) returns (n: nat)
    requires q.Valid() && q.tail == q.cachedHead + q.buffer.Length && 0 < dst.Length && dst != q.buffer
    modifies q, q.buffer, dst
    ensures q.Valid() && q.tail == old(q.tail) + n
    ensures n > 0 ==> !q.Fresh()
    ensures n > 0 && q.seen == old(q.cachedHead) + n ==> !q.CanPush()
  {
    n := q.ProducerPopMany(dst, spurious);
    q.ProducerPushManyUnchecked(seq(n, _ => value), []);
  }
}
