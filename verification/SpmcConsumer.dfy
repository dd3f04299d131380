/**
 The consumers of the bounded single-producer multi-consumer queue (src/spmc/const_bounded.rs):
 `consumer_pop_many` and `steal_into`, running against the producer and other consumers.

 Between any two shared accesses of the call, and between any two elements of its optimistic
 copy, the others take any number of steps of the machine in SpmcNetwork (`OthersMove`). They
 publish no more than `limit` values in all; with that the loops are shown to end.
 */
module SpmcConsumer {
  import opened Ring
  import opened SpmcNetwork
  import opened SpmcProducer

  // ------------------------------------------------------------------ the others

  /** Stores a value as number `k` behind the tail. */
  method StoreOne<T(0)>(q: SpmcBoundedQueue<T>, k: nat, value: T)
    requires q.Valid() && k < Room(q.View())
    modifies q.buffer
    ensures q.Valid() && q.View() == Store(old(q.View()), q.tail + k, value)
  {
    StoreBehindTail(q.View(), k, value);
    q.buffer[Slot(q.tail + k, q.capacity)] := value;
    assert q.View() == Store(old(q.View()), q.tail + k, value);
  }

  /** The producer looks at the head, stores a value behind the tail, or publishes what it stored;
      a consumer claims values. */
  method OtherMoves<T(0)>(q: SpmcBoundedQueue<T>, limit: nat)
    requires q.Valid() && |q.log| <= limit
    modifies q`head, q`tail, q`log, q`seen, q`cachedHead, q.buffer
    ensures q.Valid() && AnyRely(old(q.View()), q.View()) && |q.log| <= limit
  {
    var kind: nat, n: nat := *, *;
    if kind == 0 {
      if q.cachedHead <= n <= q.head {
        q.seen := if n > q.seen then n else q.seen;
        q.cachedHead := n;
      }
    } else if kind == 1 {
      var value: T := *;
      if q.tail + n < q.head + q.capacity {
        StoreOne(q, n, value);
      }
    } else if kind == 2 {
      if q.tail + n <= q.head + q.capacity && q.tail + n <= limit {
        q.StoreTail(q.tail + n);
      }
    } else if q.head + n <= q.tail {
      q.head := q.head + n;
    }
  }

  method OthersMove<T(0)>(q: SpmcBoundedQueue<T>, limit: nat)
    requires q.Valid() && |q.log| <= limit
    modifies q`head, q`tail, q`log, q`seen, q`cachedHead, q.buffer
    ensures q.Valid() && AnyRely(old(q.View()), q.View()) && |q.log| <= limit
  {
    var moves: nat := *;
    while moves > 0
      invariant q.Valid() && AnyRely(old(q.View()), q.View()) && |q.log| <= limit
    {
      OtherMoves(q, limit);
      moves := moves - 1;
    }
  }

  // ------------------------------------------------------------------ shared accesses of the call

  method LoadHead<T(0)>(q: SpmcBoundedQueue<T>, limit: nat) returns (h: nat)
    requires q.Valid() && |q.log| <= limit
    modifies q`head, q`tail, q`log, q`seen, q`cachedHead, q.buffer
    ensures q.Valid() && AnyRely(old(q.View()), q.View()) && |q.log| <= limit
    ensures old(q.head) <= h <= q.head
  {
    OthersMove(q, limit);
    h := q.head;
  }

  /** A tail that is loaded is at most one capacity ahead of every head that is met later. */
  method LoadTail<T(0)>(q: SpmcBoundedQueue<T>, limit: nat) returns (t: nat)
    requires q.Valid() && |q.log| <= limit
    modifies q`head, q`tail, q`log, q`seen, q`cachedHead, q.buffer
    ensures q.Valid() && AnyRely(old(q.View()), q.View()) && |q.log| <= limit
    ensures old(q.head) <= q.head <= t == q.tail && old(q.tail) <= t && t <= q.head + q.capacity
  {
    OthersMove(q, limit);
    t := q.tail;
  }

  /** The strong compare-and-exchange of the head. */
  method CasHead<T(0)>(q: SpmcBoundedQueue<T>, h: nat, n: nat, limit: nat) returns (won: bool, actual: nat)
    requires q.Valid() && |q.log| <= limit && h <= q.head && h + n <= |q.log|
    modifies q`head, q`tail, q`log, q`seen, q`cachedHead, q.buffer
    ensures q.Valid() && AnyRely(old(q.View()), q.View()) && |q.log| <= limit
    ensures won == (actual == h) && h <= actual
    ensures if won then old(q.head) == h && q.head == h + n else q.head == actual
  {
    OthersMove(q, limit);
    actual := q.head;
    won := actual == h;
    if won {
      q.head := q.head + n;
    }
  }

  /** One value of an optimistic copy: right if the head has not passed its position by then. */
  method ReadSlot<T(0)>(q: SpmcBoundedQueue<T>, p: nat, limit: nat) returns (value: T)
    requires q.Valid() && |q.log| <= limit && p < |q.log|
    modifies q`head, q`tail, q`log, q`seen, q`cachedHead, q.buffer
    ensures q.Valid() && AnyRely(old(q.View()), q.View()) && |q.log| <= limit
    ensures q.head <= p ==> value == q.log[p]
  {
    OthersMove(q, limit);
    value := q.buffer[Slot(p, q.capacity)];
  }

  // ------------------------------------------------------------------ consumer_pop_many

  /** The optimistic copy. */
  method CopyOptimistically<T(0)>(q: SpmcBoundedQueue<T>, h: nat, n: nat, dst: array<T>, limit: nat)
    requires q.Valid() && |q.log| <= limit && h <= q.head && h + n <= |q.log|
    requires n <= dst.Length && dst != q.buffer
    modifies q`head, q`tail, q`log, q`seen, q`cachedHead, q.buffer, dst
    ensures q.Valid() && AnyRely(old(q.View()), q.View()) && |q.log| <= limit
    ensures q.head == h ==> forall j :: 0 <= j < n ==> dst[j] == q.log[h + j]
    ensures forall j :: n <= j < dst.Length ==> dst[j] == old(dst[j])
  {
    for i := 0 to n
      invariant q.Valid() && AnyRely(old(q.View()), q.View()) && |q.log| <= limit
      invariant q.head == h ==> forall j :: 0 <= j < i ==> dst[j] == q.log[h + j]
      invariant forall j :: n <= j < dst.Length ==> dst[j] == old(dst[j])
    {
      var value := ReadSlot(q, h + i, limit);
      dst[i] := value;
    }
  }

  /** One attempt: the copy and the exchange that makes it count. */
  method AttemptPop<T(0)>(q: SpmcBoundedQueue<T>, h: nat, n: nat, dst: array<T>, limit: nat)
    returns (won: bool, actual: nat)
    requires q.Valid() && |q.log| <= limit && h <= q.head && h + n <= |q.log|
    requires n <= dst.Length && dst != q.buffer
    modifies q`head, q`tail, q`log, q`seen, q`cachedHead, q.buffer, dst
    ensures q.Valid() && AnyRely(old(q.View()), q.View()) && |q.log| <= limit
    ensures if won then q.head == h + n && dst[..n] == q.log[h..h + n] else h < actual == q.head
  {
    CopyOptimistically(q, h, n, dst, limit);
    won, actual := CasHead(q, h, n, limit);
  }

  /** Takes as many of the oldest values as there is space for, or as the load of the tail after that of
      the head promised: those published at `start..start + n`, each of them no one else gets. So
      nothing is taken only when there is no space to fill or when all that was published before the
      call has been claimed. Every attempt starts from a larger head, so the call ends when the producer
      publishes finitely much. */
  method ConsumerPopMany<T(0)>(q: SpmcBoundedQueue<T>, dst: array<T>, limit: nat)
    returns (n: nat, ghost start: nat, ghost end: nat)
    requires q.Valid() && |q.log| <= limit && dst != q.buffer
    modifies q`head, q`tail, q`log, q`seen, q`cachedHead, q.buffer, dst
    ensures q.Valid() && AnyRely(old(q.View()), q.View())
    ensures old(q.head) <= start <= q.head && start <= end && old(q.tail) <= end <= q.tail
    ensures n == Min(dst.Length, end - start) && n <= q.capacity
    ensures n == 0 ==> dst.Length == 0 || old(q.tail) <= q.head
    ensures n > 0 ==> start + n == q.head && dst[..n] == q.log[start..start + n]
  {
    var h := LoadHead(q, limit);
    var t := LoadTail(q, limit);
    while true
      invariant q.Valid() && AnyRely(old(q.View()), q.View()) && |q.log| <= limit
      invariant old(q.head) <= h <= q.head && h <= t <= q.head + q.capacity
      invariant t <= |q.log| && old(q.tail) <= t
      decreases limit - h
    {
      n := Min(dst.Length, t - h);
      if n == 0 {
        return 0, h, t;
      }
      if n > q.capacity {
        h := LoadHead(q, limit);
        t := LoadTail(q, limit);
        continue;
      }
      var won, actual := AttemptPop(q, h, n, dst, limit);
      if won {
        return n, h, t;
      }
      h := actual;
      t := LoadTail(q, limit);
    }
  }

  // ------------------------------------------------------------------ steal_into

  lemma StolenWith<T>(src: Queue<T>, own: Queue<T>, h: nat, n: nat, k: nat, value: T)
    requires QueueInv(own) && Stolen(src, own, h, n, k, 0) && k < n <= Room(own)
    requires src.head == h ==> value == src.log[h + PieceOffset(k, n, h, src.cap)]
    ensures Stolen(src, Store(own, own.tail + k, value), h, n, k + 1, 0)
  {
    StoreBehindTail(own, k, value);
  }

  /** One element of a steal: from the source straight into a free slot of the destination, the
      piece that wrapped around in the source before the piece that did not. */
  method StealOne<T(0)>(src: SpmcBoundedQueue<T>, own: SpmcBoundedQueue<T>, h: nat, n: nat, k: nat, limit: nat)
    requires src.Valid() && |src.log| <= limit && own.Valid() && src != own && src.buffer != own.buffer
    requires Stolen(src.View(), own.View(), h, n, k, 0) && k < n <= Room(own.View())
    modifies src`head, src`tail, src`log, src`seen, src`cachedHead, src.buffer, own.buffer
    ensures src.Valid() && AnyRely(old(src.View()), src.View()) && |src.log| <= limit
    ensures own.Valid() && Stolen(src.View(), own.View(), h, n, k + 1, 0)
  {
    var value := ReadSlot(src, h + PieceOffset(k, n, h, src.capacity), limit);
    StolenSurvives(old(src.View()), src.View(), own.View(), own.View(), h, n, k, 0);
    StolenWith(src.View(), own.View(), h, n, k, value);
    StoreOne(own, k, value);
  }

  method CopyPieces<T(0)>(src: SpmcBoundedQueue<T>, own: SpmcBoundedQueue<T>, h: nat, n: nat, limit: nat)
    requires src.Valid() && |src.log| <= limit && own.Valid() && src != own && src.buffer != own.buffer
    requires h <= src.head && h + n <= |src.log| && n <= src.capacity / 2 && n <= Room(own.View())
    modifies src`head, src`tail, src`log, src`seen, src`cachedHead, src.buffer, own.buffer
    ensures src.Valid() && AnyRely(old(src.View()), src.View()) && |src.log| <= limit
    ensures own.Valid() && Stolen(src.View(), own.View(), h, n, n, 0)
  {
    for k := 0 to n
      invariant src.Valid() && AnyRely(old(src.View()), src.View()) && |src.log| <= limit
      invariant own.Valid() && Stolen(src.View(), own.View(), h, n, k, 0)
    {
      StealOne(src, own, h, n, k, limit);
    }
  }

  lemma LootIsRead<T>(copied: Queue<T>, src: Queue<T>, own: Queue<T>, h: nat, n: nat)
    requires Stolen(copied, own, h, n, n, 0) && copied.head == h && AnyRely(copied, src)
    ensures h + n <= |src.log| && 0 < src.cap && 0 < own.cap == |own.buf|
    ensures ReadRange(own.buf, own.tail, n) == Loot(src, h, n)
  {
    StolenIsLoot(copied, own, h, n, 0);
    assert src.log[h..h + n] == copied.log[h..h + n];
  }

  method PublishLoot<T(0)>(own: SpmcBoundedQueue<T>, ghost copied: Queue<T>, ghost src: Queue<T>, h: nat, n: nat)
    requires own.Valid() && Stolen(copied, own.View(), h, n, n, 0) && n <= Room(own.View())
    requires copied.head == h && AnyRely(copied, src)
    modifies own`tail, own`log
    ensures own.Valid() && 0 < src.cap && h + n <= |src.log|
    ensures own.log == old(own.log) + Loot(src, h, n)
  {
    LootIsRead(copied, src, own.View(), h, n);
    own.StoreTail(own.tail + n);
  }

  /** One attempt: the copy, the exchange that makes it count, and the store of the own tail.
      Consumers of the own queue may move its head meanwhile, which no step here looks at. */
  method AttemptSteal<T(0)>(src: SpmcBoundedQueue<T>, own: SpmcBoundedQueue<T>, h: nat, n: nat, limit: nat)
    returns (won: bool, actual: nat)
    requires src.Valid() && |src.log| <= limit && own.Valid() && src != own && src.buffer != own.buffer
    requires h <= src.head && h + n <= |src.log| && n <= src.capacity / 2 && n <= Room(own.View())
    modifies src`head, src`tail, src`log, src`seen, src`cachedHead, src.buffer, own`head, own`tail, own`log, own.buffer
    ensures src.Valid() && AnyRely(old(src.View()), src.View()) && |src.log| <= limit
    ensures own.Valid()
    ensures if won then src.head == h + n && own.log == old(own.log) + Loot(src.View(), h, n)
            else h < actual == src.head && own.log == old(own.log) && own.tail == old(own.tail)
                 && old(own.head) <= own.head
  {
    CopyPieces(src, own, h, n, limit);
    ghost var copied, stored := src.View(), own.View();
    own.Interfere();
    won, actual := CasHead(src, h, n, limit);
    StolenSurvives(copied, copied, stored, own.View(), h, n, n, 0);
    if won {
      PublishLoot(own, copied, src.View(), h, n);
    }
  }

  /** Moves half of the source, `n` of the `end - start` values that the last look at its counters
      showed, to the end of the own queue, which has room for half a source. With 0 nothing moved:
      half of what was there is nothing, or less than `least`. Every attempt starts from a larger
      head. */
  method Steal<T(0)>(src: SpmcBoundedQueue<T>, own: SpmcBoundedQueue<T>, least: nat, limit: nat)
    returns (n: nat, ghost start: nat, ghost end: nat)
    requires src.Valid() && |src.log| <= limit && own.Valid() && src != own && src.buffer != own.buffer
    requires src.capacity / 2 <= Room(own.View())
    modifies src`head, src`tail, src`log, src`seen, src`cachedHead, src.buffer, own`head, own`tail, own`log, own.buffer
    ensures src.Valid() && AnyRely(old(src.View()), src.View()) && own.Valid()
    ensures old(src.head) <= start <= src.head && start <= end && old(src.tail) <= end <= src.tail
    ensures n == if (end - start) / 2 < least then 0 else (end - start) / 2
    ensures n == 0 ==> own.log == old(own.log) && own.tail == old(own.tail)
    ensures n > 0 ==> n <= src.capacity / 2 && start + n == src.head
                      && own.log == old(own.log) + Loot(src.View(), start, n)
  {
    var h := LoadHead(src, limit);
    var t := LoadTail(src, limit);
    while true
      invariant src.Valid() && AnyRely(old(src.View()), src.View()) && |src.log| <= limit
      invariant own.Valid() && own.log == old(own.log) && own.tail == old(own.tail) && old(own.head) <= own.head
      invariant old(src.head) <= h <= src.head && h <= t <= src.head + src.capacity && t <= |src.log|
      invariant old(src.tail) <= t
      decreases limit - h
    {
      n := (t - h) / 2;
      if n > src.capacity / 2 {
        h := LoadHead(src, limit);
        t := LoadTail(src, limit);
        continue;
      }
      if n < least || n == 0 {
        return 0, h, t;
      }
      var won, actual := AttemptSteal(src, own, h, n, limit);
      if won {
        return n, h, t;
      }
      h := actual;
      t := LoadTail(src, limit);
    }
  }
}
