/**
 The consumer of the unbounded single-producer multi-consumer queue (src/spmc/unbounded.rs):
 `consumer_lock_free_pop_many`, running against the producer and other consumers.

 Between any two shared accesses of the call, and between any two elements of its optimistic
 copy, the others take any number of steps: they claim values, store behind the tail, install a
 larger version and publish. They publish no more than `limit` values and make no version with
 an id above `lastId`; with that the loop is shown to end.
 */
module UnboundedConsumer {
  import opened Ring
  import opened SpmcUnbounded
  import opened UnboundedProducer
  import B = BufferVersion

  /** The consumer works on the buffer of version `ver`, which may be the newest. */
  ghost predicate Caches<T(0)>(q: UnboundedQueue<T>, ver: nat, buf: array<T>)
    reads q, q.buffer, buf
  {
    && ver < |q.View().versions| && q.View().versions[ver].buf == buf[..]
    && (buf == q.buffer <==> ver == q.id)
  }

  /** A refused read of the version cell: the version that the consumer had cached, and the published
      id that it had loaded. */
  datatype Refusal = Refusal(cached: nat, published: nat)

  /** What a consumer sees of the version cell. Whether a read is refused is up to whoever holds the
      lock; each refusal is recorded, here and nowhere else. */
  class CellReads {
    ghost var refusals: seq<Refusal>

    constructor ()
      ensures refusals == []
    {
      refusals := [];
    }

    method TryWith(ghost cached: nat, ghost published: nat) returns (ok: bool)
      modifies this
      ensures refusals == old(refusals) + if ok then [] else [Refusal(cached, published)]
    {
      ok := *;
      if !ok {
        refusals := refusals + [Refusal(cached, published)];
      }
    }
  }

  predicate Within<T(0)>(q: UnboundedQueue<T>, limit: nat, lastId: nat)
    reads q
  {
    q.tail <= limit && q.id <= lastId
  }

  /** What the others do: the counters and the log grow, */
  ghost predicate Moved<T>(a: Shared<T>, b: Shared<T>) {
    a.head <= b.head && a.tail <= b.tail && a.published <= b.published && a.log <= b.log
  }

  /** and no version loses a published value. */
  ghost predicate Kept<T>(a: Shared<T>, b: Shared<T>, ver: nat) {
    ver < |a.versions| <= |b.versions| && a.versions[ver].end <= b.versions[ver].end
  }

  lemma RelyMoves<T>(a: Shared<T>, b: Shared<T>, ver: nat)
    requires AnyRely(a, b) && ver < |a.versions|
    ensures Moved(a, b) && Kept(a, b, ver)
  {
  }

  /** The producer stores a slice behind the tail. */
  method Stores<T(0)>(q: UnboundedQueue<T>, limit: nat, lastId: nat, ghost ver: nat, ghost buf: array<T>,
                      start: nat, slice: seq<T>)
    requires q.Sound() && Within(q, limit, lastId) && Caches(q, ver, buf)
    modifies q, q.buffer
    ensures q.Sound() && Within(q, limit, lastId) && Caches(q, ver, buf)
    ensures Moved(old(q.View()), q.View()) && Kept(old(q.View()), q.View(), ver)
    ensures q.buffer == old(q.buffer) || fresh(q.buffer)
  {
    if q.tail <= start && start + |slice| <= q.head + q.buffer.Length {
      var _ := q.CopyBehindTail(start, slice);
    }
    RelyMoves(old(q.View()), q.View(), ver);
  }

  /** The producer publishes what it stored, and the version that it stored it in. */
  method Publishes<T(0)>(q: UnboundedQueue<T>, limit: nat, lastId: nat, ghost ver: nat, ghost buf: array<T>, n: nat)
    requires q.Sound() && Within(q, limit, lastId) && Caches(q, ver, buf)
    modifies q, q.buffer
    ensures q.Sound() && Within(q, limit, lastId) && Caches(q, ver, buf)
    ensures Moved(old(q.View()), q.View()) && Kept(old(q.View()), q.View(), ver)
    ensures q.buffer == old(q.buffer) || fresh(q.buffer)
  {
    if q.tail + n <= q.head + q.buffer.Length && q.tail + n <= limit {
      q.StoreWord(q.tail + n, ReadRange(q.buffer[..], q.tail, n));
    }
    RelyMoves(old(q.View()), q.View(), ver);
  }

  /** The producer puts a larger version into the cell. */
  method Grows<T(0)>(q: UnboundedQueue<T>, limit: nat, lastId: nat, ghost ver: nat, ghost buf: array<T>, extra: nat)
    requires q.Sound() && Within(q, limit, lastId) && Caches(q, ver, buf)
    modifies q, q.buffer
    ensures q.Sound() && Within(q, limit, lastId) && Caches(q, ver, buf)
    ensures Moved(old(q.View()), q.View()) && Kept(old(q.View()), q.View(), ver)
    ensures q.buffer == old(q.buffer) || fresh(q.buffer)
  {
    if q.published == q.id < lastId && q.tail <= q.cachedHead + q.buffer.Length {
      var newCapacity := B.CapacityFor(q.buffer.Length, extra);
      var _ := q.CreateNewVersion(q.cachedHead, q.tail, newCapacity);
    }
    RelyMoves(old(q.View()), q.View(), ver);
  }

  /** One step of the others. */
  method OtherMoves<T(0)>(q: UnboundedQueue<T>, limit: nat, lastId: nat, ghost ver: nat, ghost buf: array<T>)
    requires q.Sound() && Within(q, limit, lastId) && Caches(q, ver, buf)
    modifies q, q.buffer
    ensures q.Sound() && Within(q, limit, lastId) && Caches(q, ver, buf)
    ensures Moved(old(q.View()), q.View()) && Kept(old(q.View()), q.View(), ver)
    ensures q.buffer == old(q.buffer) || fresh(q.buffer)
  {
    var kind: nat, n: nat, slice: seq<T> := *, *, *;
    if kind == 0 {
      q.Interfere();
      RelyMoves(old(q.View()), q.View(), ver);
    } else if kind == 1 {
      q.cachedHead := q.LoadHead();
    } else if kind == 2 {
      Stores(q, limit, lastId, ver, buf, n, slice);
    } else if kind == 3 {
      Publishes(q, limit, lastId, ver, buf, n);
    } else {
      Grows(q, limit, lastId, ver, buf, n);
    }
  }

  method OthersMove<T(0)>(q: UnboundedQueue<T>, limit: nat, lastId: nat, ghost ver: nat, ghost buf: array<T>)
    requires q.Sound() && Within(q, limit, lastId) && Caches(q, ver, buf)
    modifies q, q.buffer
    ensures q.Sound() && Within(q, limit, lastId) && Caches(q, ver, buf)
    ensures Moved(old(q.View()), q.View()) && Kept(old(q.View()), q.View(), ver)
    ensures q.buffer == old(q.buffer) || fresh(q.buffer)
  {
    var moves: nat := *;
    while moves > 0
      invariant q.Sound() && Within(q, limit, lastId) && Caches(q, ver, buf)
      invariant Moved(old(q.View()), q.View()) && Kept(old(q.View()), q.View(), ver)
      invariant q.buffer == old(q.buffer) || fresh(q.buffer)
    {
      OtherMoves(q, limit, lastId, ver, buf);
      moves := moves - 1;
    }
  }

  // ------------------------------------------------------------------ shared accesses of the call

  method LoadHead<T(0)>(q: UnboundedQueue<T>, limit: nat, lastId: nat, ghost ver: nat, ghost buf: array<T>)
    returns (h: nat)
    requires q.Sound() && Within(q, limit, lastId) && Caches(q, ver, buf)
    modifies q, q.buffer
    ensures q.Sound() && Within(q, limit, lastId) && Caches(q, ver, buf) && Moved(old(q.View()), q.View())
    ensures q.buffer == old(q.buffer) || fresh(q.buffer)
    ensures old(q.head) <= h <= q.head
  {
    OthersMove(q, limit, lastId, ver, buf);
    h := q.head;
  }

  /** Load of the published id and the tail in one word. */
  method LoadWord<T(0)>(q: UnboundedQueue<T>, limit: nat, lastId: nat, ghost ver: nat, ghost buf: array<T>)
    returns (id: nat, t: nat)
    requires q.Sound() && Within(q, limit, lastId) && Caches(q, ver, buf)
    modifies q, q.buffer
    ensures q.Sound() && Within(q, limit, lastId) && Caches(q, ver, buf) && Moved(old(q.View()), q.View())
    ensures q.buffer == old(q.buffer) || fresh(q.buffer)
    ensures id == q.published && t == q.tail && old(q.head) <= q.head
    ensures old(q.tail) <= t && old(q.published) <= id
    ensures id <= ver ==> t <= q.head + buf.Length && t <= q.View().versions[ver].end
  {
    OthersMove(q, limit, lastId, ver, buf);
    id, t := q.published, q.tail;
    CachedHolds(q.View(), ver);
  }

  /** A version at least as new as the published one has every live value. */
  lemma CachedHolds<T>(q: Shared<T>, ver: nat)
    requires SharedInv(q) && ver < |q.versions|
    ensures var v := q.versions[ver];
            && 0 < v.cap == |v.buf|
            && (q.published <= ver ==> v.end == q.tail && q.tail <= q.head + v.cap)
            && forall p: nat {:trigger Slot(p, v.cap)} :: q.head <= p < v.end ==> v.buf[Slot(p, v.cap)] == q.log[p]
  {
    assert VersionInv(q.versions[ver], q.head, q.log);
  }

  /** `update_version`: the newest version, exactly unless the read of the cell is refused. */
  method UpdateVersion<T(0)>(q: UnboundedQueue<T>, cell: CellReads, limit: nat, lastId: nat,
                             ver: nat, buf: array<T>, ghost id: nat)
    returns (ok: bool, ver': nat, buf': array<T>)
    requires q.Sound() && Within(q, limit, lastId) && Caches(q, ver, buf)
    modifies q, q.buffer, cell
    ensures q.Sound() && Within(q, limit, lastId) && Caches(q, ver', buf') && Moved(old(q.View()), q.View())
    ensures q.buffer == old(q.buffer) || fresh(q.buffer)
    ensures cell.refusals == old(cell.refusals) + if ok then [] else [Refusal(ver, id)]
    ensures if ok then ver' == q.id && buf' == q.buffer else ver' == ver && buf' == buf
  {
    OthersMove(q, limit, lastId, ver, buf);
    ok := cell.TryWith(ver, id);
    if ok {
      ver', buf' := q.id, q.buffer;
    } else {
      ver', buf' := ver, buf;
    }
  }

  /** One value of an optimistic copy: right if the head has not passed its position by then. */
  method ReadSlot<T(0)>(q: UnboundedQueue<T>, limit: nat, lastId: nat, ghost ver: nat, buf: array<T>, p: nat)
    returns (value: T)
    requires q.Sound() && Within(q, limit, lastId) && Caches(q, ver, buf)
    modifies q, q.buffer
    ensures q.Sound() && Within(q, limit, lastId) && Caches(q, ver, buf)
    ensures Moved(old(q.View()), q.View()) && Kept(old(q.View()), q.View(), ver)
    ensures q.buffer == old(q.buffer) || fresh(q.buffer)
    requires p < q.View().versions[ver].end
    ensures q.head <= p ==> p < |q.log| && value == q.log[p]
  {
    OthersMove(q, limit, lastId, ver, buf);
    CachedHolds(q.View(), ver);
    value := buf[Slot(p, buf.Length)];
  }

  method MoveHead<T(0)>(q: UnboundedQueue<T>, n: nat)
    requires q.Sound() && q.head + n <= q.tail
    modifies q`head
    ensures q.Sound() && q.View() == Claim(old(q.View()), n)
  {
    ClaimKeepsSharedInv(q.View(), n);
    q.head := q.head + n;
    assert q.View() == Claim(old(q.View()), n);
  }

  /** The strong compare-and-exchange of the head. */
  method CasHead<T(0)>(q: UnboundedQueue<T>, limit: nat, lastId: nat, ghost ver: nat, ghost buf: array<T>,
                       h: nat, n: nat)
    returns (won: bool, actual: nat)
    requires q.Sound() && Within(q, limit, lastId) && Caches(q, ver, buf)
    modifies q, q.buffer
    ensures q.Sound() && Within(q, limit, lastId) && Caches(q, ver, buf) && Moved(old(q.View()), q.View())
    ensures q.buffer == old(q.buffer) || fresh(q.buffer)
    requires h <= q.head && h + n <= q.tail
    ensures won == (actual == h) && h <= actual
    ensures if won then old(q.head) == h && q.head == h + n else q.head == actual
  {
    OthersMove(q, limit, lastId, ver, buf);
    actual := q.head;
    won := actual == h;
    if won {
      MoveHead(q, n);
    }
  }

  // ------------------------------------------------------------------ consumer_lock_free_pop_many

  /** While the head stays at `h`, the first `i` values of `dst` are the published ones. */
  ghost predicate CopiedUpTo<T(0)>(q: UnboundedQueue<T>, h: nat, i: nat, dst: array<T>)
    reads q, dst
  {
    q.head == h ==> i <= dst.Length && h + i <= |q.log| && forall j :: 0 <= j < i ==> dst[j] == q.log[h + j]
  }

  method CopyOne<T(0)>(q: UnboundedQueue<T>, limit: nat, lastId: nat, ghost ver: nat, buf: array<T>,
                       h: nat, i: nat, dst: array<T>)
    requires q.Sound() && Within(q, limit, lastId) && Caches(q, ver, buf)
    requires h <= q.head && h + i < q.View().versions[ver].end
    requires i < dst.Length && dst != q.buffer && dst != buf && CopiedUpTo(q, h, i, dst)
    modifies q, q.buffer, dst
    ensures q.Sound() && Within(q, limit, lastId) && Caches(q, ver, buf)
    ensures Moved(old(q.View()), q.View()) && Kept(old(q.View()), q.View(), ver)
    ensures q.buffer == old(q.buffer) || fresh(q.buffer)
    ensures CopiedUpTo(q, h, i + 1, dst)
    ensures forall j :: i < j < dst.Length ==> dst[j] == old(dst[j])
  {
    var value := ReadSlot(q, limit, lastId, ver, buf, h + i);
    dst[i] := value;
  }

  /** The optimistic copy. */
  method CopyOptimistically<T(0)>(q: UnboundedQueue<T>, limit: nat, lastId: nat, ghost ver: nat, buf: array<T>,
                                  h: nat, n: nat, dst: array<T>)
    requires q.Sound() && Within(q, limit, lastId) && Caches(q, ver, buf)
    requires h <= q.head && h + n <= q.View().versions[ver].end && h + n <= q.tail
    requires n <= dst.Length && dst != q.buffer && dst != buf
    modifies q, q.buffer, dst
    ensures q.Sound() && Within(q, limit, lastId) && Caches(q, ver, buf) && Moved(old(q.View()), q.View())
    ensures q.buffer == old(q.buffer) || fresh(q.buffer)
    ensures CopiedUpTo(q, h, n, dst)
    ensures forall j :: n <= j < dst.Length ==> dst[j] == old(dst[j])
  {
    for i := 0 to n
      invariant q.Sound() && Within(q, limit, lastId) && Caches(q, ver, buf)
      invariant Moved(old(q.View()), q.View()) && Kept(old(q.View()), q.View(), ver)
      invariant q.buffer == old(q.buffer) || fresh(q.buffer)
      invariant CopiedUpTo(q, h, i, dst)
      invariant forall j :: n <= j < dst.Length ==> dst[j] == old(dst[j])
    {
      CopyOne(q, limit, lastId, ver, buf, h, i, dst);
    }
  }

  /** One attempt: the copy and the exchange that makes it count. */
  method AttemptPop<T(0)>(q: UnboundedQueue<T>, limit: nat, lastId: nat, ghost ver: nat, buf: array<T>,
                          h: nat, n: nat, dst: array<T>)
    returns (won: bool, actual: nat)
    requires q.Sound() && Within(q, limit, lastId) && Caches(q, ver, buf)
    requires h <= q.head && h + n <= q.View().versions[ver].end && h + n <= q.tail
    requires n <= dst.Length && dst != q.buffer && dst != buf
    modifies q, q.buffer, dst
    ensures q.Sound() && Within(q, limit, lastId) && Caches(q, ver, buf) && Moved(old(q.View()), q.View())
    ensures q.buffer == old(q.buffer) || fresh(q.buffer)
    ensures if won then h + n <= |q.log| && q.head == h + n && dst[..n] == q.log[h..h + n] else h < actual == q.head
  {
    CopyOptimistically(q, limit, lastId, ver, buf, h, n, dst);
    won, actual := CasHead(q, limit, lastId, ver, buf, h, n);
  }

  /** What a loaded head, published id and tail say from then on. */
  ghost predicate Loaded<T(0)>(q: UnboundedQueue<T>, ver: nat, cap: nat, h: nat, id: nat, t: nat)
    reads q, q.buffer
  {
    && h <= q.head && h <= t <= q.tail && id <= q.published
    && (id <= ver ==> ver < |q.View().versions| && t <= q.head + cap && t <= q.View().versions[ver].end)
  }

  /** Loads of the head and then of the word. */
  method LoadBoth<T(0)>(q: UnboundedQueue<T>, limit: nat, lastId: nat, ghost ver: nat, ghost buf: array<T>)
    returns (h: nat, id: nat, t: nat)
    requires q.Sound() && Within(q, limit, lastId) && Caches(q, ver, buf)
    modifies q, q.buffer
    ensures q.Sound() && Within(q, limit, lastId) && Caches(q, ver, buf) && Moved(old(q.View()), q.View())
    ensures q.buffer == old(q.buffer) || fresh(q.buffer)
    ensures Loaded(q, ver, buf.Length, h, id, t) && old(q.head) <= h && old(q.tail) <= t
  {
    h := LoadHead(q, limit, lastId, ver, buf);
    id, t := LoadWord(q, limit, lastId, ver, buf);
  }

  /** A consumer behind the published version gets a newer one, or gives up exactly when its read of
      the cell is refused. */
  method CatchUp<T(0)>(q: UnboundedQueue<T>, cell: CellReads, limit: nat, lastId: nat, ver: nat, buf: array<T>,
                       ghost h: nat, ghost id: nat)
    returns (ok: bool, ver': nat, buf': array<T>, id': nat, t': nat)
    requires q.Sound() && Within(q, limit, lastId) && Caches(q, ver, buf)
    requires ver < id <= q.published && h <= q.head
    modifies q, q.buffer, cell
    ensures q.Sound() && Within(q, limit, lastId) && Caches(q, ver', buf') && Moved(old(q.View()), q.View())
    ensures q.buffer == old(q.buffer) || fresh(q.buffer)
    ensures buf' == buf || buf' == old(q.buffer) || fresh(buf')
    ensures cell.refusals == old(cell.refusals) + if ok then [] else [Refusal(ver, id)]
    ensures if ok then ver < ver' && Loaded(q, ver', buf'.Length, h, id', t') && old(q.tail) <= t'
            else ver' == ver && buf' == buf
  {
    ok, ver', buf' := UpdateVersion(q, cell, limit, lastId, ver, buf, id);
    id', t' := LoadWord(q, limit, lastId, ver', buf');
  }

  /** One round with a version that is new enough: it ends the call with the values from `h` on, as many
      as were asked for or as the loaded tail promises, or starts over from a larger head. */
  method Round<T(0)>(q: UnboundedQueue<T>, limit: nat, lastId: nat, ver: nat, buf: array<T>,
                     h: nat, id: nat, t: nat, dst: array<T>)
    returns (done: bool, n: nat, h': nat, id': nat, t': nat)
    requires q.Sound() && Within(q, limit, lastId) && Caches(q, ver, buf)
    requires Loaded(q, ver, buf.Length, h, id, t) && id <= ver && dst != q.buffer && dst != buf
    modifies q, q.buffer, dst
    ensures q.Sound() && Within(q, limit, lastId) && Caches(q, ver, buf) && Moved(old(q.View()), q.View())
    ensures q.buffer == old(q.buffer) || fresh(q.buffer)
    ensures done ==> n == Min(dst.Length, t - h) && n <= buf.Length
    ensures done && n > 0 ==> h + n == q.head <= |q.log| && dst[..n] == q.log[h..h + n]
    ensures !done ==> h < h' && Loaded(q, ver, buf.Length, h', id', t') && old(q.tail) <= t'
  {
    done, h', id', t' := true, h, id, t;
    n := Min(dst.Length, t - h);
    if n == 0 {
      return;
    }
    if n > buf.Length {
      done := false;
      h', id', t' := LoadBoth(q, limit, lastId, ver, buf);
      return;
    }
    done, h' := AttemptPop(q, limit, lastId, ver, buf, h, n, dst);
    if !done {
      id', t' := LoadWord(q, limit, lastId, ver, buf);
    }
  }

  /** How a turn of the loop ends the call, or what it goes on with. */
  datatype Turn<T> =
    | Done(n: nat)
    | ShouldWait
    | Again(h: nat, id: nat, t: nat)

  /** A pop that moved the head over `from..from + n` has these values. */
  ghost predicate Got<T(0)>(q: UnboundedQueue<T>, dst: array<T>, from: nat, n: nat)
    reads q, dst
  {
    from + n == q.head <= |q.log| && n <= dst.Length && dst[..n] == q.log[from..from + n]
  }

  /** The body of the loop. */
  method TakeTurn<T(0)>(q: UnboundedQueue<T>, cell: CellReads, limit: nat, lastId: nat, ver: nat, buf: array<T>,
                        h: nat, id: nat, t: nat, dst: array<T>)
    returns (r: Turn<T>, ver': nat, buf': array<T>)
    requires q.Sound() && Within(q, limit, lastId) && Caches(q, ver, buf)
    requires Loaded(q, ver, buf.Length, h, id, t) && dst != q.buffer && dst != buf
    modifies q, q.buffer, dst, cell
    ensures q.Sound() && Within(q, limit, lastId) && Caches(q, ver', buf') && old(q.log) <= q.log
    ensures q.buffer == old(q.buffer) || fresh(q.buffer)
    ensures dst != buf' && ver <= ver' <= lastId && h <= q.head && old(q.published) <= q.published && t <= q.tail
    ensures cell.refusals == old(cell.refusals) + if r.ShouldWait? then [Refusal(ver', id)] else []
    ensures r.ShouldWait? ==> ver' == ver < id
    ensures r.Done? ==> r.n == Min(dst.Length, t - h) && r.n <= buf'.Length
    ensures r.Done? && r.n > 0 ==> Got(q, dst, h, r.n)
    ensures r.Again? ==> Loaded(q, ver', buf'.Length, r.h, r.id, r.t) && old(q.tail) <= r.t && r.h <= limit
                         && (h < r.h || (h == r.h && ver < ver'))
  {
    if ver < id {
      var ok, id', t';
      ok, ver', buf', id', t' := CatchUp(q, cell, limit, lastId, ver, buf, h, id);
      r := if ok then Again(h, id', t') else ShouldWait;
    } else {
      var done, n, h', id', t' := Round(q, limit, lastId, ver, buf, h, id, t, dst);
      ver', buf' := ver, buf;
      r := if done then Done(n) else Again(h', id', t');
    }
  }

  lemma PrefixChains<T>(a: seq<T>, b: seq<T>, c: seq<T>)
    requires a <= b <= c
    ensures a <= c
  {
  }

  /** The loop. It ends: each turn starts from a larger head or with a newer version. */
  method TakeTurns<T(0)>(q: UnboundedQueue<T>, cell: CellReads, limit: nat, lastId: nat, ver0: nat, buf0: array<T>,
                         h0: nat, id0: nat, t0: nat, dst: array<T>)
    returns (r: Turn<T>, ver: nat, buf: array<T>, ghost start: nat, ghost end: nat, ghost newest: nat)
    requires q.Sound() && Within(q, limit, lastId) && Caches(q, ver0, buf0)
    requires Loaded(q, ver0, buf0.Length, h0, id0, t0) && dst != q.buffer && dst != buf0
    modifies q, q.buffer, dst, cell
    ensures q.Sound() && Caches(q, ver, buf) && ver0 <= ver && old(q.log) <= q.log
    ensures q.buffer == old(q.buffer) || fresh(q.buffer)
    ensures !r.Again? && h0 <= start <= q.head && start <= end && t0 <= end <= q.tail
    ensures cell.refusals == old(cell.refusals) + if r.ShouldWait? then [Refusal(ver, newest)] else []
    ensures r.ShouldWait? ==> ver < newest <= q.published
    ensures r.Done? ==> r.n == Min(dst.Length, end - start) && r.n <= buf.Length
    ensures r.Done? && r.n > 0 ==> Got(q, dst, start, r.n)
  {
    ver, buf := ver0, buf0;
    var h, id, t := h0, id0, t0;
    while true
      invariant q.Sound() && Within(q, limit, lastId) && Caches(q, ver, buf)
      invariant q.buffer == old(q.buffer) || fresh(q.buffer)
      invariant old(q.log) <= q.log && dst != buf && ver0 <= ver <= lastId
      invariant Loaded(q, ver, buf.Length, h, id, t) && h0 <= h <= limit && t0 <= t
      invariant cell.refusals == old(cell.refusals)
      decreases limit - h, lastId - ver
    {
      ghost var before := q.log;
      r, ver, buf := TakeTurn(q, cell, limit, lastId, ver, buf, h, id, t, dst);
      PrefixChains(old(q.log), before, q.log);
      if !r.Again? {
        start, end, newest := h, t, id;
        return;
      }
      h, id, t := r.h, r.id, r.t;
    }
  }

  /** Takes as many of the oldest values as there is space for, or as a load of the tail in the call
      promised: those published at `start..start + n`, each of them no one else gets, with a version
      that may be older or newer than the published one and may be replaced in the middle of the copy.
      So nothing is taken only when there is no space to fill, when all that was published before the
      call has been claimed, or with `shouldWait`. That is the answer exactly when a read of the version
      cell was refused, to a consumer whose version was older than a published id that it had loaded. */
  method ConsumerPopMany<T(0)>(q: UnboundedQueue<T>, cell: CellReads, ver0: nat, buf0: array<T>, dst: array<T>,
                               limit: nat, lastId: nat)
    returns (n: nat, shouldWait: bool, ver: nat, buf: array<T>, ghost start: nat, ghost end: nat, ghost newest: nat)
    requires q.Sound() && Within(q, limit, lastId) && Caches(q, ver0, buf0) && dst != q.buffer && dst != buf0
    modifies q, q.buffer, dst, cell
    ensures q.Sound() && Caches(q, ver, buf) && ver0 <= ver && old(q.log) <= q.log
    ensures cell.refusals == old(cell.refusals) + if shouldWait then [Refusal(ver, newest)] else []
    ensures shouldWait ==> n == 0 && ver < newest <= q.published
    ensures old(q.head) <= start <= q.head && start <= end && old(q.tail) <= end <= q.tail
    ensures !shouldWait ==> n == Min(dst.Length, end - start) && n <= buf.Length
    ensures n == 0 && !shouldWait ==> dst.Length == 0 || old(q.tail) <= q.head
    ensures n > 0 ==> Got(q, dst, start, n)
  {
    var h, id, t := LoadBoth(q, limit, lastId, ver0, buf0);
    var r;
    r, ver, buf, start, end, newest := TakeTurns(q, cell, limit, lastId, ver0, buf0, h, id, t, dst);
    n := if r.Done? then r.n else 0;
    shouldWait := r.ShouldWait?;
  }
}
