/**
 Work stealing between bounded single-producer multi-consumer queues
 (src/spmc/const_bounded.rs), for any number of queues and threads.

 Thread `t` is the one producer of queue `t`; the other threads are consumers. Consumers run
 `consumer_pop_many` and `steal_into` one shared access at a time: every element of an
 optimistic copy is a step, so the producer may overwrite slots in the middle of it.
 Producers run the single-value pushes of the code step by step: the test against the cached head,
 the load, the exchange of the overflow, and a store that nothing guards. The bulk forms, whose
 caller or whose test answers for the room, are stores behind the tail while there is room,
 followed by a publication. An overflow is the code's own: it moves the head by half of the capacity
 and hands over the slices that the code computes, which at an odd capacity can be one value more
 (module Overflow). The module SpmcProducer shows that the code of the producer takes these steps.

 A run is followed up to the first store over an element that nobody took (`Overwritten`).

 Memory that was never written holds arbitrary values.
 */
module SpmcNetwork {
  import opened Ring
  import opened Overflow
  import opened Bags
  import opened PushTest

  // ------------------------------------------------------------------ one queue

  /** `log[p]` is the value published at position `p`; `cached` is the producer's copy of the head,
      and `seen` the largest head that it has observed, by a load or a compare-and-exchange. */
  datatype Queue<T> = Queue(cap: nat, head: nat, tail: nat, cached: nat, seen: nat, buf: seq<T>, log: seq<T>)

  ghost predicate QueueInv<T>(q: Queue<T>) {
    && 0 < q.cap == |q.buf|
    && q.cached <= q.seen <= q.head <= q.tail == |q.log|
    && q.tail <= q.head + q.cap
    && (forall p: nat {:trigger Slot(p, q.cap)} :: q.head <= p < q.tail ==> q.buf[Slot(p, q.cap)] == q.log[p])
  }

  function Room<T>(q: Queue<T>): int {
    q.head + q.cap - q.tail
  }

  function MarksOf<T>(q: Queue<T>): Marks {
    Marks(q.cached, q.seen, q.tail)
  }

  function Observe<T>(q: Queue<T>, h: nat): Queue<T> {
    q.(seen := h)
  }

  function Cache<T>(q: Queue<T>, h: nat): Queue<T> {
    q.(seen := h, cached := h)
  }

  /** Stores a value at position `p`. */
  function Store<T>(q: Queue<T>, p: nat, value: T): Queue<T>
    requires 0 < q.cap == |q.buf|
  {
    q.(buf := q.buf[Slot(p, q.cap) := value])
  }

  function Publish<T>(q: Queue<T>, vals: seq<T>): Queue<T> {
    q.(tail := q.tail + |vals|, log := q.log + vals)
  }

  function Claim<T>(q: Queue<T>, n: nat): Queue<T> {
    q.(head := q.head + n)
  }

  /** What other threads than its producer can do to a queue: move the head on. */
  ghost predicate ConsumerRely<T>(q: Queue<T>, q': Queue<T>) {
    q' == q.(head := q'.head) && q.head <= q'.head <= q.tail
  }

  /** What a consumer can count on, whoever moves. */
  ghost predicate AnyRely<T>(q: Queue<T>, q': Queue<T>) {
    && q'.cap == q.cap && q.head <= q'.head && q.tail <= q'.tail && |q.log| <= |q'.log|
    && (forall p :: 0 <= p < |q.log| ==> q'.log[p] == q.log[p])
  }

  // ------------------------------------------------------------------ the machine

  datatype Pc<T> =
    | Idle
    // producer of the own queue
    | PushLoad(value: T, test: Test)
    | PushCas(value: T)
    | Pushing(value: T)
    | Publishing(value: T)
    | Filling(vals: seq<T>)
    | Taking(start: nat, vals: seq<T>, got: seq<T>, receiver: bool, extra: seq<T>)
    // consumer_pop_many on queue q
    | PopHead(q: nat, max: nat, tries: nat)
    | PopTail(q: nat, max: nat, head: nat, tries: nat)
    | PopCopy(q: nat, max: nat, head: nat, n: nat, copied: seq<T>, tries: nat)
    // steal_into from queue q to the own queue
    | StealHead(q: nat, tries: nat)
    | StealTail(q: nat, head: nat, tries: nat)
    | StealCopy(q: nat, head: nat, n: nat, k: nat, tries: nat)
    | StealStore(moved: seq<T>)

  datatype State<T> = State(
    queues: seq<Queue<T>>, threads: seq<Pc<T>>,
    least: nat,                  // the least number of values worth stealing
    pushed: multiset<T>,         // everything accepted from callers of push
    delivered: multiset<T>,      // everything handed to callers of pop
    received: seq<T>,            // everything handed to the batch receiver
    twice: multiset<T>,          // what an overflow took although the head did not move over it
    lost: multiset<T>)           // elements that nobody took before a push stored over them

  datatype Action<T> =
    | StartPop(q: nat, max: nat)
    | StartSteal(q: nat)
    | SeeHead(head: nat, cache: bool)   // the producer observes a head, by a load if it caches it
    | Push(value: T, test: Test) // `push` and its lock-free form, or `maybe_push`
    | Refuse                     // the receiver is locked
    | Write(value: T)            // the producer stores one more value behind the tail
    | Commit                     // ... publishes what it stored
    | Abandon                    // ... or does not
    | TryClaim(start: nat, n: nat)
    | TryOverflow(start: nat, extra: seq<T>)
    | Go

  datatype Event<T> = Event(thread: nat, action: Action<T>)

  /** A step changes the thread that takes it, at most one queue, and what crossed the border. */
  datatype Effect<T> =
    | Local(pc: Pc<T>)
    | Move(i: nat, q: Queue<T>, pc: Pc<T>, pushed: seq<T>, delivered: seq<T>, received: seq<T>, twice: seq<T>)

  function Apply<T>(s: State<T>, t: nat, e: Effect<T>): State<T>
    requires t < |s.threads|
    requires e.Move? ==> e.i < |s.queues|
  {
    match e
    case Local(pc) => s.(threads := s.threads[t := pc])
    case Move(i, q, pc, pushed, delivered, received, twice) =>
      s.(queues := s.queues[i := q], threads := s.threads[t := pc],
         pushed := s.pushed + multiset(pushed), delivered := s.delivered + multiset(delivered),
         received := s.received + received, twice := s.twice + multiset(twice))
  }

  /** After loading tail: how much to copy, or why not. */
  function AfterPopTail<T>(q: Queue<T>, i: nat, max: nat, head: nat, tries: nat): Pc<T> {
    var n := Min(max, q.tail - head);
    if n <= 0 then Idle
    else if n > q.cap then PopHead(i, max, tries + 1)
    else PopCopy(i, max, head, n, [], tries)
  }

  function AfterStealTail<T>(q: Queue<T>, i: nat, head: nat, tries: nat, least: nat): Pc<T> {
    var n := (q.tail - head) / 2;
    if n > q.cap / 2 then StealHead(i, tries + 1)
    else if n < least || n <= 0 then Idle
    else StealCopy(i, head, n, 0, tries)
  }

  function CopyOne<T>(q: Queue<T>, i: nat, max: nat, head: nat, n: nat, copied: seq<T>, tries: nat): Pc<T>
    requires 0 < q.cap == |q.buf|
  {
    PopCopy(i, max, head, n, copied + [q.buf[Slot(head + |copied|, q.cap)]], tries)
  }

  /** The compare-and-exchange of `consumer_pop_many`; it is strong. */
  function PopCas<T>(q: Queue<T>, i: nat, max: nat, head: nat, n: nat, copied: seq<T>, tries: nat): Effect<T> {
    if q.head == head then Move(i, Claim(q, n), Idle, [], copied, [], [])
    else Local(PopTail(i, max, q.head, tries + 1))
  }

  /** `steal_into` copies straight into the free slots of its own queue, the piece that wrapped
      around in the source before the piece that did not. */
  function StealInto<T>(src: Queue<T>, own: Queue<T>, head: nat, n: nat, k: nat): Queue<T>
    requires k < n && 0 < src.cap == |src.buf| && 0 < own.cap == |own.buf|
  {
    Store(own, own.tail + k, src.buf[Slot(head + PieceOffset(k, n, head, src.cap), src.cap)])
  }

  /** The published values `head..head + n` in the order in which they are stolen. */
  function Loot<T>(src: Queue<T>, head: nat, n: nat): seq<T>
    requires 0 < src.cap && head + n <= |src.log|
  {
    PieceOrder(src.log[head..head + n], head, src.cap)
  }

  function StealWin<T>(src: Queue<T>, i: nat, n: nat): Effect<T>
    requires 0 < src.cap && src.head + n <= |src.log|
  {
    Move(i, Claim(src, n), StealStore(Loot(src, src.head, n)), [], [], [], [])
  }

  function StealCas<T>(src: Queue<T>, i: nat, head: nat, n: nat, tries: nat): Effect<T>
    requires 0 < src.cap && head + n <= |src.log|
  {
    if src.head == head then StealWin(src, i, n)
    else Local(StealTail(i, src.head, tries + 1))
  }

  /** The tail store of a committed steal publishes what the slots really hold. */
  function StealPublish<T>(own: Queue<T>, t: nat, n: nat): Effect<T>
    requires 0 < own.cap == |own.buf|
  {
    Move(t, Publish(own, ReadRange(own.buf, own.tail, n)), Idle, [], [], [], [])
  }

  function TakeOne<T>(own: Queue<T>, start: nat, vals: seq<T>, got: seq<T>, receiver: bool, extra: seq<T>): Pc<T>
    requires 0 < own.cap == |own.buf|
  {
    Taking(start, vals, got + [own.buf[Slot(start + |got|, own.cap)]], receiver, extra)
  }

  /** The producer hands over what it took: to the caller, or in one batch to the receiver. */
  function HandOver<T>(own: Queue<T>, t: nat, start: nat, got: seq<T>, receiver: bool, extra: seq<T>): Effect<T>
    requires 0 < own.cap
  {
    if receiver then Move(t, own, Idle, extra, [], PieceOrder(got, start, own.cap) + extra, [])
    else Move(t, own, Idle, [], got, [], [])
  }

  ghost predicate Shape<T>(s: State<T>) {
    && |s.queues| <= |s.threads|
    && (forall i: nat {:trigger s.queues[i]} :: i < |s.queues| ==> QueueInv(s.queues[i]))
    && (forall t: nat {:trigger s.threads[t]} :: t < |s.threads| ==> PcInv(s.queues, t, s.threads[t]))
    && s.lost == multiset{}
  }

  /** What thread `t` knows where it stands. */
  ghost predicate PcInv<T>(queues: seq<Queue<T>>, t: nat, pc: Pc<T>) {
    match pc
    case Idle => true
    case PushLoad(_, test) => t < |queues| && Fires(test, MarksOf(queues[t]), queues[t].cap)
    case PushCas(_) => t < |queues| && queues[t].tail == queues[t].cached + queues[t].cap
    case Pushing(_) => t < |queues|
    case Publishing(value) =>
      t < |queues| && var q := queues[t];
      && 0 < q.cap == |q.buf| && 1 <= Room(q) && StoredAt(q.buf, q.cap, q.tail, [value])
    case Filling(vals) =>
      t < |queues| && var q := queues[t];
      && 0 < q.cap == |q.buf| && |vals| <= Room(q) && StoredAt(q.buf, q.cap, q.tail, vals)
    case Taking(start, vals, got, _, _) =>
      t < |queues| && var q := queues[t];
      && 0 < q.cap == |q.buf| && start + |vals| <= q.tail && StoredAt(q.buf, q.cap, start, vals)
      && |got| <= |vals| && got == vals[..|got|]
    case PopHead(i, _, tries) => i < |queues| && tries <= queues[i].head
    case PopTail(i, _, head, tries) => i < |queues| && tries <= head <= queues[i].head
    case PopCopy(i, max, head, n, copied, tries) => i < |queues| && Copied(queues[i], max, head, n, copied, tries)
    case StealHead(i, tries) => Stealing(queues, t, i) && tries <= queues[i].head
    case StealTail(i, head, tries) => Stealing(queues, t, i) && tries <= head <= queues[i].head
    case StealCopy(i, head, n, k, tries) => Stealing(queues, t, i) && Stolen(queues[i], queues[t], head, n, k, tries)
    case StealStore(moved) =>
      t < |queues| && var q := queues[t];
      && 0 < q.cap == |q.buf| && |moved| <= Room(q) && StoredAt(q.buf, q.cap, q.tail, moved)
  }

  /** While head stays where it was loaded, the copied values are the published ones. */
  ghost predicate Copied<T>(q: Queue<T>, max: nat, head: nat, n: nat, copied: seq<T>, tries: nat) {
    && tries <= head <= q.head && |copied| <= n <= Min(max, q.cap) && head + n <= |q.log|
    && (q.head == head ==> forall j :: 0 <= j < |copied| ==> copied[j] == q.log[head + j])
  }

  /** The destination has room for half of the source. */
  predicate Stealing<T>(queues: seq<Queue<T>>, t: nat, i: nat) {
    && t < |queues| && i < |queues| && i != t
    && queues[i].cap / 2 <= Room(queues[t])
  }

  ghost predicate Stolen<T>(src: Queue<T>, own: Queue<T>, head: nat, n: nat, k: nat, tries: nat) {
    && 0 < src.cap && 0 < own.cap == |own.buf|
    && tries <= head <= src.head && k <= n <= src.cap / 2 && head + n <= |src.log|
    && (src.head == head ==> forall j: nat {:trigger PieceOffset(j, n, head, src.cap)} :: j < k ==>
          own.buf[Slot(own.tail + j, own.cap)] == src.log[head + PieceOffset(j, n, head, src.cap)])
  }

  /** What thread `t` does next by action `a`. */
  function EffectOf<T>(s: State<T>, t: nat, a: Action<T>): Effect<T>
    requires Shape(s) && t < |s.threads|
  {
    var pc := s.threads[t];
    if a.Go? then GoEffect(s, t)
    else if pc.Idle? && a.StartPop? && a.q < |s.queues| then Local(PopHead(a.q, a.max, 0))
    else if pc.Idle? && a.StartSteal? && Stealing(s.queues, t, a.q) then Local(StealHead(a.q, 0))
    else if t < |s.queues| then ProducerEffect(s, t, a)
    else Local(pc)
  }

  /** One more value stored behind the tail and the values stored there before it. */
  function WriteEffect<T>(q: Queue<T>, t: nat, vals: seq<T>, value: T): Effect<T>
    requires 0 < q.cap == |q.buf|
  {
    Move(t, Store(q, q.tail + |vals|, value), Filling(vals + [value]), [], [], [], [])
  }

  /** A successful compare-and-exchange of the producer on its own head. */
  function TakeEffect<T>(q: Queue<T>, t: nat, n: nat): Effect<T>
    requires q.head + n <= |q.log|
  {
    Move(t, Claim(q, n), Taking(q.head, q.log[q.head..q.head + n], [], false, []), [], [], [], [])
  }

  /** With a head at `start` the values `extra` do not fit, and the whole batch is published. It is,
      in every such state, when there are not too many of them (`BulkOverflowFitsIff`). */
  predicate Overflows<T>(q: Queue<T>, start: nat, extra: seq<T>) {
    && q.cap < q.tail - start + |extra|
    && 0 < q.cap && start + BatchSize(start, q.cap) <= q.tail
  }

  /** The exchange of an overflow moves the head by half of the capacity; the slices that it hands
      to the receiver span `BatchSize` positions. What they span beyond the new head stays in the
      queue as well. */
  function OverflowEffect<T>(q: Queue<T>, t: nat, extra: seq<T>): Effect<T>
    requires 0 < q.cap && q.head + BatchSize(q.head, q.cap) <= |q.log|
  {
    var h, m := q.head, BatchSize(q.head, q.cap);
    OverflowMove(q, t, q.log[h..h + m], extra, q.log[h + q.cap / 2..h + m])
  }

  function OverflowMove<T>(q: Queue<T>, t: nat, vals: seq<T>, extra: seq<T>, twice: seq<T>): Effect<T> {
    Move(t, Claim(q, q.cap / 2), Taking(q.head, vals, [], true, extra), [], [], [], twice)
  }

  lemma OverflowFits<T>(q: Queue<T>, extra: seq<T>)
    requires QueueInv(q) && q.cap < q.tail - q.head + |extra| && |extra| <= q.cap / 2 + 1
    ensures Overflows(q, q.head, extra)
  {
    BulkOverflowFitsIff(q.cap, |extra|);
    assert BulkOverflows(q.tail - q.head, |extra|, q.cap);
  }

  function ProducerEffect<T>(s: State<T>, t: nat, a: Action<T>): Effect<T>
    requires Shape(s) && t < |s.threads| && t < |s.queues|
  {
    var pc, q := s.threads[t], s.queues[t];
    if a.SeeHead? && pc.Idle? && q.seen <= a.head <= q.head then
      Move(t, if a.cache then Cache(q, a.head) else Observe(q, a.head), pc, [], [], [], [])
    else if a.Push? && pc.Idle? then Local(CallPush(q, a.value, a.test))
    else if a.Refuse? && pc.PushCas? then Local(Idle)
    else if a.Write? && pc.Idle? && 0 < Room(q) then WriteEffect(q, t, [], a.value)
    else if a.Write? && pc.Filling? && |pc.vals| < Room(q) then WriteEffect(q, t, pc.vals, a.value)
    else if a.Commit? && pc.Filling? then Move(t, Publish(q, pc.vals), Idle, pc.vals, [], [], [])
    else if a.Abandon? && pc.Filling? then Local(Idle)
    else if a.TryClaim? && pc.Idle? && q.head == a.start && a.start + a.n <= q.tail then TakeEffect(q, t, a.n)
    else if a.TryOverflow? && pc.Idle? && q.head == a.start && Overflows(q, a.start, a.extra) then
      OverflowEffect(q, t, a.extra)
    else Local(pc)
  }

  /** The store of a push, if there is room (`Overwritten`). */
  function PushEffect<T>(q: Queue<T>, t: nat, value: T): Effect<T>
    requires 0 < q.cap == |q.buf|
  {
    Move(t, Store(q, q.tail, value), Publishing(value), [], [], [], [])
  }

  /** The test of a push. */
  function CallPush<T>(q: Queue<T>, value: T, test: Test): Pc<T> {
    if Fires(test, MarksOf(q), q.cap) then PushLoad(value, test) else Pushing(value)
  }

  /** After its load of the head: `maybe_push` gives up where `push` goes on to overflow. */
  function AfterPushLoad<T>(q: Queue<T>, value: T, test: Test): Pc<T> {
    if q.head != q.cached then Pushing(value) else if test.Equal? then PushCas(value) else Idle
  }

  /** The exchange of the overflow; when it fails the cached head stays as it is. */
  function PushCasEffect<T>(q: Queue<T>, t: nat, value: T): Effect<T>
    requires QueueInv(q) && q.tail == q.cached + q.cap
  {
    if q.head == q.cached then
      OverflowFits(q, [value]);
      OverflowEffect(q, t, [value])
    else Move(t, Observe(q, q.head), Pushing(value), [], [], [], [])
  }

  function GoEffect<T>(s: State<T>, t: nat): Effect<T>
    requires Shape(s) && t < |s.threads|
  {
    var pc := s.threads[t];
    match pc
    case PushLoad(value, test) =>
      var q := s.queues[t];
      Move(t, Cache(q, q.head), AfterPushLoad(q, value, test), [], [], [], [])
    case PushCas(value) => PushCasEffect(s.queues[t], t, value)
    case Pushing(value) => if 0 < Room(s.queues[t]) then PushEffect(s.queues[t], t, value) else Local(pc)
    case Publishing(value) => Move(t, Publish(s.queues[t], [value]), Idle, [value], [], [], [])
    case PopHead(i, max, tries) => Local(PopTail(i, max, s.queues[i].head, tries))
    case PopTail(i, max, head, tries) => Local(AfterPopTail(s.queues[i], i, max, head, tries))
    case PopCopy(i, max, head, n, copied, tries) =>
      if |copied| < n then Local(CopyOne(s.queues[i], i, max, head, n, copied, tries))
      else PopCas(s.queues[i], i, max, head, n, copied, tries)
    case StealHead(i, tries) => Local(StealTail(i, s.queues[i].head, tries))
    case StealTail(i, head, tries) => Local(AfterStealTail(s.queues[i], i, head, tries, s.least))
    case StealCopy(i, head, n, k, tries) =>
      if k < n then
        Move(t, StealInto(s.queues[i], s.queues[t], head, n, k), StealCopy(i, head, n, k + 1, tries), [], [], [], [])
      else StealCas(s.queues[i], i, head, n, tries)
    case StealStore(moved) => StealPublish(s.queues[t], t, |moved|)
    case Taking(start, vals, got, receiver, extra) =>
      if |got| < |vals| then Local(TakeOne(s.queues[t], start, vals, got, receiver, extra))
      else HandOver(s.queues[t], t, start, got, receiver, extra)
    case _ => Local(pc)
  }

  // ------------------------------------------------------------------ every step keeps the shape

  function Contents<T>(q: Queue<T>): multiset<T> {
    if q.head <= |q.log| then multiset(q.log[q.head..]) else multiset{}
  }

  /** Values that a thread has claimed and not handed over yet. */
  function Held<T>(pc: Pc<T>): multiset<T> {
    match pc
    case Taking(_, vals, _, _, _) => multiset(vals)
    case StealStore(moved) => multiset(moved)
    case _ => multiset{}
  }

  /** A good effect: the queue stays sound, other threads can live with the change, the thread
      knows what it claims to know, and every value is accounted for. */
  ghost predicate EffectOk<T>(s: State<T>, t: nat, e: Effect<T>)
    requires t < |s.threads|
  {
    match e
    case Local(pc) => PcInv(s.queues, t, pc) && Held(pc) == Held(s.threads[t])
    case Move(i, q, pc, pushed, delivered, received, twice) =>
      && i < |s.queues| && QueueInv(q) && AnyRely(s.queues[i], q)
      && (i != t ==> ConsumerRely(s.queues[i], q))
      && PcInv(s.queues[i := q], t, pc)
      && Balanced(multiset(pushed) + multiset(twice), Contents(s.queues[i]) + Held(s.threads[t]),
                  Contents(q) + Held(pc), multiset(delivered) + multiset(received))
  }

  /** What came in and what was there is what is there and what went out. */
  ghost predicate Balanced<T>(came: multiset<T>, before: multiset<T>, after: multiset<T>, went: multiset<T>) {
    came + before == after + went
  }

  lemma CopiedSurvives<T>(q: Queue<T>, q': Queue<T>, max: nat, head: nat, n: nat, copied: seq<T>, tries: nat)
    requires Copied(q, max, head, n, copied, tries) && AnyRely(q, q')
    ensures Copied(q', max, head, n, copied, tries)
  {
  }

  lemma StolenSurvives<T>(src: Queue<T>, src': Queue<T>, own: Queue<T>, own': Queue<T>,
                          h: nat, n: nat, k: nat, tries: nat)
    requires Stolen(src, own, h, n, k, tries) && AnyRely(src, src') && own' == own.(head := own'.head)
    ensures Stolen(src', own', h, n, k, tries)
  {
  }

  /** What a thread knows survives what other threads do. */
  lemma PcInvSurvives<T>(queues: seq<Queue<T>>, i: nat, q: Queue<T>, u: nat, pc: Pc<T>)
    requires PcInv(queues, u, pc) && i < |queues|
    requires AnyRely(queues[i], q) && (i == u ==> ConsumerRely(queues[i], q))
    ensures PcInv(queues[i := q], u, pc)
  {
    var queues' := queues[i := q];
    match pc
    case PopCopy(j, max, head, n, copied, tries) =>
      CopiedSurvives(queues[j], queues'[j], max, head, n, copied, tries);
    case StealCopy(j, head, n, k, tries) =>
      StolenSurvives(queues[j], queues'[j], queues[u], queues'[u], head, n, k, tries);
    case _ =>
  }

  lemma ApplyKeepsShape<T>(s: State<T>, t: nat, e: Effect<T>)
    requires Shape(s) && t < |s.threads| && EffectOk(s, t, e)
    ensures Shape(Apply(s, t, e))
  {
    var s' := Apply(s, t, e);
    forall u: nat | u < |s'.threads| ensures PcInv(s'.queues, u, s'.threads[u]) {
      if e.Move? && u != t { PcInvSurvives(s.queues, e.i, e.q, u, s.threads[u]); }
    }
  }

  lemma EffectIsOk<T>(s: State<T>, t: nat, a: Action<T>)
    requires Shape(s) && t < |s.threads|
    ensures EffectOk(s, t, EffectOf(s, t, a))
  {
    if a.Go? { GoIsOk(s, t); } else { CallIsOk(s, t, a); }
  }

  lemma CallIsOk<T>(s: State<T>, t: nat, a: Action<T>)
    requires Shape(s) && t < |s.threads| && !a.Go?
    ensures EffectOk(s, t, EffectOf(s, t, a))
  {
    assert PcInv(s.queues, t, s.threads[t]);
    if t < |s.queues| { ProducerIsOk(s, t, a); }
  }

  lemma GoIsOk<T>(s: State<T>, t: nat)
    requires Shape(s) && t < |s.threads|
    ensures EffectOk(s, t, GoEffect(s, t))
  {
    assert PcInv(s.queues, t, s.threads[t]);
    if Consuming(s.threads[t]) {
      ConsumerGoIsOk(s, t);
    } else {
      match s.threads[t]
      case PushLoad(value, test) => PushLoadIsOk(s, t, value, test);
      case PushCas(value) => PushCasIsOk(s, t, value);
      case Pushing(value) => if 0 < Room(s.queues[t]) { PushEffectIsOk(s, t, value); }
      case Publishing(value) => PublishingIsOk(s, t, value);
      case Taking(start, vals, got, receiver, extra) => TakingIsOk(s, t, start, vals, got, receiver, extra);
      case _ =>
    }
  }

  predicate Consuming<T>(pc: Pc<T>) {
    pc.PopHead? || pc.PopTail? || pc.PopCopy? || pc.StealHead? || pc.StealTail? || pc.StealCopy? || pc.StealStore?
  }

  lemma ConsumerGoIsOk<T>(s: State<T>, t: nat)
    requires Shape(s) && t < |s.threads| && Consuming(s.threads[t])
    ensures EffectOk(s, t, GoEffect(s, t))
  {
    assert PcInv(s.queues, t, s.threads[t]);
    match s.threads[t]
    case PopTail(i, max, head, tries) => PopTailIsOk(s, t, i, max, head, tries);
    case PopCopy(i, max, head, n, copied, tries) => PopCopyIsOk(s, t, i, max, head, n, copied, tries);
    case StealTail(i, head, tries) => StealTailIsOk(s, t, i, head, tries);
    case StealCopy(i, head, n, k, tries) =>
      if k < n { StealOneIsOk(s, t, i, head, n, k, tries); } else { StealCasIsOk(s, t, i, head, n, tries); }
    case StealStore(moved) => StealPublishIsOk(s, t, moved);
    case _ =>
  }

  lemma ContentsSplit<T>(q: Queue<T>, n: nat)
    requires q.head + n <= |q.log|
    ensures Contents(q) == multiset(q.log[q.head..q.head + n]) + Contents(Claim(q, n))
  {
    assert q.log[q.head..] == q.log[q.head..q.head + n] + q.log[q.head + n..];
  }

  lemma ContentsGrow<T>(q: Queue<T>, vals: seq<T>)
    requires q.head <= |q.log|
    ensures Contents(Publish(q, vals)) == Contents(q) + multiset(vals)
  {
    assert (q.log + vals)[q.head..] == q.log[q.head..] + vals;
  }

  /** Every successful compare-and-exchange on a head passes the claimed values on: the thread
      holds them or they are delivered at once. */
  lemma ClaimIsOk<T>(s: State<T>, t: nat, i: nat, n: nat, pc: Pc<T>, delivered: seq<T>)
    requires Shape(s) && t < |s.threads| && i < |s.queues| && s.queues[i].head + n <= s.queues[i].tail
    requires PcInv(s.queues[i := Claim(s.queues[i], n)], t, pc)
    requires Held(s.threads[t]) == multiset{}
    requires var q := s.queues[i]; multiset(q.log[q.head..q.head + n]) == Held(pc) + multiset(delivered)
    ensures EffectOk(s, t, Move(i, Claim(s.queues[i], n), pc, [], delivered, [], []))
  {
    ContentsSplit(s.queues[i], n);
  }

  /** A store behind the tail while there is room changes no live slot and no slot stored behind the
      tail before it. */
  lemma StoreBehindTail<T>(q: Queue<T>, k: nat, value: T)
    requires QueueInv(q) && k < Room(q)
    ensures QueueInv(Store(q, q.tail + k, value))
    ensures forall p: nat {:trigger Slot(p, q.cap)} :: q.head <= p < q.tail + k ==>
              Store(q, q.tail + k, value).buf[Slot(p, q.cap)] == q.buf[Slot(p, q.cap)]
  {
    forall p: nat | q.head <= p < q.tail + k ensures Slot(p, q.cap) != Slot(q.tail + k, q.cap) {
      SlotsDiffer(p, q.tail + k, q.cap);
    }
  }

  // ------------------------------------------------------------------ consumer_pop_many

  /** The heart of the optimistic copy: when the compare-and-exchange succeeds, the copied
      values are the published ones, whatever the producer stored during the copy. */
  lemma CopiedIsLog<T>(q: Queue<T>, max: nat, head: nat, n: nat, copied: seq<T>, tries: nat)
    requires QueueInv(q) && Copied(q, max, head, n, copied, tries) && |copied| == n && q.head == head
    ensures head + n <= q.tail && n <= q.cap && copied == q.log[head..head + n]
  {
  }

  lemma PopTailIsOk<T>(s: State<T>, t: nat, i: nat, max: nat, head: nat, tries: nat)
    requires Shape(s) && t < |s.threads| && s.threads[t] == PopTail(i, max, head, tries)
    ensures EffectOk(s, t, GoEffect(s, t))
  {
    assert PcInv(s.queues, t, s.threads[t]);
  }

  lemma PopCopyIsOk<T>(s: State<T>, t: nat, i: nat, max: nat, head: nat, n: nat, copied: seq<T>, tries: nat)
    requires Shape(s) && t < |s.threads| && s.threads[t] == PopCopy(i, max, head, n, copied, tries)
    ensures EffectOk(s, t, GoEffect(s, t))
  {
    assert PcInv(s.queues, t, s.threads[t]);
    var q := s.queues[i];
    if |copied| == n && q.head == head {
      CopiedIsLog(q, max, head, n, copied, tries);
      ClaimIsOk(s, t, i, n, Idle, copied);
    }
  }

  // ------------------------------------------------------------------ steal_into

  lemma StolenOneMore<T>(src: Queue<T>, own: Queue<T>, head: nat, n: nat, k: nat, tries: nat)
    requires QueueInv(src) && QueueInv(own) && Stolen(src, own, head, n, k, tries) && k < n <= Room(own)
    ensures QueueInv(StealInto(src, own, head, n, k))
    ensures Stolen(src, StealInto(src, own, head, n, k), head, n, k + 1, tries)
  {
    var value := src.buf[Slot(head + PieceOffset(k, n, head, src.cap), src.cap)];
    StoreBehindTail(own, k, value);
  }

  lemma StealTailIsOk<T>(s: State<T>, t: nat, i: nat, head: nat, tries: nat)
    requires Shape(s) && t < |s.threads| && s.threads[t] == StealTail(i, head, tries)
    ensures EffectOk(s, t, GoEffect(s, t))
  {
    assert PcInv(s.queues, t, s.threads[t]);
  }

  lemma StealOneIsOk<T>(s: State<T>, t: nat, i: nat, head: nat, n: nat, k: nat, tries: nat)
    requires Shape(s) && t < |s.threads| && s.threads[t] == StealCopy(i, head, n, k, tries) && k < n
    ensures EffectOk(s, t, GoEffect(s, t))
  {
    assert PcInv(s.queues, t, s.threads[t]);
    StolenOneMore(s.queues[i], s.queues[t], head, n, k, tries);
  }

  /** When the compare-and-exchange of a steal succeeds, the slots behind the tail of the
      destination hold the claimed values of the source, in the order of the pieces. */
  lemma StolenIsLoot<T>(src: Queue<T>, own: Queue<T>, head: nat, n: nat, tries: nat)
    requires Stolen(src, own, head, n, n, tries) && src.head == head
    ensures StoredAt(own.buf, own.cap, own.tail, Loot(src, head, n))
  {
    var loot := Loot(src, head, n);
    LootByOffset(src, head, n, loot);
    forall j: nat | j < n ensures own.buf[Slot(own.tail + j, own.cap)] == loot[j] {
      assert PieceOffset(j, n, head, src.cap) < n;
    }
    StoredOneByOne(own.buf, own.cap, own.tail, loot);
  }

  lemma LootByOffset<T>(src: Queue<T>, head: nat, n: nat, loot: seq<T>)
    requires 0 < src.cap && head + n <= |src.log| && loot == Loot(src, head, n)
    ensures |loot| == n
    ensures forall j: nat {:trigger loot[j]} :: j < n ==> loot[j] == src.log[head + PieceOffset(j, n, head, src.cap)]
  {
  }

  lemma StoredOneByOne<T>(buf: seq<T>, cap: nat, from: nat, vals: seq<T>)
    requires 0 < cap == |buf|
    requires forall j: nat {:trigger vals[j]} :: j < |vals| ==> buf[Slot(from + j, cap)] == vals[j]
    ensures StoredAt(buf, cap, from, vals)
  {
    forall p: nat | from <= p < from + |vals| ensures buf[Slot(p, cap)] == vals[p - from] {
      assert from + (p - from) == p;
    }
  }

  lemma StealWinIsOk<T>(s: State<T>, t: nat, i: nat, n: nat, tries: nat)
    requires Shape(s) && t < |s.threads| && i < |s.queues|
    requires s.threads[t] == StealCopy(i, s.queues[i].head, n, n, tries)
    requires PcInv(s.queues, t, s.threads[t])
    ensures EffectOk(s, t, StealWin(s.queues[i], i, n))
  {
    var src := s.queues[i];
    StolenIsLoot(src, s.queues[t], src.head, n, tries);
    PieceOrderKeepsValues(src.log[src.head..src.head + n], src.head, src.cap);
    assert PcInv(s.queues[i := Claim(src, n)], t, StealStore(Loot(src, src.head, n)));
    assert multiset(Loot(src, src.head, n)) + multiset([]) == multiset(Loot(src, src.head, n));
    ClaimIsOk(s, t, i, n, StealStore(Loot(src, src.head, n)), []);
  }

  lemma StealCasIsOk<T>(s: State<T>, t: nat, i: nat, head: nat, n: nat, tries: nat)
    requires Shape(s) && t < |s.threads| && s.threads[t] == StealCopy(i, head, n, n, tries)
    ensures EffectOk(s, t, GoEffect(s, t))
  {
    assert PcInv(s.queues, t, s.threads[t]);
    if s.queues[i].head == head { StealWinIsOk(s, t, i, n, tries); }
  }

  lemma StealPublishIsOk<T>(s: State<T>, t: nat, moved: seq<T>)
    requires Shape(s) && t < |s.threads| && s.threads[t] == StealStore(moved)
    ensures EffectOk(s, t, GoEffect(s, t))
    ensures t < |s.queues| && GoEffect(s, t) == Move(t, Publish(s.queues[t], moved), Idle, [], [], [], [])
  {
    assert PcInv(s.queues, t, s.threads[t]);
    var own := s.queues[t];
    assert ReadRange(own.buf, own.tail, |moved|) == moved;
    ContentsGrow(own, moved);
  }

  // ------------------------------------------------------------------ the producer

  lemma TakingIsOk<T>(s: State<T>, t: nat, start: nat, vals: seq<T>, got: seq<T>, receiver: bool, extra: seq<T>)
    requires Shape(s) && t < |s.threads| && s.threads[t] == Taking(start, vals, got, receiver, extra)
    ensures EffectOk(s, t, GoEffect(s, t))
  {
    assert PcInv(s.queues, t, s.threads[t]);
    if |got| == |vals| {
      HandOverIsOk(s, t, start, vals, receiver, extra);
    } else {
      var got' := TakeOne(s.queues[t], start, vals, got, receiver, extra).got;
      assert got' == vals[..|got'|];
    }
  }

  lemma HandOverIsOk<T>(s: State<T>, t: nat, start: nat, vals: seq<T>, receiver: bool, extra: seq<T>)
    requires Shape(s) && t < |s.threads| && s.threads[t] == Taking(start, vals, vals, receiver, extra)
    ensures t < |s.queues| && EffectOk(s, t, HandOver(s.queues[t], t, start, vals, receiver, extra))
  {
    assert PcInv(s.queues, t, s.threads[t]);
    PieceOrderKeepsValues(vals, start, s.queues[t].cap);
  }

  lemma ProducerIsOk<T>(s: State<T>, t: nat, a: Action<T>)
    requires Shape(s) && t < |s.threads| && t < |s.queues|
    ensures EffectOk(s, t, ProducerEffect(s, t, a))
  {
    var pc := s.threads[t];
    assert PcInv(s.queues, t, pc);
    match a
    case Write(value) => WriteIsOk(s, t, value);
    case Commit => CommitIsOk(s, t);
    case TryClaim(start, n) => TryClaimIsOk(s, t, start, n);
    case TryOverflow(start, extra) => TryOverflowIsOk(s, t, start, extra);
    case _ =>
  }

  lemma PushLoadIsOk<T>(s: State<T>, t: nat, value: T, test: Test)
    requires Shape(s) && t < |s.threads| && s.threads[t] == PushLoad(value, test)
    ensures EffectOk(s, t, GoEffect(s, t))
  {
    assert PcInv(s.queues, t, s.threads[t]);
  }

  lemma PushCasIsOk<T>(s: State<T>, t: nat, value: T)
    requires Shape(s) && t < |s.threads| && s.threads[t] == PushCas(value)
    ensures EffectOk(s, t, GoEffect(s, t))
  {
    assert PcInv(s.queues, t, s.threads[t]);
    if s.queues[t].head == s.queues[t].cached {
      OverflowFits(s.queues[t], [value]);
      OverflowEffectIsOk(s, t, [value]);
    }
  }

  lemma WriteEffectIsOk<T>(s: State<T>, t: nat, vals: seq<T>, value: T)
    requires Shape(s) && t < |s.threads| && t < |s.queues| && Held(s.threads[t]) == multiset{}
    requires PcInv(s.queues, t, Filling(vals)) && |vals| < Room(s.queues[t])
    ensures EffectOk(s, t, WriteEffect(s.queues[t], t, vals, value))
  {
    StoreBehindTail(s.queues[t], |vals|, value);
  }

  lemma PublishingIsOk<T>(s: State<T>, t: nat, value: T)
    requires Shape(s) && t < |s.threads| && s.threads[t] == Publishing(value)
    ensures EffectOk(s, t, GoEffect(s, t))
  {
    assert PcInv(s.queues, t, s.threads[t]);
    ContentsGrow(s.queues[t], [value]);
  }

  lemma PushEffectIsOk<T>(s: State<T>, t: nat, value: T)
    requires Shape(s) && t < |s.threads| && t < |s.queues| && Held(s.threads[t]) == multiset{}
    requires 0 < Room(s.queues[t])
    ensures EffectOk(s, t, PushEffect(s.queues[t], t, value))
  {
    StoreBehindTail(s.queues[t], 0, value);
  }

  lemma WriteIsOk<T>(s: State<T>, t: nat, value: T)
    requires Shape(s) && t < |s.threads| && t < |s.queues|
    ensures EffectOk(s, t, ProducerEffect(s, t, Write(value)))
  {
    var pc := s.threads[t];
    assert PcInv(s.queues, t, pc);
    if pc.Idle? && 0 < Room(s.queues[t]) {
      WriteEffectIsOk(s, t, [], value);
    } else if pc.Filling? && |pc.vals| < Room(s.queues[t]) {
      WriteEffectIsOk(s, t, pc.vals, value);
    }
  }

  lemma CommitIsOk<T>(s: State<T>, t: nat)
    requires Shape(s) && t < |s.threads| && t < |s.queues|
    ensures EffectOk(s, t, ProducerEffect(s, t, Commit))
  {
    var pc, q := s.threads[t], s.queues[t];
    assert PcInv(s.queues, t, pc);
    if pc.Filling? { ContentsGrow(q, pc.vals); }
  }

  lemma TakeIsOk<T>(s: State<T>, t: nat, n: nat)
    requires Shape(s) && t < |s.threads| && t < |s.queues| && s.threads[t].Idle?
    requires s.queues[t].head + n <= s.queues[t].tail
    ensures EffectOk(s, t, TakeEffect(s.queues[t], t, n))
  {
    var q := s.queues[t];
    var vals := q.log[q.head..q.head + n];
    assert PcInv(s.queues[t := Claim(q, n)], t, Taking(q.head, vals, [], false, []));
    assert multiset(vals) + multiset([]) == multiset(vals);
    ClaimIsOk(s, t, t, n, Taking(q.head, vals, [], false, []), []);
  }

  lemma TryClaimIsOk<T>(s: State<T>, t: nat, start: nat, n: nat)
    requires Shape(s) && t < |s.threads| && t < |s.queues|
    ensures EffectOk(s, t, ProducerEffect(s, t, TryClaim(start, n)))
  {
    if s.threads[t].Idle? && s.queues[t].head == start && start + n <= s.queues[t].tail {
      TakeIsOk(s, t, n);
    } else {
      assert PcInv(s.queues, t, s.threads[t]);
    }
  }

  /** The batch is what the head moves over and what it does not. */
  lemma BatchSplit<T>(q: Queue<T>, vals: seq<T>, claimed: seq<T>, twice: seq<T>)
    requires 0 < q.cap && q.head + BatchSize(q.head, q.cap) <= |q.log|
    requires vals == q.log[q.head..q.head + BatchSize(q.head, q.cap)]
    requires claimed == q.log[q.head..q.head + q.cap / 2]
    requires twice == q.log[q.head + q.cap / 2..q.head + BatchSize(q.head, q.cap)]
    ensures Contents(q) == multiset(claimed) + Contents(Claim(q, q.cap / 2))
    ensures multiset(vals) == multiset(claimed) + multiset(twice)
  {
    ContentsSplit(q, q.cap / 2);
    assert vals == claimed + twice;
  }

  lemma OverflowBalances<T>(q: Queue<T>, t: nat, vals: seq<T>, extra: seq<T>, twice: seq<T>, claimed: multiset<T>)
    requires Contents(q) == claimed + Contents(Claim(q, q.cap / 2)) && multiset(vals) == claimed + multiset(twice)
    ensures var e := OverflowMove(q, t, vals, extra, twice);
            Balanced(multiset(e.pushed) + multiset(e.twice), Contents(q) + multiset{},
                     Contents(e.q) + Held(e.pc), multiset(e.delivered) + multiset(e.received))
  {
  }

  lemma OverflowKnows<T>(s: State<T>, t: nat, vals: seq<T>, extra: seq<T>)
    requires Shape(s) && t < |s.queues|
    requires var q := s.queues[t];
             && q.head + q.cap / 2 <= q.tail && q.head + |vals| <= q.tail
             && vals == q.log[q.head..q.head + |vals|]
    ensures var q := s.queues[t];
            && QueueInv(Claim(q, q.cap / 2)) && AnyRely(q, Claim(q, q.cap / 2))
            && PcInv(s.queues[t := Claim(q, q.cap / 2)], t, Taking(q.head, vals, [], true, extra))
  {
  }

  lemma OverflowMoveIsOk<T>(s: State<T>, t: nat, vals: seq<T>, extra: seq<T>, twice: seq<T>, claimed: multiset<T>)
    requires Shape(s) && t < |s.threads| && t < |s.queues| && Held(s.threads[t]) == multiset{}
    requires var q := s.queues[t];
             && Contents(q) == claimed + Contents(Claim(q, q.cap / 2)) && multiset(vals) == claimed + multiset(twice)
             && QueueInv(Claim(q, q.cap / 2)) && AnyRely(q, Claim(q, q.cap / 2))
             && PcInv(s.queues[t := Claim(q, q.cap / 2)], t, Taking(q.head, vals, [], true, extra))
    ensures EffectOk(s, t, OverflowMove(s.queues[t], t, vals, extra, twice))
  {
    OverflowBalances(s.queues[t], t, vals, extra, twice, claimed);
  }

  lemma OverflowIsOk<T>(s: State<T>, t: nat, extra: seq<T>, vals: seq<T>, claimed: seq<T>, twice: seq<T>)
    requires Shape(s) && t < |s.threads| && t < |s.queues| && Held(s.threads[t]) == multiset{}
    requires var q := s.queues[t];
             && q.head + BatchSize(q.head, q.cap) <= q.tail
             && vals == q.log[q.head..q.head + BatchSize(q.head, q.cap)]
             && claimed == q.log[q.head..q.head + q.cap / 2]
             && twice == q.log[q.head + q.cap / 2..q.head + BatchSize(q.head, q.cap)]
    ensures EffectOk(s, t, OverflowMove(s.queues[t], t, vals, extra, twice))
  {
    BatchSplit(s.queues[t], vals, claimed, twice);
    OverflowKnows(s, t, vals, extra);
    OverflowMoveIsOk(s, t, vals, extra, twice, multiset(claimed));
  }

  lemma OverflowEffectIsOk<T>(s: State<T>, t: nat, extra: seq<T>)
    requires Shape(s) && t < |s.threads| && t < |s.queues| && Held(s.threads[t]) == multiset{}
    requires Overflows(s.queues[t], s.queues[t].head, extra)
    ensures s.queues[t].head + BatchSize(s.queues[t].head, s.queues[t].cap) <= s.queues[t].tail
    ensures EffectOk(s, t, OverflowEffect(s.queues[t], t, extra))
  {
    var q := s.queues[t];
    assert QueueInv(q);
    var h, n, m := q.head, q.cap / 2, BatchSize(q.head, q.cap);
    SlicedOverflowIsOk(s, t, extra, q.log[h..h + m], q.log[h..h + n], q.log[h + n..h + m]);
  }

  lemma SlicedOverflowIsOk<T>(s: State<T>, t: nat, extra: seq<T>, vals: seq<T>, claimed: seq<T>, twice: seq<T>)
    requires Shape(s) && t < |s.threads| && t < |s.queues| && Held(s.threads[t]) == multiset{}
    requires var q := s.queues[t];
             && q.head + BatchSize(q.head, q.cap) <= q.tail
             && vals == q.log[q.head..q.head + BatchSize(q.head, q.cap)]
             && claimed == q.log[q.head..q.head + q.cap / 2]
             && twice == q.log[q.head + q.cap / 2..q.head + BatchSize(q.head, q.cap)]
    ensures EffectOk(s, t, OverflowEffect(s.queues[t], t, extra))
  {
    assert OverflowEffect(s.queues[t], t, extra) == OverflowMove(s.queues[t], t, vals, extra, twice);
    OverflowIsOk(s, t, extra, vals, claimed, twice);
  }

  lemma TryOverflowIsOk<T>(s: State<T>, t: nat, start: nat, extra: seq<T>)
    requires Shape(s) && t < |s.threads| && t < |s.queues|
    ensures EffectOk(s, t, ProducerEffect(s, t, TryOverflow(start, extra)))
  {
    if s.threads[t].Idle? && s.queues[t].head == start && Overflows(s.queues[t], start, extra) {
      OverflowEffectIsOk(s, t, extra);
    } else {
      assert PcInv(s.queues, t, s.threads[t]);
    }
  }

  // ------------------------------------------------------------------ runs

  /** The store of a push with no slot free: it puts its value over the oldest element, which nobody
      took. */
  predicate Overwrites<T>(s: State<T>, e: Event<T>) {
    var t := e.thread;
    t < |s.threads| && t < |s.queues| && e.action.Go? && s.threads[t].Pushing? && Room(s.queues[t]) <= 0
  }

  /** Where the oldest element was, the queue then has the value that was pushed. */
  function Overwritten<T>(s: State<T>, t: nat): State<T>
    requires Shape(s) && t < |s.threads| && t < |s.queues| && s.threads[t].Pushing? && Room(s.queues[t]) <= 0
  {
    var q, value := s.queues[t], s.threads[t].value;
    s.(queues := s.queues[t := Store(q, q.tail, value).(log := q.log[q.head := value])],
       threads := s.threads[t := Idle], pushed := s.pushed + multiset{value}, lost := s.lost + multiset{q.log[q.head]})
  }

  /** Nothing was stored over so far; or something was, and there the run ends. */
  ghost predicate Good<T>(s: State<T>) {
    s.lost != multiset{} || Shape(s)
  }

  function Step<T>(s: State<T>, e: Event<T>): (s': State<T>)
    requires Good(s)
    ensures Good(s')
  {
    if s.lost != multiset{} || e.thread >= |s.threads| then s
    else if Overwrites(s, e) then Overwritten(s, e.thread)
    else
      assert EffectOk(s, e.thread, EffectOf(s, e.thread, e.action))
             && Shape(Apply(s, e.thread, EffectOf(s, e.thread, e.action))) by {
        EffectIsOk(s, e.thread, e.action);
        ApplyKeepsShape(s, e.thread, EffectOf(s, e.thread, e.action));
      }
      Apply(s, e.thread, EffectOf(s, e.thread, e.action))
  }

  /** Every run keeps every queue sound until it stores over an element. */
  function Run<T>(s: State<T>, events: seq<Event<T>>): (s': State<T>)
    requires Good(s)
    ensures Good(s')
    decreases |events|
  {
    if events == [] then s else Run(Step(s, events[0]), events[1..])
  }

  lemma {:induction false} RunStays<T>(s: State<T>, events: seq<Event<T>>)
    requires s.lost != multiset{}
    ensures Run(s, events) == s
    decreases |events|
  {
    if events != [] { RunStays(s, events[1..]); }
  }

  lemma {:induction false} RunConcat<T>(s: State<T>, a: seq<Event<T>>, b: seq<Event<T>>)
    requires Good(s)
    ensures Run(s, a + b) == Run(Run(s, a), b)
    decreases |a|
  {
    if a == [] {
      assert a + b == b;
    } else {
      assert (a + b)[1..] == a[1..] + b;
      RunConcat(Step(s, a[0]), a[1..], b);
    }
  }

  /** Empty queues over arbitrary memory and idle threads. */
  function Init<T>(memories: seq<seq<T>>, threads: nat, least: nat): (s: State<T>)
    requires |memories| <= threads
    requires forall i :: 0 <= i < |memories| ==> 0 < |memories[i]|
    ensures Shape(s)
  {
    State(seq(|memories|, i requires 0 <= i < |memories| => Queue(|memories[i]|, 0, 0, 0, 0, memories[i], [])),
          seq(threads, i => Idle), least, multiset{}, multiset{}, [], multiset{}, multiset{})
  }

  // ------------------------------------------------------------------ where the values are

  function QueueBags<T>(queues: seq<Queue<T>>): seq<multiset<T>> {
    seq(|queues|, i requires 0 <= i < |queues| => Contents(queues[i]))
  }

  function HeldBags<T>(threads: seq<Pc<T>>): seq<multiset<T>> {
    seq(|threads|, t requires 0 <= t < |threads| => Held(threads[t]))
  }

  /** Where all values are: in a queue, in the hands of a thread, delivered, or received. */
  function Everywhere<T>(s: State<T>): multiset<T> {
    Total(QueueBags(s.queues)) + Total(HeldBags(s.threads)) + (s.delivered + multiset(s.received))
  }

  /** Everything pushed is somewhere, or was stored over; and of what overflows took twice there is
      one more. */
  ghost predicate Accounted<T>(s: State<T>) {
    s.pushed + s.twice == Everywhere(s) + s.lost
  }

  /** Everything pushed is somewhere, once. */
  ghost predicate Conserved<T>(s: State<T>) {
    s.pushed == Everywhere(s)
  }

  lemma StillAccounted<T>(pushed: multiset<T>, came: multiset<T>,
                          queues: multiset<T>, queues': multiset<T>, q: multiset<T>, q': multiset<T>,
                          held: multiset<T>, held': multiset<T>, h: multiset<T>, h': multiset<T>,
                          gone: multiset<T>, went: multiset<T>)
    requires pushed == queues + held + gone
    requires queues' + q == queues + q' && held' + h == held + h'
    requires Balanced(came, q + h, q' + h', went)
    ensures pushed + came == queues' + held' + (gone + went)
  {
    forall v: T ensures (pushed + came)[v] == (queues' + held' + (gone + went))[v] {
      assert (queues' + q)[v] == (queues + q')[v];
      assert (held' + h)[v] == (held + h')[v];
      assert (came + (q + h))[v] == (q' + h' + went)[v];
    }
  }

  lemma HeldUpdate<T>(threads: seq<Pc<T>>, t: nat, pc: Pc<T>)
    requires t < |threads|
    ensures Total(HeldBags(threads[t := pc])) + Held(threads[t]) == Total(HeldBags(threads)) + Held(pc)
    ensures Held(pc) == Held(threads[t]) ==> HeldBags(threads[t := pc]) == HeldBags(threads)
  {
    TotalUpdate(HeldBags(threads), t, Held(pc));
    assert HeldBags(threads[t := pc]) == HeldBags(threads)[t := Held(pc)];
  }

  lemma QueueUpdate<T>(queues: seq<Queue<T>>, i: nat, q: Queue<T>)
    requires i < |queues|
    ensures Total(QueueBags(queues[i := q])) + Contents(queues[i]) == Total(QueueBags(queues)) + Contents(q)
  {
    TotalUpdate(QueueBags(queues), i, Contents(q));
    assert QueueBags(queues[i := q]) == QueueBags(queues)[i := Contents(q)];
  }

  lemma ApplyAccounts<T>(s: State<T>, t: nat, e: Effect<T>)
    requires t < |s.threads| && EffectOk(s, t, e) && Accounted(s)
    ensures Accounted(Apply(s, t, e))
  {
    HeldUpdate(s.threads, t, e.pc);
    if e.Move? {
      MoveAccounts(s, e.i, e.q, e.pc, t, e.pushed, e.delivered, e.received, e.twice);
    }
  }

  lemma MoveAccounts<T>(s: State<T>, i: nat, q: Queue<T>, pc: Pc<T>, t: nat,
                        pushed: seq<T>, delivered: seq<T>, received: seq<T>, twice: seq<T>)
    requires t < |s.threads| && i < |s.queues| && Accounted(s)
    requires Balanced(multiset(pushed) + multiset(twice), Contents(s.queues[i]) + Held(s.threads[t]),
                      Contents(q) + Held(pc), multiset(delivered) + multiset(received))
    ensures Accounted(Apply(s, t, Move(i, q, pc, pushed, delivered, received, twice)))
  {
    QueueUpdate(s.queues, i, q);
    HeldUpdate(s.threads, t, pc);
    var gone, went := s.delivered + multiset(s.received) + s.lost, multiset(delivered) + multiset(received);
    var came := multiset(pushed) + multiset(twice);
    StillAccounted(s.pushed + s.twice, came,
                   Total(QueueBags(s.queues)), Total(QueueBags(s.queues[i := q])), Contents(s.queues[i]), Contents(q),
                   Total(HeldBags(s.threads)), Total(HeldBags(s.threads[t := pc])), Held(s.threads[t]), Held(pc),
                   gone, went);
    assert multiset(s.received + received) == multiset(s.received) + multiset(received);
    assert gone + went == (s.delivered + multiset(delivered)) + multiset(s.received + received) + s.lost;
    assert s.pushed + s.twice + came == (s.pushed + multiset(pushed)) + (s.twice + multiset(twice));
  }

  /** The value takes the place of the oldest element in the queue. */
  lemma OverwrittenContents<T>(q: Queue<T>, value: T)
    requires QueueInv(q) && Room(q) <= 0
    ensures Contents(Store(q, q.tail, value).(log := q.log[q.head := value])) + multiset{q.log[q.head]}
         == Contents(q) + multiset{value}
  {
    assert q.log[q.head := value][q.head..] == [value] + q.log[q.head + 1..];
    assert q.log[q.head..] == [q.log[q.head]] + q.log[q.head + 1..];
  }

  lemma Replaced<T>(pushed: multiset<T>, queues: multiset<T>, queues': multiset<T>, q: multiset<T>, q': multiset<T>,
                    rest: multiset<T>, lost: multiset<T>, gone: multiset<T>, value: multiset<T>)
    requires pushed == queues + rest + lost && queues' + q == queues + q' && q' + gone == q + value
    ensures pushed + value == queues' + rest + (lost + gone)
  {
    forall v: T ensures (pushed + value)[v] == (queues' + rest + (lost + gone))[v] {
      assert (queues' + q)[v] == (queues + q')[v];
      assert (q' + gone)[v] == (q + value)[v];
    }
  }

  lemma OverwrittenAccounts<T>(s: State<T>, t: nat)
    requires Shape(s) && Accounted(s) && t < |s.threads| && t < |s.queues|
    requires s.threads[t].Pushing? && Room(s.queues[t]) <= 0
    ensures Accounted(Overwritten(s, t))
  {
    var q, value := s.queues[t], s.threads[t].value;
    var q' := Store(q, q.tail, value).(log := q.log[q.head := value]);
    OverwrittenContents(q, value);
    QueueUpdate(s.queues, t, q');
    HeldUpdate(s.threads, t, Idle);
    Replaced(s.pushed + s.twice, Total(QueueBags(s.queues)), Total(QueueBags(s.queues[t := q'])), Contents(q),
             Contents(q'), Total(HeldBags(s.threads)) + (s.delivered + multiset(s.received)), s.lost,
             multiset{q.log[q.head]}, multiset{value});
    assert s.pushed + s.twice + multiset{value} == (s.pushed + multiset{value}) + s.twice;
  }

  lemma StepAccounts<T>(s: State<T>, e: Event<T>)
    requires Good(s) && Accounted(s)
    ensures Accounted(Step(s, e))
  {
    if s.lost == multiset{} && e.thread < |s.threads| {
      if Overwrites(s, e) {
        OverwrittenAccounts(s, e.thread);
      } else {
        EffectIsOk(s, e.thread, e.action);
        ApplyAccounts(s, e.thread, EffectOf(s, e.thread, e.action));
      }
    }
  }

  lemma {:induction false} RunAccounts<T>(s: State<T>, events: seq<Event<T>>)
    requires Good(s) && Accounted(s)
    ensures Accounted(Run(s, events))
    decreases |events|
  {
    if events != [] {
      StepAccounts(s, events[0]);
      RunAccounts(Step(s, events[0]), events[1..]);
    }
  }

  // ------------------------------------------------------------------ what every run guarantees

  function RunFrom<T>(memories: seq<seq<T>>, threads: nat, least: nat, events: seq<Event<T>>): (s: State<T>)
    requires |memories| <= threads
    requires forall i :: 0 <= i < |memories| ==> 0 < |memories[i]|
    ensures Good(s)
  {
    Run(Init(memories, threads, least), events)
  }

  /** Accounting in any run of any number of queues of any capacities, producers, stealers and
      consumers, with any pushes: what is in the queues, claimed but not yet handed over, popped, or
      in the batch receiver, and what was stored over, is what was pushed, and once more what
      overflows took without giving it up. */
  lemma Accounting<T>(memories: seq<seq<T>>, threads: nat, least: nat, events: seq<Event<T>>)
    requires |memories| <= threads
    requires forall i :: 0 <= i < |memories| ==> 0 < |memories[i]|
    ensures Accounted(RunFrom(memories, threads, least, events))
  {
    var s := Init(memories, threads, least);
    TotalOfNothing(QueueBags(s.queues));
    TotalOfNothing(HeldBags(s.threads));
    RunAccounts(s, events);
  }

  /** So a run has lost and duplicated nothing exactly when what overflows took twice is what pushes
      stored over. */
  lemma ConservedIff<T>(s: State<T>)
    requires Accounted(s)
    ensures Conserved(s) <==> s.twice == s.lost
  {
    CancelLeft(s.pushed, s.twice, Everywhere(s), s.lost);
  }

  lemma CancelLeft<T>(a: multiset<T>, x: multiset<T>, b: multiset<T>, y: multiset<T>)
    requires a + x == b + y
    ensures a == b <==> x == y
  {
    if a == b {
      forall v: T ensures x[v] == y[v] { assert (a + x)[v] == (b + y)[v]; }
    }
    if x == y {
      forall v: T ensures a[v] == b[v] { assert (a + x)[v] == (b + y)[v]; }
    }
  }

  /** An overflow does so exactly at an odd capacity with the head in the upper half of the array. */
  lemma TakesTwiceIff<T>(q: Queue<T>, t: nat, extra: seq<T>)
    requires 0 < q.cap && q.head + BatchSize(q.head, q.cap) <= |q.log|
    ensures multiset(OverflowEffect(q, t, extra).twice) == multiset{} <==> q.cap % 2 == 0 || q.head % q.cap < q.cap / 2
  {
    BatchIsExactIff(q.head, q.cap);
    var twice := OverflowEffect(q, t, extra).twice;
    assert |multiset(twice)| == |twice| == BatchSize(q.head, q.cap) - q.cap / 2;
  }

  predicate EvenCapacities<T>(s: State<T>) {
    forall i: nat {:trigger s.queues[i]} :: i < |s.queues| ==> s.queues[i].cap % 2 == 0
  }

  lemma EvenTakesNothingTwice<T>(s: State<T>, t: nat, a: Action<T>)
    requires Shape(s) && t < |s.threads| && EvenCapacities(s)
    ensures var e := EffectOf(s, t, a); e.Move? ==> e.twice == []
  {
    assert PcInv(s.queues, t, s.threads[t]);
    if t < |s.queues| { BatchIsExactIff(s.queues[t].head, s.queues[t].cap); }
  }

  lemma EvenStep<T>(s: State<T>, e: Event<T>)
    requires Good(s) && EvenCapacities(s) && s.twice == multiset{}
    ensures EvenCapacities(Step(s, e)) && Step(s, e).twice == multiset{}
  {
    if s.lost == multiset{} && e.thread < |s.threads| && !Overwrites(s, e) {
      EffectIsOk(s, e.thread, e.action);
      EvenTakesNothingTwice(s, e.thread, e.action);
    }
  }

  lemma {:induction false} EvenRun<T>(s: State<T>, events: seq<Event<T>>)
    requires Good(s) && EvenCapacities(s) && s.twice == multiset{}
    ensures Run(s, events).twice == multiset{}
    decreases |events|
  {
    if events != [] {
      EvenStep(s, events[0]);
      EvenRun(Step(s, events[0]), events[1..]);
    }
  }

  // ------------------------------------------------------------------ which pushes are safe

  /** A push is called when its test is safe (`PushTest.TestIsSafeIff`). */
  predicate SafeEvent<T>(s: State<T>, e: Event<T>) {
    e.action.Push? && e.thread < |s.threads| && e.thread < |s.queues| && s.threads[e.thread].Idle? ==>
      SafeToPush(MarksOf(s.queues[e.thread]), s.queues[e.thread].cap)
  }

  ghost predicate SafePushes<T>(s: State<T>, events: seq<Event<T>>)
    requires Good(s)
    decreases |events|
  {
    events == [] || (SafeEvent(s, events[0]) && SafePushes(Step(s, events[0]), events[1..]))
  }

  /** No push that is under way can run out of room. */
  ghost predicate Roomy<T>(s: State<T>) {
    forall t: nat {:trigger s.threads[t]} :: t < |s.threads| && t < |s.queues| ==> RoomyPc(s.queues[t], s.threads[t])
  }

  predicate RoomyPc<T>(q: Queue<T>, pc: Pc<T>) {
    match pc
    case PushLoad(_, _) => SafeToPush(MarksOf(q), q.cap)
    case Pushing(_) => q.tail < q.seen + q.cap
    case _ => true
  }

  /** Pushes get under way only from their call, and from there on only step by step. */
  lemma NoPushFromGo<T>(s: State<T>, t: nat)
    requires Shape(s) && t < |s.threads| && !s.threads[t].PushLoad? && !s.threads[t].PushCas?
    requires s.threads[t].Pushing? ==> t < |s.queues| && 0 < Room(s.queues[t])
    ensures var pc' := GoEffect(s, t).pc; !pc'.PushLoad? && !pc'.Pushing?
  {
  }

  lemma PushGoRoomy<T>(s: State<T>, t: nat)
    requires Shape(s) && t < |s.threads| && t < |s.queues| && RoomyPc(s.queues[t], s.threads[t])
    requires s.threads[t].PushLoad? || s.threads[t].PushCas?
    ensures var e := GoEffect(s, t); e.Move? && e.i == t && RoomyPc(e.q, e.pc)
  {
    assert PcInv(s.queues, t, s.threads[t]);
  }

  lemma GoRoomy<T>(s: State<T>, t: nat)
    requires Shape(s) && t < |s.threads| && t < |s.queues| && RoomyPc(s.queues[t], s.threads[t])
    requires s.threads[t].Pushing? ==> 0 < Room(s.queues[t])
    ensures var s' := Apply(s, t, GoEffect(s, t)); |s'.queues| == |s.queues| && RoomyPc(s'.queues[t], s'.threads[t])
  {
    if s.threads[t].PushLoad? || s.threads[t].PushCas? { PushGoRoomy(s, t); } else { NoPushFromGo(s, t); }
  }

  /** Of the other steps only the call of a push gets one under way, and no step of a thread that is
      not idle touches its queue. */
  lemma CallsRoomy<T>(s: State<T>, t: nat, a: Action<T>)
    requires Shape(s) && t < |s.threads| && t < |s.queues| && !a.Go? && SafeEvent(s, Event(t, a))
    ensures var e := ProducerEffect(s, t, a);
            if e.Move? then e.i == t && !e.pc.PushLoad? && !e.pc.Pushing?
            else e.pc == s.threads[t] || RoomyPc(s.queues[t], e.pc)
  {
  }

  lemma StartsRoomy<T>(s: State<T>, t: nat, a: Action<T>)
    requires Shape(s) && t < |s.threads| && t < |s.queues| && !a.Go?
    ensures var e := EffectOf(s, t, a);
            e == ProducerEffect(s, t, a) || (e.Local? && (e.pc.PopHead? || e.pc.StealHead?))
  {
  }

  /** What a thread does to its own queue leaves its push with room. */
  lemma OwnStepRoomy<T>(s: State<T>, t: nat, a: Action<T>)
    requires Shape(s) && t < |s.threads| && t < |s.queues| && RoomyPc(s.queues[t], s.threads[t])
    requires SafeEvent(s, Event(t, a)) && !Overwrites(s, Event(t, a))
    ensures var s' := Apply(s, t, EffectOf(s, t, a)); |s'.queues| == |s.queues| && RoomyPc(s'.queues[t], s'.threads[t])
  {
    if a.Go? {
      GoRoomy(s, t);
    } else {
      StartsRoomy(s, t, a);
      CallsRoomy(s, t, a);
    }
  }

  lemma RoomyStep<T>(s: State<T>, e: Event<T>)
    requires Shape(s) && Roomy(s) && SafeEvent(s, e)
    ensures Shape(Step(s, e)) && Roomy(Step(s, e))
  {
    var t := e.thread;
    if t < |s.threads| {
      assert t < |s.queues| ==> RoomyPc(s.queues[t], s.threads[t]);
      assert !Overwrites(s, e);
      EffectIsOk(s, t, e.action);
      if t < |s.queues| {
        OwnStepRoomy(s, t, e.action);
      }
      forall u: nat | u < |s.threads| && u < |s.queues| ensures RoomyPc(Step(s, e).queues[u], Step(s, e).threads[u]) {
        assert RoomyPc(s.queues[u], s.threads[u]);
      }
    }
  }

  /** Then no run stores over an element, whatever the other threads do. */
  lemma {:induction false} SafeRun<T>(s: State<T>, events: seq<Event<T>>)
    requires Shape(s) && Roomy(s) && SafePushes(s, events)
    ensures Shape(Run(s, events))
    decreases |events|
  {
    if events != [] {
      RoomyStep(s, events[0]);
      SafeRun(Step(s, events[0]), events[1..]);
    }
  }

  predicate NoPushes<T>(events: seq<Event<T>>) {
    forall k: nat {:trigger events[k]} :: k < |events| ==> !events[k].action.Push?
  }

  lemma {:induction false} NoPushIsSafe<T>(s: State<T>, events: seq<Event<T>>)
    requires Good(s) && NoPushes(events)
    ensures SafePushes(s, events)
    decreases |events|
  {
    if events != [] {
      assert forall k: nat :: k < |events[1..]| ==> events[1..][k] == events[k + 1];
      NoPushIsSafe(Step(s, events[0]), events[1..]);
    }
  }

  /** Exactly the unsafe pushes can lose an element: with no other push under way and the head where
      the producer has observed it, a call of either push can be continued to a store over an
      element that nobody took exactly when it is not safe. */
  lemma PushLosesIff<T>(s: State<T>, t: nat, value: T, test: Test)
    requires Shape(s) && Roomy(s) && t < |s.threads| && t < |s.queues| && s.threads[t].Idle?
    requires s.queues[t].head == s.queues[t].seen
    ensures (exists events: seq<Event<T>> ::
               NoPushes(events) && Run(Step(s, Event(t, Push(value, test))), events).lost != multiset{})
       <==> !SafeToPush(MarksOf(s.queues[t]), s.queues[t].cap)
  {
    var q, s' := s.queues[t], Step(s, Event(t, Push(value, test)));
    if SafeToPush(MarksOf(q), q.cap) {
      RoomyStep(s, Event(t, Push(value, test)));
      forall events: seq<Event<T>> | NoPushes(events) ensures Run(s', events).lost == multiset{} {
        NoPushIsSafe(s', events);
        SafeRun(s', events);
      }
    } else {
      var events := UnsafePushLoses(s, t, value, test);
    }
  }

  /** The step that stores over the oldest element. */
  lemma StoreLoses<T>(s: State<T>, t: nat, go: seq<Event<T>>)
    requires Shape(s) && t < |s.threads| && t < |s.queues| && s.threads[t].Pushing? && Room(s.queues[t]) <= 0
    requires go == [Event(t, Go)]
    ensures Run(s, go).lost != multiset{}
  {
    assert s.queues[t].log[s.queues[t].head] in Step(s, go[0]).lost;
    assert go[1..] == [];
    RunStays(Step(s, go[0]), []);
  }

  lemma LoadLoses<T>(s: State<T>, t: nat, go: seq<Event<T>>)
    requires Shape(s) && t < |s.threads| && t < |s.queues| && s.threads[t].PushLoad?
    requires Room(s.queues[t]) <= 0 && s.queues[t].head != s.queues[t].cached
    requires go == [Event(t, Go)]
    ensures Run(s, go + go).lost != multiset{}
  {
    assert PcInv(s.queues, t, s.threads[t]);
    StoreLoses(Step(s, go[0]), t, go);
    RunConcat(s, go, go);
    assert go[1..] == [];
  }

  lemma CallGoes<T>(s: State<T>, t: nat, value: T, test: Test)
    requires Shape(s) && t < |s.threads| && t < |s.queues| && s.threads[t].Idle?
    ensures var s' := Step(s, Event(t, Push(value, test)));
            Shape(s') && s' == s.(threads := s.threads[t := CallPush(s.queues[t], value, test)])
  {
  }

  lemma UnsafePushLoses<T>(s: State<T>, t: nat, value: T, test: Test) returns (events: seq<Event<T>>)
    requires Shape(s) && t < |s.threads| && t < |s.queues| && s.threads[t].Idle?
    requires var q := s.queues[t]; q.head == q.seen && !SafeToPush(MarksOf(q), q.cap)
    ensures NoPushes(events) && Run(Step(s, Event(t, Push(value, test))), events).lost != multiset{}
  {
    events := [Event(t, Go)];
    CallGoes(s, t, value, test);
    assert QueueInv(s.queues[t]);
    var s' := Step(s, Event(t, Push(value, test)));
    if s'.threads[t].Pushing? {
      StoreLoses(s', t, events);
    } else {
      LoadLoses(s', t, events);
      events := events + events;
    }
  }

  // ------------------------------------------------------------------ conservation

  /** No element is lost or duplicated in any run of any number of queues of even capacities,
      producers, stealers and consumers whose pushes are safe when they are called: what was pushed
      is what is in the queues, claimed but not yet handed over, popped, or in the batch receiver. */
  lemma Conservation<T>(memories: seq<seq<T>>, threads: nat, least: nat, events: seq<Event<T>>)
    requires |memories| <= threads
    requires forall i :: 0 <= i < |memories| ==> 0 < |memories[i]|
    ensures (forall i :: 0 <= i < |memories| ==> |memories[i]| % 2 == 0)
            && SafePushes(Init(memories, threads, least), events) ==>
              Conserved(RunFrom(memories, threads, least, events))
  {
    if (forall i :: 0 <= i < |memories| ==> |memories[i]| % 2 == 0)
       && SafePushes(Init(memories, threads, least), events) {
      Accounting(memories, threads, least, events);
      EvenRun(Init(memories, threads, least), events);
      SafeRun(Init(memories, threads, least), events);
      ConservedIff(RunFrom(memories, threads, least, events));
    }
  }

  /** With no call in progress nothing is in flight. */
  lemma QuiescentConservation<T>(memories: seq<seq<T>>, threads: nat, least: nat, events: seq<Event<T>>)
    requires |memories| <= threads
    requires forall i :: 0 <= i < |memories| ==> 0 < |memories[i]|
    requires var s := RunFrom(memories, threads, least, events);
             forall t :: 0 <= t < |s.threads| ==> s.threads[t].Idle?
    ensures var s := RunFrom(memories, threads, least, events);
            && s.pushed + s.twice == Total(QueueBags(s.queues)) + (s.delivered + multiset(s.received)) + s.lost
            && ((forall i :: 0 <= i < |memories| ==> |memories[i]| % 2 == 0) ==> s.twice == multiset{})
            && (SafePushes(Init(memories, threads, least), events) ==> s.lost == multiset{})
  {
    var s := RunFrom(memories, threads, least, events);
    Accounting(memories, threads, least, events);
    TotalOfNothing(HeldBags(s.threads));
    assert Total(QueueBags(s.queues)) + multiset{} == Total(QueueBags(s.queues));
    if forall i :: 0 <= i < |memories| ==> |memories[i]| % 2 == 0 {
      EvenRun(Init(memories, threads, least), events);
    }
    if SafePushes(Init(memories, threads, least), events) { SafeRun(Init(memories, threads, least), events); }
  }

  // ------------------------------------------------------------------ what calls decide

  /** A thread that has taken a value from its caller and not given it away yet. */
  ghost predicate Carries<T>(pc: Pc<T>, value: T) {
    match pc
    case PushLoad(v, _) => v == value
    case PushCas(v) => v == value
    case Pushing(v) => v == value
    case Publishing(v) => v == value
    case Taking(_, _, _, receiver, extra) => receiver && extra == [value]
    case _ => false
  }

  /** No push forgets its value: each step of one keeps it, publishes or hands it over, or refuses it.
      `maybe_push` refuses exactly after a load that meets the cached head, which is then a whole
      capacity behind the tail, and the lock-free push when the receiver is locked. */
  lemma NoPushForgets<T>(s: State<T>, t: nat, a: Action<T>, value: T)
    requires Shape(s) && t < |s.threads| && Carries(s.threads[t], value)
    ensures t < |s.queues|
    ensures var s', pc, q := Step(s, Event(t, a)), s.threads[t], s.queues[t];
            && |s'.threads| == |s.threads|
            && (|| Carries(s'.threads[t], value) || s'.pushed == s.pushed + multiset{value} || s'.lost != multiset{}
                || (pc.PushCas? && a.Refuse?)
                || (pc.PushLoad? && pc.test.AtLeast? && a.Go? && q.head == q.cached && q.head + q.cap == q.tail))
            && (pc.PushLoad? && a.Go? && (pc.test.Equal? || q.head != q.cached) ==> Carries(s'.threads[t], value))
  {
    assert PcInv(s.queues, t, s.threads[t]);
    if a.Go? && !Overwrites(s, Event(t, a)) { PushGoKeeps(s, t, value); }
  }

  lemma PushGoKeeps<T>(s: State<T>, t: nat, value: T)
    requires Shape(s) && t < |s.threads| && t < |s.queues| && Carries(s.threads[t], value)
    requires s.threads[t].Pushing? ==> 0 < Room(s.queues[t])
    ensures var e, pc, q := GoEffect(s, t), s.threads[t], s.queues[t];
            && (Carries(e.pc, value) || (e.Move? && e.pushed == [value])
                || (pc.PushLoad? && pc.test.AtLeast? && q.head == q.cached && q.head + q.cap == q.tail))
            && (pc.PushLoad? && (pc.test.Equal? || q.head != q.cached) ==> Carries(e.pc, value))
  {
    assert PcInv(s.queues, t, s.threads[t]);
  }

  /** After its load of the tail a pop goes for as many values as it has space for or the counters
      promise, exactly if that is something and not more than the capacity; it starts over exactly if it
      is more, and it is over exactly if there is no space to fill or the tail is the head it loaded. */
  lemma PopDecides<T>(s: State<T>, t: nat, i: nat, max: nat, head: nat, tries: nat)
    requires Shape(s) && t < |s.threads| && s.threads[t] == PopTail(i, max, head, tries)
    ensures i < |s.queues|
    ensures var pc, q := Step(s, Event(t, Go)).threads[t], s.queues[i];
            var n := Min(max, q.tail - head);
            && (pc.PopHead? <==> q.cap < n)
            && (pc.Idle? <==> max == 0 || q.tail == head)
            && (pc.PopCopy? <==> 0 < n <= q.cap)
            && (pc.PopCopy? ==> pc == PopCopy(i, max, head, n, [], pc.tries))
  {
    assert PcInv(s.queues, t, s.threads[t]);
  }

  /** After its load of the tail a steal goes for half of what the counters promise exactly if that is
      something, at least the minimum, and not more than half of the capacity; it starts over exactly if
      it is more, and otherwise it is over. */
  lemma StealDecides<T>(s: State<T>, t: nat, i: nat, head: nat, tries: nat)
    requires Shape(s) && t < |s.threads| && s.threads[t] == StealTail(i, head, tries)
    ensures i < |s.queues|
    ensures var pc, q := Step(s, Event(t, Go)).threads[t], s.queues[i];
            var half := (q.tail - head) / 2;
            && (pc.StealHead? <==> q.cap / 2 < half)
            && (pc.Idle? <==> half <= q.cap / 2 && (half == 0 || half < s.least))
            && (pc.StealCopy? <==> half <= q.cap / 2 && 0 < half && s.least <= half)
            && (pc.StealCopy? ==> pc == StealCopy(i, head, half, 0, pc.tries))
  {
    assert PcInv(s.queues, t, s.threads[t]);
  }

  /** A pop or a steal ends only by this decision, by an exchange that wins, or by the publication of
      what it stole. In particular a lost exchange never ends it. */
  lemma EndsOnly<T>(s: State<T>, t: nat)
    requires Shape(s) && t < |s.threads| && Consuming(s.threads[t])
    requires Step(s, Event(t, Go)).threads[t].Idle?
    ensures var pc := s.threads[t];
            || pc.PopTail? || pc.StealTail? || pc.StealStore?
            || (pc.PopCopy? && pc.q < |s.queues| && |pc.copied| == pc.n && s.queues[pc.q].head == pc.head)
  {
    assert PcInv(s.queues, t, s.threads[t]);
  }

  /** Until it ends, a pop stays the pop, and a steal the steal, of the same queue; it works from the
      head as it is at its load, or as a lost exchange met it. */
  lemma CallsGoOn<T>(s: State<T>, t: nat)
    requires Shape(s) && t < |s.threads| && Consuming(s.threads[t]) && !s.threads[t].StealStore?
    ensures var pc, pc' := s.threads[t], Step(s, Event(t, Go)).threads[t];
      && pc.q < |s.queues|
      && (pc.PopHead? ==> pc' == PopTail(pc.q, pc.max, s.queues[pc.q].head, pc.tries))
      && (pc.StealHead? ==> pc' == StealTail(pc.q, s.queues[pc.q].head, pc.tries))
      && (pc.PopTail? && pc'.PopHead? ==> pc'.q == pc.q && pc'.max == pc.max)
      && (pc.StealTail? && pc'.StealHead? ==> pc'.q == pc.q)
      && (pc.PopCopy? && |pc.copied| == pc.n && s.queues[pc.q].head != pc.head ==>
            pc' == PopTail(pc.q, pc.max, s.queues[pc.q].head, pc.tries + 1) && pc.head < pc'.head)
      && (pc.StealCopy? && pc.k == pc.n && s.queues[pc.q].head != pc.head ==>
            pc' == StealTail(pc.q, s.queues[pc.q].head, pc.tries + 1) && pc.head < pc'.head)
  {
    assert PcInv(s.queues, t, s.threads[t]);
  }

  /** An unfinished copy goes on with one value more and nothing else changed. */
  lemma CopyGoesOn<T>(s: State<T>, t: nat)
    requires Shape(s) && t < |s.threads|
    requires var pc := s.threads[t]; (pc.PopCopy? && |pc.copied| < pc.n) || (pc.StealCopy? && pc.k < pc.n)
    ensures var pc, pc' := s.threads[t], Step(s, Event(t, Go)).threads[t];
            && (pc.PopCopy? ==>
                  pc'.PopCopy? && pc' == pc.(copied := pc'.copied)
                  && |pc'.copied| == |pc.copied| + 1 && pc'.copied[..|pc.copied|] == pc.copied)
            && (pc.StealCopy? ==> pc' == pc.(k := pc.k + 1))
  {
    assert PcInv(s.queues, t, s.threads[t]);
  }

  /** A bulk store puts one value more behind those stored before it while there is room. */
  lemma StoresOneMore<T>(s: State<T>, t: nat, vals: seq<T>, value: T)
    requires Shape(s) && t < |s.queues| && t < |s.threads|
    requires s.threads[t] == Filling(vals) || (s.threads[t].Idle? && vals == [])
    ensures |vals| < Room(s.queues[t]) ==> Step(s, Event(t, Write(value))).threads[t] == Filling(vals + [value])
  {
    assert PcInv(s.queues, t, s.threads[t]);
  }

  /** Its publication appends all of them, and all count as pushed. */
  lemma PublicationAppends<T>(s: State<T>, t: nat, vals: seq<T>)
    requires Shape(s) && t < |s.threads| && s.threads[t] == Filling(vals)
    ensures t < |s.queues|
    ensures var s' := Step(s, Event(t, Commit));
            && |s'.queues| == |s.queues| && |s'.threads| == |s.threads| && s'.threads[t].Idle?
            && s'.pushed == s.pushed + multiset(vals)
            && s'.queues[t].log == s.queues[t].log + vals && s'.queues[t].head == s.queues[t].head
  {
    assert PcInv(s.queues, t, s.threads[t]);
  }

  /** The exchange of a bulk overflow from head `start` wins exactly when the head is still there, as far
      as the whole batch is published: it moves the head by half of the capacity, and the producer
      holds the batch and the slice for the receiver. */
  lemma OverflowTakes<T>(s: State<T>, t: nat, start: nat, extra: seq<T>)
    requires Shape(s) && t < |s.queues| && t < |s.threads| && s.threads[t].Idle?
    requires Overflows(s.queues[t], start, extra)
    ensures var q, s' := s.queues[t], Step(s, Event(t, TryOverflow(start, extra)));
            && |s'.queues| == |s.queues|
            && if q.head == start then
                 && start + BatchSize(start, q.cap) <= |q.log|
                 && s'.queues[t] == q.(head := start + q.cap / 2)
                 && s'.threads[t] == Taking(start, q.log[start..start + BatchSize(start, q.cap)], [], true, extra)
               else s'.queues[t] == q && s'.threads[t].Idle?
  {
    assert QueueInv(s.queues[t]);
  }

  /** The exchange of a bulk pop of the producer. */
  lemma ProducerTakes<T>(s: State<T>, t: nat, start: nat, n: nat)
    requires Shape(s) && t < |s.queues| && t < |s.threads| && s.threads[t].Idle? && start + n <= s.queues[t].tail
    ensures var q, s' := s.queues[t], Step(s, Event(t, TryClaim(start, n)));
            && |s'.queues| == |s.queues|
            && if q.head == start then
                 && start + n <= |q.log| && s'.queues[t] == q.(head := start + n)
                 && s'.threads[t] == Taking(start, q.log[start..start + n], [], false, [])
               else s'.queues[t] == q && s'.threads[t].Idle?
  {
    assert QueueInv(s.queues[t]);
  }

  /** A producer that took values copies them one at a time out of their slots. */
  lemma ProducerCopies<T>(s: State<T>, t: nat, start: nat, vals: seq<T>, got: seq<T>, receiver: bool, extra: seq<T>)
    requires Shape(s) && t < |s.threads| && s.threads[t] == Taking(start, vals, got, receiver, extra)
    requires |got| < |vals|
    ensures var s' := Step(s, Event(t, Go));
            s' == s.(threads := s.threads[t := Taking(start, vals, got + [vals[|got|]], receiver, extra)])
  {
    assert PcInv(s.queues, t, s.threads[t]);
    assert GoEffect(s, t) == Local(TakeOne(s.queues[t], start, vals, got, receiver, extra));
  }

  /** Then it hands over exactly these: to its caller, or, in the order of the slices and before the
      values that overflowed, to the receiver. */
  lemma ProducerHandsOver<T>(s: State<T>, t: nat, start: nat, vals: seq<T>, got: seq<T>, receiver: bool, extra: seq<T>)
    requires Shape(s) && t < |s.threads| && s.threads[t] == Taking(start, vals, got, receiver, extra)
    requires |got| == |vals|
    ensures t < |s.queues| && 0 < s.queues[t].cap
    ensures var s' := Step(s, Event(t, Go));
            && |s'.threads| == |s.threads| && s'.threads[t].Idle?
            && s'.delivered == s.delivered + multiset(if receiver then [] else vals)
            && s'.received == s.received + (if receiver then PieceOrder(vals, start, s.queues[t].cap) + extra else [])
  {
    assert PcInv(s.queues, t, s.threads[t]);
    assert got == vals;
    assert GoEffect(s, t) == HandOver(s.queues[t], t, start, got, receiver, extra);
  }

  // ------------------------------------------------------------------ what exchanges mean

  /** The compare-and-exchange of `consumer_pop_many`, in any reachable state: it succeeds exactly
      when head has not moved since it was loaded; then the caller gets exactly the values
      published at `head..head + n`; otherwise nothing but the thread changed. */
  lemma PopCasMeans<T>(s: State<T>, t: nat, i: nat, max: nat, head: nat, n: nat, copied: seq<T>, tries: nat)
    requires Shape(s) && t < |s.threads| && s.threads[t] == PopCopy(i, max, head, n, copied, tries) && |copied| == n
    ensures i < |s.queues| && head + n <= |s.queues[i].log|
    ensures var s' := Step(s, Event(t, Go));
            if s.queues[i].head == head then
              && s'.queues == s.queues[i := Claim(s.queues[i], n)]
              && n <= max && head + n <= s.queues[i].tail
              && s'.delivered == s.delivered + multiset(s.queues[i].log[head..head + n])
              && copied == s.queues[i].log[head..head + n]
            else s'.queues == s.queues && s'.delivered == s.delivered
  {
    assert PcInv(s.queues, t, s.threads[t]);
    assert EffectOf(s, t, Go) == PopCas(s.queues[i], i, max, head, n, copied, tries);
    assert s.delivered + multiset([]) == s.delivered;
    if s.queues[i].head == head { CopiedIsLog(s.queues[i], max, head, n, copied, tries); }
  }

  /** While thread `t` takes no step, the others leave its place and its queue alone, except
      that the head of the queue may move on. */
  lemma {:induction false} OthersRely<T>(s: State<T>, t: nat, events: seq<Event<T>>)
    requires Shape(s) && t < |s.queues|
    requires forall k :: 0 <= k < |events| ==> events[k].thread != t
    ensures var s' := Run(s, events);
            && |s'.queues| == |s.queues| && |s'.threads| == |s.threads|
            && s'.threads[t] == s.threads[t] && ConsumerRely(s.queues[t], s'.queues[t])
    decreases |events|
  {
    if events != [] {
      var s' := Step(s, events[0]);
      OthersStep(s, t, events[0]);
      if s'.lost == multiset{} { OthersRely(s', t, events[1..]); } else { RunStays(s', events[1..]); }
    }
  }

  lemma OthersStep<T>(s: State<T>, t: nat, e: Event<T>)
    requires Shape(s) && t < |s.queues| && e.thread != t
    ensures var s' := Step(s, e);
            && |s'.queues| == |s.queues| && |s'.threads| == |s.threads|
            && s'.threads[t] == s.threads[t] && ConsumerRely(s.queues[t], s'.queues[t])
  {
    if e.thread < |s.threads| { EffectIsOk(s, e.thread, e.action); }
  }

  /** A steal that wins its compare-and-exchange: the source gives up its `n` oldest values and,
      whatever the other threads do before the tail store, the destination then ends with
      exactly these values, in the order of the pieces. */
  lemma StealMovesLoot<T>(s: State<T>, t: nat, i: nat, head: nat, n: nat, tries: nat, won: State<T>,
                          others: seq<Event<T>>, later: State<T>)
    requires Shape(s) && t < |s.threads| && s.threads[t] == StealCopy(i, head, n, n, tries)
    requires i < |s.queues| && s.queues[i].head == head && won == Step(s, Event(t, Go))
    requires forall k :: 0 <= k < |others| ==> others[k].thread != t
    requires later == Run(won, others) && Shape(later)
    ensures t < |s.queues| && 0 < s.queues[i].cap && head + n <= |s.queues[i].log|
    ensures won.queues == s.queues[i := Claim(s.queues[i], n)]
    ensures var done := Step(later, Event(t, Go));
            && |done.queues| == |s.queues| && done.threads[t].Idle?
            && done.queues[t].log == s.queues[t].log + Loot(s.queues[i], head, n)
            && done.queues[t].tail == s.queues[t].tail + n
  {
    assert PcInv(s.queues, t, s.threads[t]);
    assert EffectOf(s, t, Go) == StealCas(s.queues[i], i, head, n, tries);
    OthersRely(won, t, others);
    StealPublishIsOk(later, t, Loot(s.queues[i], head, n));
  }

  /** A steal that loses it, and every step of the copy before, leaves all that is published in
      every queue as it was. */
  lemma LostStealChangesNothing<T>(s: State<T>, t: nat, i: nat, head: nat, n: nat, k: nat, tries: nat)
    requires Shape(s) && t < |s.threads| && s.threads[t] == StealCopy(i, head, n, k, tries)
    ensures i < |s.queues| && t < |s.queues|
    ensures var s' := Step(s, Event(t, Go));
            k < n || s.queues[i].head != head ==>
              && |s'.queues| == |s.queues|
              && forall j :: 0 <= j < |s.queues| ==>
                   var q, q' := s.queues[j], s'.queues[j];
                   && q'.head == q.head && q'.tail == q.tail && q'.log == q.log
                   && ReadRange(q'.buf, q.head, q.tail - q.head) == ReadRange(q.buf, q.head, q.tail - q.head)
  {
    assert PcInv(s.queues, t, s.threads[t]);
    var s' := Step(s, Event(t, Go));
    if k < n {
      var q, q' := s.queues[t], s'.queues[t];
      StoreBehindTail(q, k, s.queues[i].buf[Slot(head + PieceOffset(k, n, head, s.queues[i].cap), s.queues[i].cap)]);
      assert ReadRange(q'.buf, q.head, q.tail - q.head) == ReadRange(q.buf, q.head, q.tail - q.head);
    }
  }

  // ------------------------------------------------------------------ lock-freedom

  function Tries<T>(pc: Pc<T>): nat {
    match pc
    case PopHead(_, _, tries) => tries
    case PopTail(_, _, _, tries) => tries
    case PopCopy(_, _, _, _, _, tries) => tries
    case StealHead(_, tries) => tries
    case StealTail(_, _, tries) => tries
    case StealCopy(_, _, _, _, tries) => tries
    case _ => 0
  }

  function Source<T>(pc: Pc<T>): nat
    requires pc.PopHead? || pc.PopTail? || pc.PopCopy? || pc.StealHead? || pc.StealTail? || pc.StealCopy?
  {
    match pc
    case PopHead(i, _, _) => i
    case PopTail(i, _, _, _) => i
    case PopCopy(i, _, _, _, _, _) => i
    case StealHead(i, _) => i
    case StealTail(i, _, _) => i
    case StealCopy(i, _, _, _, _) => i
  }

  /** Each retry of a pop or a steal is paid for by another thread: in every state that a run
      reaches, a call has started over at most as often as elements were published in its source.
      So with finitely many pushes every call comes to an end. */
  lemma RetriesBounded<T>(s: State<T>, t: nat)
    requires Shape(s) && t < |s.threads|
    ensures var pc := s.threads[t];
            pc.PopHead? || pc.PopTail? || pc.PopCopy? || pc.StealHead? || pc.StealTail? || pc.StealCopy? ==>
              && Source(pc) < |s.queues|
              && Tries(pc) <= s.queues[Source(pc)].head <= |s.queues[Source(pc)].log|
  {
    assert PcInv(s.queues, t, s.threads[t]);
    assert forall i: nat :: i < |s.queues| ==> QueueInv(s.queues[i]);
  }

  /** Every retry starts over from a strictly larger head. */
  lemma RetryAdvances<T>(s: State<T>, t: nat)
    requires Shape(s) && t < |s.threads|
    ensures var pc, pc' := s.threads[t], Step(s, Event(t, Go)).threads[t];
      && (pc.PopCopy? && pc'.PopTail? ==> pc.head < pc'.head)
      && (pc.PopTail? && pc'.PopHead? ==> pc.q < |s.queues| && pc.head < s.queues[pc.q].head)
      && (pc.StealCopy? && pc'.StealTail? ==> pc.head < pc'.head)
      && (pc.StealTail? && pc'.StealHead? ==> pc.q < |s.queues| && pc.head < s.queues[pc.q].head)
  {
    assert PcInv(s.queues, t, s.threads[t]);
  }
}
