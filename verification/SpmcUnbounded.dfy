/**
 The unbounded single-producer multi-consumer queue (src/spmc/unbounded.rs), for any number of
 consumers.

 The producer replaces a full buffer by a larger version: it copies the values that may still
 be unread, stores the version in the version cell, stores new values into it and then
 publishes the version id together with the tail in one word. A consumer works on the version
 it cached last, which can be older or newer than the published one, and copies optimistically
 before its compare-and-exchange on the head; every element copied is a step. A thief has the
 stolen values in hand until the queue that it steals into publishes them.

 As in SpmcNetwork the single-value push is that of the code, with a store that nothing guards, and
 the rest of the producer is as free as its protocol allows: it grows from any head that leaves the
 right tail, and stores behind the tail while there is room. UnboundedProducer has its code. The
 cell answers a read with the whole newest version or not at all (VersionCell). A run is followed up
 to the first store of a push over an element that nobody took (`lost`).
 Versions are never freed, ids and counters do not wrap.
 */
module SpmcUnbounded {
  import opened Ring
  import opened Bags
  import opened PushTest

  /** A buffer version; its id is its place in the sequence of versions. `end` is the tail when the
      next version was made, and for the newest version the published tail. */
  datatype Version<T> = Version(cap: nat, buf: seq<T>, end: nat)

  /** `published` and `tail` are the two halves of the shared word; the version cell holds the last
      of `versions`. `cached` is the producer's copy of the head, `seen` the largest head that it has
      observed. */
  datatype Shared<T> = Shared(head: nat, tail: nat, published: nat, cached: nat, seen: nat,
                              versions: seq<Version<T>>, log: seq<T>)

  datatype Producer<T> =
    | Idle
    | PushLoad(value: T, test: Test)
    | Pushing(value: T)
    | Filling(vals: seq<T>)
    | Growing(from: nat, upto: nat, buf: seq<T>)
    | Taking(start: nat, vals: seq<T>, got: seq<T>)

  /** `consumer_lock_free_pop_many` with a limit, or `steal_into` a queue of some capacity. */
  datatype Op = Pop(max: nat) | Steal(room: nat)

  datatype Pc<T> =
    | Rest
    | LoadHead(op: Op, tries: nat)
    | LoadWord(op: Op, head: nat, tries: nat)
    | Update(op: Op, head: nat, id: nat, tail: nat, tries: nat)
    | Copy(op: Op, head: nat, tail: nat, n: nat, copied: seq<T>, tries: nat)
    | Handing(vals: seq<T>, tries: nat)

  /** A consumer and the id of the version it has cached. */
  datatype Consumer<T> = Consumer(version: nat, pc: Pc<T>)

  datatype State<T> = State(q: Shared<T>, producer: Producer<T>, consumers: seq<Consumer<T>>, least: nat,
                            delivered: multiset<T>, lost: multiset<T>)

  datatype Action<T> =
    | SeeHead(head: nat, cache: bool)
    | Push(value: T, test: Test)
    | Write(value: T)
    | Publish
    | Abandon
    | StartGrow(from: nat, memory: seq<T>)
    | TryClaim(start: nat, n: nat)
    | Go

  /** A producer action, a new consumer with some version, or a step of a consumer: the start of a
      call, or its next step, in which the version cell may happen to be locked. */
  datatype Event<T> =
    | Produce(action: Action<T>)
    | Join(version: nat)
    | Start(consumer: nat, op: Op)
    | Consume(consumer: nat, locked: bool)

  // ------------------------------------------------------------------ the shared state

  function Newest<T>(q: Shared<T>): Version<T>
    requires 0 < |q.versions|
  {
    q.versions[|q.versions| - 1]
  }

  function SetNewest<T>(q: Shared<T>, v: Version<T>): Shared<T>
    requires 0 < |q.versions|
  {
    q.(versions := q.versions[|q.versions| - 1 := v])
  }

  /** Every position of the version that can still be claimed holds its value. */
  ghost predicate VersionInv<T>(v: Version<T>, head: nat, log: seq<T>) {
    && 0 < v.cap == |v.buf| && v.end <= |log| && v.end <= head + v.cap
    && (forall p: nat {:trigger Slot(p, v.cap)} :: head <= p < v.end ==> v.buf[Slot(p, v.cap)] == log[p])
  }

  ghost predicate SharedInv<T>(q: Shared<T>) {
    && 0 < |q.versions| && q.published <= |q.versions| - 1 <= q.published + 1
    && q.cached <= q.seen <= q.head <= q.tail == |q.log|
    && q.tail <= q.head + Newest(q).cap
    && (forall i: nat {:trigger q.versions[i]} :: i < |q.versions| ==> VersionInv(q.versions[i], q.head, q.log))
    && (forall i: nat {:trigger q.versions[i]} :: q.published <= i < |q.versions| ==> q.versions[i].end == q.tail)
    && (forall i: nat, j: nat {:trigger q.versions[i], q.versions[j]} :: i < j < |q.versions| ==>
          q.versions[i].end <= q.versions[j].end && q.versions[i].cap < q.versions[j].cap)
  }

  function Claim<T>(q: Shared<T>, n: nat): Shared<T> {
    q.(head := q.head + n)
  }

  /** What consumers do to the shared state. */
  ghost predicate ConsumerRely<T>(q: Shared<T>, q': Shared<T>) {
    q' == q.(head := q'.head) && q.head <= q'.head <= q.tail
  }

  /** What a consumer can count on, whoever moves: counters, ids and versions only grow. */
  ghost predicate AnyRely<T>(q: Shared<T>, q': Shared<T>) {
    && q.head <= q'.head && q.tail <= q'.tail && q.published <= q'.published
    && |q.log| <= |q'.log| && (forall p :: 0 <= p < |q.log| ==> q'.log[p] == q.log[p])
    && |q.versions| <= |q'.versions|
    && (forall i: nat {:trigger q'.versions[i]} :: i < |q.versions| ==>
          q'.versions[i].cap == q.versions[i].cap && q.versions[i].end <= q'.versions[i].end)
  }

  // ------------------------------------------------------------------ a consumer

  /** With a version at least as new as the published one: how much to copy, or why not. */
  function Decide<T>(op: Op, head: nat, tail: nat, cap: nat, least: nat, tries: nat): Pc<T> {
    match op
    case Pop(max) =>
      var n := Min(max, tail - head);
      if n <= 0 then Rest else if n > cap then LoadHead(op, tries + 1) else Copy(op, head, tail, n, [], tries)
    case Steal(room) =>
      var half := (tail - head) / 2;
      if half > cap / 2 then LoadHead(op, tries + 1)
      else if half < least || half <= 0 then Rest
      else Copy(op, head, tail, Min(half, room), [], tries)
  }

  /** Load of the word that holds the published id and the tail. */
  function AfterLoadWord<T>(q: Shared<T>, version: nat, op: Op, head: nat, least: nat, tries: nat): Pc<T>
    requires version < |q.versions|
  {
    if version < q.published then Update(op, head, q.published, q.tail, tries)
    else Decide(op, head, q.tail, q.versions[version].cap, least, tries)
  }

  function CopyOne<T>(v: Version<T>, op: Op, head: nat, tail: nat, n: nat, copied: seq<T>, tries: nat): Pc<T>
    requires 0 < v.cap == |v.buf| && |copied| < n
  {
    var value := v.buf[Slot(head + CopyOffset(op.Steal?, |copied|, n, head, v.cap), v.cap)];
    Copy(op, head, tail, n, copied + [value], tries)
  }

  /** How many values a call takes of those that the loaded head and tail promise: a pop what it has
      space for, a steal half of them, at most what fits. */
  predicate Amount(op: Op, head: nat, tail: nat, n: nat) {
    && head <= tail
    && match op
       case Pop(max) => 0 < n == Min(max, tail - head)
       case Steal(room) => 2 <= tail - head && n == Min((tail - head) / 2, room)
  }

  /** While head stays where it was loaded, the copied values are the published ones. */
  ghost predicate Copied<T>(q: Shared<T>, version: nat, op: Op, head: nat, tail: nat, n: nat, copied: seq<T>)
    requires version < |q.versions|
  {
    var v := q.versions[version];
    && 0 < v.cap && |copied| <= n <= v.cap && head + n <= v.end && v.end <= |q.log|
    && Amount(op, head, tail, n) && tail <= |q.log|
    && (q.head == head ==> forall j: nat {:trigger copied[j]} :: j < |copied| ==>
          copied[j] == q.log[head + CopyOffset(op.Steal?, j, n, head, v.cap)])
  }

  ghost predicate ConsumerInv<T>(q: Shared<T>, c: Consumer<T>) {
    && c.version < |q.versions|
    && match c.pc
       case Rest => true
       case LoadHead(_, tries) => tries <= q.head
       case LoadWord(_, head, tries) => tries <= head <= q.head
       case Update(_, head, id, tail, tries) =>
         && tries <= head <= q.head && c.version < id <= q.published && id < |q.versions|
         && tail <= q.versions[id].end
       case Copy(op, head, tail, n, copied, tries) =>
         tries <= head <= q.head && Copied(q, c.version, op, head, tail, n, copied)
       case Handing(_, tries) => tries <= q.head
  }

  /** The next step of a consumer: its new place, and how many values it claimed. */
  function ConsumerStep<T>(q: Shared<T>, c: Consumer<T>, least: nat, locked: bool): (Consumer<T>, nat)
    requires SharedInv(q) && ConsumerInv(q, c)
  {
    match c.pc
    case Rest => (c, 0)
    case LoadHead(op, tries) => (c.(pc := LoadWord(op, q.head, tries)), 0)
    case LoadWord(op, head, tries) => (c.(pc := AfterLoadWord(q, c.version, op, head, least, tries)), 0)
    case Update(op, head, _, _, tries) =>
      if locked then (c.(pc := Rest), 0) else (Consumer(|q.versions| - 1, LoadWord(op, head, tries)), 0)
    case Copy(op, head, tail, n, copied, tries) =>
      if |copied| < n then (c.(pc := CopyOne(q.versions[c.version], op, head, tail, n, copied, tries)), 0)
      else if q.head == head then (c.(pc := AfterWin(op, copied, tries)), n)
      else (c.(pc := LoadWord(op, q.head, tries + 1)), 0)
    case Handing(_, _) => (c.(pc := Rest), 0)
  }

  /** A pop is done; a thief has to publish what it stole. */
  function AfterWin<T>(op: Op, copied: seq<T>, tries: nat): Pc<T> {
    if op.Pop? then Rest else Handing(copied, tries)
  }

  /** Values that the next step claims: the copied ones, when the compare-and-exchange succeeds. */
  function ClaimedBy<T>(q: Shared<T>, c: Consumer<T>): seq<T> {
    if c.pc.Copy? && |c.pc.copied| == c.pc.n && q.head == c.pc.head then c.pc.copied else []
  }

  /** Values that the next step delivers: those that a pop claims, or those that a thief publishes. */
  function DeliveredBy<T>(q: Shared<T>, c: Consumer<T>): seq<T> {
    if c.pc.Handing? then c.pc.vals else if c.pc.Copy? && c.pc.op.Pop? then ClaimedBy(q, c) else []
  }

  function InHand<T>(c: Consumer<T>): multiset<T> {
    if c.pc.Handing? then multiset(c.pc.vals) else multiset{}
  }

  function Hands<T>(consumers: seq<Consumer<T>>): seq<multiset<T>> {
    seq(|consumers|, c requires 0 <= c < |consumers| => InHand(consumers[c]))
  }

  lemma ConsumerStepOk<T>(q: Shared<T>, c: Consumer<T>, least: nat, locked: bool)
    requires SharedInv(q) && ConsumerInv(q, c)
    ensures var (c', n) := ConsumerStep(q, c, least, locked);
            && q.head + n <= q.tail && ConsumerInv(Claim(q, n), c')
  {
    match c.pc
    case LoadWord(op, head, tries) => LoadWordOk(q, c, op, head, least, tries);
    case Copy(op, head, tail, n, copied, tries) => CopyOk(q, c, op, head, tail, n, copied, tries);
    case _ =>
  }

  lemma LoadWordOk<T>(q: Shared<T>, c: Consumer<T>, op: Op, head: nat, least: nat, tries: nat)
    requires SharedInv(q) && ConsumerInv(q, c) && c.pc == LoadWord(op, head, tries)
    ensures ConsumerInv(q, c.(pc := AfterLoadWord(q, c.version, op, head, least, tries)))
  {
    assert VersionInv(q.versions[c.version], q.head, q.log);
    assert q.versions[q.published].end == q.tail;
  }

  lemma CopyOk<T>(q: Shared<T>, c: Consumer<T>, op: Op, head: nat, tail: nat, n: nat, copied: seq<T>, tries: nat)
    requires SharedInv(q) && ConsumerInv(q, c) && c.pc == Copy(op, head, tail, n, copied, tries)
    ensures |copied| < n ==> ConsumerInv(q, c.(pc := CopyOne(q.versions[c.version], op, head, tail, n, copied, tries)))
    ensures |copied| == n && q.head == head ==> head + n <= q.tail
  {
    assert VersionInv(q.versions[c.version], q.head, q.log);
  }

  lemma ConsumerInvSurvives<T>(q: Shared<T>, q': Shared<T>, c: Consumer<T>)
    requires ConsumerInv(q, c) && AnyRely(q, q')
    requires forall i: nat {:trigger q'.versions[i]} :: i < |q'.versions| ==> q'.versions[i].end <= |q'.log|
    ensures ConsumerInv(q', c)
  {
  }

  lemma ClaimKeepsSharedInv<T>(q: Shared<T>, n: nat)
    requires SharedInv(q) && q.head + n <= q.tail
    ensures SharedInv(Claim(q, n)) && ConsumerRely(q, Claim(q, n)) && AnyRely(q, Claim(q, n))
  {
    var q' := Claim(q, n);
    forall i: nat | i < |q'.versions| ensures VersionInv(q'.versions[i], q'.head, q'.log) {
      assert VersionInv(q.versions[i], q.head, q.log);
    }
  }

  // ------------------------------------------------------------------ the producer

  /** What a producer step leaves behind: the shared state, the producer, and values for its caller. */
  datatype Outcome<T> = Outcome(q: Shared<T>, producer: Producer<T>, out: seq<T>)

  function NewestId<T>(q: Shared<T>): int {
    |q.versions| - 1
  }

  ghost predicate ProducerInv<T>(q: Shared<T>, p: Producer<T>)
    requires 0 < |q.versions|
  {
    var v := Newest(q);
    && 0 < v.cap == |v.buf|
    && (p.Filling? || q.published == NewestId(q))
    && match p
       case Idle => true
       case PushLoad(_, test) => Fires(test, MarksOf(q), v.cap)
       case Pushing(_) => true
       case Filling(vals) => q.tail + |vals| <= q.head + v.cap && StoredAt(v.buf, v.cap, q.tail, vals)
       case Growing(from, upto, buf) => Grown(q, v, from, upto, buf)
       case Taking(start, vals, got) =>
         && start + |vals| <= q.head && StoredAt(v.buf, v.cap, start, vals)
         && |got| <= |vals| && got == vals[..|got|]
  }

  /** A buffer under construction has every unread value copied so far in its new place. */
  ghost predicate Grown<T>(q: Shared<T>, v: Version<T>, from: nat, upto: nat, buf: seq<T>) {
    && from <= q.seen && from <= upto <= q.tail && upto <= |q.log|
    && v.cap < |buf| && q.tail <= from + v.cap
    && forall p: nat {:trigger Slot(p, |buf|)} :: q.head <= p < upto ==> buf[Slot(p, |buf|)] == q.log[p]
  }

  function Observe<T>(q: Shared<T>, h: nat): Shared<T> {
    q.(seen := h)
  }

  function Cache<T>(q: Shared<T>, h: nat): Shared<T> {
    q.(seen := h, cached := h)
  }

  function MarksOf<T>(q: Shared<T>): Marks {
    Marks(q.cached, q.seen, q.tail)
  }

  function StoreIn<T>(v: Version<T>, p: nat, value: T): Version<T>
    requires 0 < v.cap == |v.buf|
  {
    v.(buf := v.buf[Slot(p, v.cap) := value])
  }

  /** One more value stored behind the tail, in the newest version. */
  function Fill<T>(q: Shared<T>, vals: seq<T>, value: T): Shared<T>
    requires 0 < |q.versions| && 0 < Newest(q).cap == |Newest(q).buf|
  {
    SetNewest(q, StoreIn(Newest(q), q.tail + |vals|, value))
  }

  /** The store of the shared word. */
  function PublishAll<T>(q: Shared<T>, vals: seq<T>): Shared<T>
    requires 0 < |q.versions|
  {
    var v := Newest(q);
    var tail := q.tail + |vals|;
    SetNewest(q, v.(end := tail)).(tail := tail, log := q.log + vals, published := |q.versions| - 1)
  }

  /** One value copied from the old buffer to its place in the new one. */
  function CopyUp<T>(v: Version<T>, upto: nat, buf: seq<T>): seq<T>
    requires 0 < v.cap == |v.buf| && 0 < |buf|
  {
    buf[Slot(upto, |buf|) := v.buf[Slot(upto, v.cap)]]
  }

  /** The store into the version cell. */
  function Install<T>(q: Shared<T>, buf: seq<T>): Shared<T> {
    q.(versions := q.versions + [Version(|buf|, buf, q.tail)])
  }

  function ProducerStep<T>(q: Shared<T>, p: Producer<T>, a: Action<T>): Outcome<T>
    requires SharedInv(q) && ProducerInv(q, p)
  {
    match a
    case Go => ProducerGo(q, p)
    case Write(value) => if p.Pushing? then Outcome(q, p, []) else WriteStep(q, p, value)
    case Publish => if p.Filling? then Outcome(PublishAll(q, p.vals), Idle, []) else Outcome(q, p, [])
    case Abandon => Outcome(q, if p.Filling? && q.published == NewestId(q) then Idle else p, [])
    case _ => if p.Idle? then IdleStep(q, a) else Outcome(q, p, [])
  }

  /** One value stored behind the tail, if there is room. A push that finds none stores over the
      oldest element (`LostBy`); here it waits. */
  function WriteStep<T>(q: Shared<T>, p: Producer<T>, value: T): Outcome<T>
    requires SharedInv(q) && ProducerInv(q, p)
  {
    var vals := if p.Filling? then p.vals else [];
    if (p.Idle? || p.Filling? || p.Pushing?) && q.tail + |vals| < q.head + Newest(q).cap then
      Outcome(Fill(q, vals, value), Filling(vals + [value]), [])
    else Outcome(q, p, [])
  }

  function IdleStep<T>(q: Shared<T>, a: Action<T>): Outcome<T>
    requires SharedInv(q) && ProducerInv(q, Idle)
  {
    match a
    case SeeHead(head, cache) =>
      if q.seen <= head <= q.head then Outcome(if cache then Cache(q, head) else Observe(q, head), Idle, [])
      else Outcome(q, Idle, [])
    case Push(value, test) =>
      Outcome(q, if Fires(test, MarksOf(q), Newest(q).cap) then PushLoad(value, test) else Pushing(value), [])
    case StartGrow(from, memory) => Outcome(q, GrowFrom(q, from, memory), [])
    case TryClaim(start, n) => TakeFrom(q, start, n)
    case _ => Outcome(q, Idle, [])
  }

  function GrowFrom<T>(q: Shared<T>, from: nat, memory: seq<T>): Producer<T>
    requires 0 < |q.versions|
  {
    if from <= q.seen && q.tail <= from + Newest(q).cap && Newest(q).cap < |memory| then Growing(from, from, memory)
    else Idle
  }

  function TakeFrom<T>(q: Shared<T>, start: nat, n: nat): Outcome<T>
    requires q.tail <= |q.log|
  {
    if q.head == start && start + n <= q.tail then
      Outcome(Claim(q, n), Taking(start, q.log[start..start + n], []), [])
    else Outcome(q, Idle, [])
  }

  function ProducerGo<T>(q: Shared<T>, p: Producer<T>): Outcome<T>
    requires SharedInv(q) && ProducerInv(q, p)
  {
    var v := Newest(q);
    match p
    case PushLoad(value, _) => Outcome(Cache(q, q.head), if q.head != q.cached then Pushing(value) else Idle, [])
    case Pushing(value) => WriteStep(q, p, value)
    case Growing(from, upto, buf) =>
      if upto < q.tail then Outcome(q, Growing(from, upto + 1, CopyUp(v, upto, buf)), [])
      else Outcome(Install(q, buf), Filling([]), [])
    case Taking(start, vals, got) =>
      if |got| < |vals| then Outcome(q, Taking(start, vals, got + [v.buf[Slot(start + |got|, v.cap)]]), [])
      else Outcome(q, Idle, got)
    case _ => Outcome(q, p, [])
  }

  /** The store of a push with no slot free puts its value over the oldest element, which nobody took.
      From there on the machine, in which the push waits, says nothing about the code. */
  function LostBy<T>(q: Shared<T>, p: Producer<T>, a: Action<T>): multiset<T>
    requires SharedInv(q)
  {
    assert VersionInv(Newest(q), q.head, q.log);
    if p.Pushing? && a.Go? && q.tail == q.head + Newest(q).cap then multiset{q.log[q.head]} else multiset{}
  }

  /** Values that the producer has claimed and not handed to its caller yet. */
  function Held<T>(p: Producer<T>): multiset<T> {
    if p.Taking? then multiset(p.vals) else multiset{}
  }

  ghost predicate OutcomeOk<T>(q: Shared<T>, p: Producer<T>, o: Outcome<T>)
  {
    && SharedInv(o.q) && ProducerInv(o.q, o.producer) && AnyRely(q, o.q)
    && q.head <= o.q.head <= |q.log|
    && Held(p) + multiset(q.log[q.head..o.q.head]) == Held(o.producer) + multiset(o.out)
  }

  lemma ProducerInvSurvives<T>(q: Shared<T>, q': Shared<T>, p: Producer<T>)
    requires 0 < |q.versions| && ProducerInv(q, p) && ConsumerRely(q, q')
    ensures ProducerInv(q', p)
  {
  }

  /** A store behind the tail with room over the head that was seen changes no live slot of the
      newest version, and no slot stored behind the tail before it. */
  lemma FillKeeps<T>(q: Shared<T>, vals: seq<T>, value: T)
    requires SharedInv(q) && q.tail + |vals| < q.head + Newest(q).cap
    ensures var v, v' := Newest(q), Newest(Fill(q, vals, value));
            v' == v.(buf := v'.buf) && |v'.buf| == v.cap
            && forall p: nat {:trigger Slot(p, v.cap)} :: q.head <= p < q.tail + |vals| ==>
                 v'.buf[Slot(p, v.cap)] == v.buf[Slot(p, v.cap)]
  {
    var v := Newest(q);
    assert VersionInv(v, q.head, q.log);
    forall p: nat | q.head <= p < q.tail + |vals| ensures Slot(p, v.cap) != Slot(q.tail + |vals|, v.cap) {
      SlotsDiffer(p, q.tail + |vals|, v.cap);
    }
  }

  lemma FillIsShared<T>(q: Shared<T>, vals: seq<T>, value: T)
    requires SharedInv(q) && q.tail + |vals| < q.head + Newest(q).cap
    ensures SharedInv(Fill(q, vals, value)) && AnyRely(q, Fill(q, vals, value))
  {
    FillKeeps(q, vals, value);
    var q' := Fill(q, vals, value);
    assert VersionInv(Newest(q), q.head, q.log);
    assert VersionInv(Newest(q'), q'.head, q'.log);
    assert forall i: nat {:trigger q'.versions[i]} :: i < |q.versions| - 1 ==> q'.versions[i] == q.versions[i];
  }

  lemma FillIsFilling<T>(q: Shared<T>, vals: seq<T>, value: T)
    requires SharedInv(q) && ProducerInv(q, Filling(vals)) && q.tail + |vals| < q.head + Newest(q).cap
    ensures ProducerInv(Fill(q, vals, value), Filling(vals + [value]))
  {
    FillKeeps(q, vals, value);
  }

  lemma PublishKeepsNewest<T>(q: Shared<T>, vals: seq<T>)
    requires SharedInv(q) && ProducerInv(q, Filling(vals))
    ensures VersionInv(Newest(PublishAll(q, vals)), q.head, q.log + vals)
  {
    var v := Newest(q);
    assert VersionInv(v, q.head, q.log);
    forall p: nat | q.head <= p < q.tail + |vals| ensures v.buf[Slot(p, v.cap)] == (q.log + vals)[p] {
    }
  }

  lemma PublishKeepsOlder<T>(v: Version<T>, head: nat, log: seq<T>, vals: seq<T>)
    requires VersionInv(v, head, log)
    ensures VersionInv(v, head, log + vals)
  {
  }

  lemma PublishIsShared<T>(q: Shared<T>, vals: seq<T>)
    requires SharedInv(q) && ProducerInv(q, Filling(vals))
    ensures SharedInv(PublishAll(q, vals)) && AnyRely(q, PublishAll(q, vals))
  {
    var q' := PublishAll(q, vals);
    PublishKeepsNewest(q, vals);
    forall i: nat | i < |q'.versions| ensures VersionInv(q'.versions[i], q'.head, q'.log) {
      if i < |q.versions| - 1 {
        PublishKeepsOlder(q.versions[i], q.head, q.log, vals);
      }
    }
  }

  lemma CopyUpIsGrown<T>(q: Shared<T>, from: nat, upto: nat, buf: seq<T>)
    requires SharedInv(q) && ProducerInv(q, Growing(from, upto, buf)) && upto < q.tail
    ensures ProducerInv(q, Growing(from, upto + 1, CopyUp(Newest(q), upto, buf)))
  {
    var v := Newest(q);
    assert VersionInv(v, q.head, q.log);
    forall p: nat | q.head <= p < upto ensures Slot(p, |buf|) != Slot(upto, |buf|) {
      SlotsDiffer(p, upto, |buf|);
    }
  }

  lemma InstallIsShared<T>(q: Shared<T>, from: nat, buf: seq<T>)
    requires SharedInv(q) && ProducerInv(q, Growing(from, q.tail, buf))
    ensures SharedInv(Install(q, buf)) && AnyRely(q, Install(q, buf)) && ProducerInv(Install(q, buf), Filling([]))
  {
    var q' := Install(q, buf);
    assert VersionInv(Newest(q), q.head, q.log);
    assert VersionInv(Newest(q'), q'.head, q'.log);
    assert forall i: nat {:trigger q'.versions[i]} :: i < |q.versions| ==> q'.versions[i] == q.versions[i];
  }

  lemma TakeIsOk<T>(q: Shared<T>, n: nat)
    requires SharedInv(q) && ProducerInv(q, Idle) && q.head + n <= q.tail
    ensures ProducerInv(Claim(q, n), Taking(q.head, q.log[q.head..q.head + n], []))
  {
    assert VersionInv(Newest(q), q.head, q.log);
  }

  lemma ProducerGoOk<T>(q: Shared<T>, p: Producer<T>)
    requires SharedInv(q) && ProducerInv(q, p)
    ensures OutcomeOk(q, p, ProducerGo(q, p))
  {
    match p
    case PushLoad(value, _) => ObserveOk(q, p, Cache(q, q.head), ProducerGo(q, p).producer);
    case Pushing(value) => WriteOk(q, p, value);
    case Growing(from, upto, buf) =>
      if upto < q.tail { CopyUpIsGrown(q, from, upto, buf); } else { InstallIsShared(q, from, buf); }
    case Taking(start, vals, got) => TakeOneOk(q, start, vals, got);
    case _ =>
  }

  lemma TakeOneOk<T>(q: Shared<T>, start: nat, vals: seq<T>, got: seq<T>)
    requires SharedInv(q) && ProducerInv(q, Taking(start, vals, got))
    ensures OutcomeOk(q, Taking(start, vals, got), ProducerGo(q, Taking(start, vals, got)))
  {
    assert |got| == |vals| ==> got == vals;
  }

  lemma NothingOk<T>(q: Shared<T>, p: Producer<T>)
    requires SharedInv(q) && ProducerInv(q, p)
    ensures OutcomeOk(q, p, Outcome(q, p, []))
  {
  }

  lemma ObserveOk<T>(q: Shared<T>, p: Producer<T>, q': Shared<T>, p': Producer<T>)
    requires SharedInv(q) && ProducerInv(q, p) && (p.Idle? || p.PushLoad?) && (p'.Idle? || p'.Pushing?)
    requires q' == q.(cached := q'.cached, seen := q'.seen) && q'.cached <= q'.seen && q.seen <= q'.seen <= q.head
    ensures OutcomeOk(q, p, Outcome(q', p', []))
  {
    forall i: nat | i < |q'.versions| ensures VersionInv(q'.versions[i], q'.head, q'.log) {
      assert VersionInv(q.versions[i], q.head, q.log);
    }
  }

  lemma CallOk<T>(q: Shared<T>, value: T, test: Test)
    requires SharedInv(q) && ProducerInv(q, Idle)
    ensures OutcomeOk(q, Idle, IdleStep(q, Push(value, test)))
  {
  }

  lemma GrowFromOk<T>(q: Shared<T>, from: nat, memory: seq<T>)
    requires SharedInv(q) && ProducerInv(q, Idle)
    ensures OutcomeOk(q, Idle, Outcome(q, GrowFrom(q, from, memory), []))
  {
  }

  lemma TakeFromOk<T>(q: Shared<T>, start: nat, n: nat)
    requires SharedInv(q) && ProducerInv(q, Idle)
    ensures OutcomeOk(q, Idle, TakeFrom(q, start, n))
  {
    if q.head == start && start + n <= q.tail {
      ClaimKeepsSharedInv(q, n);
      TakeIsOk(q, n);
    }
  }

  lemma PublishOk<T>(q: Shared<T>, vals: seq<T>)
    requires SharedInv(q) && ProducerInv(q, Filling(vals))
    ensures OutcomeOk(q, Filling(vals), Outcome(PublishAll(q, vals), Idle, []))
  {
    PublishIsShared(q, vals);
  }

  lemma AbandonOk<T>(q: Shared<T>, vals: seq<T>)
    requires SharedInv(q) && ProducerInv(q, Filling(vals)) && q.published == NewestId(q)
    ensures OutcomeOk(q, Filling(vals), Outcome(q, Idle, []))
  {
  }

  lemma IdleStepOk<T>(q: Shared<T>, a: Action<T>)
    requires SharedInv(q) && ProducerInv(q, Idle)
    ensures OutcomeOk(q, Idle, IdleStep(q, a))
  {
    NothingOk(q, Idle);
    match a
    case SeeHead(head, cache) =>
      if q.seen <= head <= q.head { ObserveOk(q, Idle, if cache then Cache(q, head) else Observe(q, head), Idle); }
    case Push(value, test) => CallOk(q, value, test);
    case StartGrow(from, memory) => GrowFromOk(q, from, memory);
    case TryClaim(start, n) => TakeFromOk(q, start, n);
    case _ =>
  }

  lemma WriteOk<T>(q: Shared<T>, p: Producer<T>, value: T)
    requires SharedInv(q) && ProducerInv(q, p)
    ensures OutcomeOk(q, p, WriteStep(q, p, value))
  {
    var vals := if p.Filling? then p.vals else [];
    if (p.Idle? || p.Filling? || p.Pushing?) && q.tail + |vals| < q.head + Newest(q).cap {
      FillIsShared(q, vals, value);
      FillIsFilling(q, vals, value);
    }
  }

  lemma ProducerStepOk<T>(q: Shared<T>, p: Producer<T>, a: Action<T>)
    requires SharedInv(q) && ProducerInv(q, p)
    ensures OutcomeOk(q, p, ProducerStep(q, p, a))
  {
    NothingOk(q, p);
    match a
    case Go => ProducerGoOk(q, p);
    case Write(value) => if !p.Pushing? { WriteOk(q, p, value); }
    case Publish => if p.Filling? { PublishOk(q, p.vals); }
    case Abandon => if p.Filling? && q.published == NewestId(q) { AbandonOk(q, p.vals); }
    case _ => if p.Idle? { IdleStepOk(q, a); }
  }

  // ------------------------------------------------------------------ the machine

  ghost predicate Inv<T>(s: State<T>) {
    Places(s) && Balanced(s)
  }

  ghost predicate Places<T>(s: State<T>) {
    && SharedInv(s.q) && ProducerInv(s.q, s.producer)
    && (forall c: nat {:trigger s.consumers[c]} :: c < |s.consumers| ==> ConsumerInv(s.q, s.consumers[c]))
  }

  /** What was claimed is delivered, in the hands of a thief, or held by the producer. */
  ghost predicate Balanced<T>(s: State<T>) {
    && s.q.head <= |s.q.log|
    && multiset(s.q.log[..s.q.head]) == s.delivered + Total(Hands(s.consumers)) + Held(s.producer)
  }

  function Produced<T>(s: State<T>, o: Outcome<T>): State<T> {
    s.(q := o.q, producer := o.producer, delivered := s.delivered + multiset(o.out))
  }

  function ProduceStep<T>(s: State<T>, a: Action<T>): State<T>
    requires SharedInv(s.q) && ProducerInv(s.q, s.producer)
  {
    Produced(s, ProducerStep(s.q, s.producer, a)).(lost := s.lost + LostBy(s.q, s.producer, a))
  }

  function Consumed<T>(s: State<T>, c: nat, after: Consumer<T>, n: nat, out: seq<T>): State<T>
    requires c < |s.consumers|
  {
    s.(q := Claim(s.q, n), consumers := s.consumers[c := after], delivered := s.delivered + multiset(out))
  }

  function ConsumeStep<T>(s: State<T>, c: nat, locked: bool): State<T>
    requires SharedInv(s.q) && c < |s.consumers| && ConsumerInv(s.q, s.consumers[c])
  {
    var (after, n) := ConsumerStep(s.q, s.consumers[c], s.least, locked);
    Consumed(s, c, after, n, DeliveredBy(s.q, s.consumers[c]))
  }

  function Joined<T>(s: State<T>, version: nat): State<T> {
    s.(consumers := s.consumers + [Consumer(version, Rest)])
  }

  function Started<T>(s: State<T>, c: nat, op: Op): State<T>
    requires c < |s.consumers|
  {
    s.(consumers := s.consumers[c := Consumer(s.consumers[c].version, LoadHead(op, 0))])
  }

  lemma JoinKeepsInv<T>(s: State<T>, version: nat)
    requires Inv(s) && version < |s.q.versions|
    ensures Inv(Joined(s, version))
  {
    var consumers := Joined(s, version).consumers;
    assert Hands(consumers)[..|s.consumers|] == Hands(s.consumers);
  }

  lemma StartKeepsInv<T>(s: State<T>, c: nat, op: Op)
    requires Inv(s) && c < |s.consumers| && s.consumers[c].pc.Rest?
    ensures Inv(Started(s, c, op))
  {
    assert Hands(Started(s, c, op).consumers) == Hands(s.consumers);
  }

  function Step<T>(s: State<T>, e: Event<T>): (s': State<T>)
    requires Inv(s)
    ensures Inv(s') && AnyRely(s.q, s'.q)
  {
    match e
    case Produce(a) =>
      ProduceKeepsInv(s, a);
      ProduceStep(s, a)
    case Join(version) =>
      if version < |s.q.versions| then
        JoinKeepsInv(s, version);
        Joined(s, version)
      else s
    case Start(c, op) =>
      if c < |s.consumers| && s.consumers[c].pc.Rest? then
        StartKeepsInv(s, c, op);
        Started(s, c, op)
      else s
    case Consume(c, locked) =>
      if c < |s.consumers| then
        ConsumeKeepsInv(s, c, locked);
        ConsumeStep(s, c, locked)
      else s
  }

  lemma ClaimedSplit<T>(log: seq<T>, h: nat, h': nat)
    requires h <= h' <= |log|
    ensures multiset(log[..h']) == multiset(log[..h]) + multiset(log[h..h'])
  {
    assert log[..h'] == log[..h] + log[h..h'];
  }

  lemma MovedOver<T>(before: multiset<T>, moved: multiset<T>, delivered: multiset<T>, rest: multiset<T>,
                     held: multiset<T>, held': multiset<T>, out: multiset<T>)
    requires before == delivered + rest + held && held + moved == held' + out
    ensures before + moved == delivered + out + rest + held'
  {
    forall v: T ensures (before + moved)[v] == (delivered + out + rest + held')[v] {
      assert (held + moved)[v] == (held' + out)[v];
    }
  }

  lemma OutcomeBalances<T>(s: State<T>, o: Outcome<T>)
    requires Inv(s) && OutcomeOk(s.q, s.producer, o)
    ensures multiset(o.q.log[..o.q.head])
         == s.delivered + multiset(o.out) + Total(Hands(s.consumers)) + Held(o.producer)
  {
    var h, h' := s.q.head, o.q.head;
    ClaimedSplit(s.q.log, h, h');
    assert o.q.log[..h'] == s.q.log[..h'];
    MovedOver(multiset(s.q.log[..h]), multiset(s.q.log[h..h']), s.delivered, Total(Hands(s.consumers)),
              Held(s.producer), Held(o.producer), multiset(o.out));
  }

  lemma ConsumersSurvive<T>(s: State<T>, q': Shared<T>)
    requires Inv(s) && AnyRely(s.q, q') && SharedInv(q')
    ensures forall c: nat {:trigger s.consumers[c]} :: c < |s.consumers| ==> ConsumerInv(q', s.consumers[c])
  {
    EndsInLog(q');
    forall c: nat | c < |s.consumers| ensures ConsumerInv(q', s.consumers[c]) {
      ConsumerInvSurvives(s.q, q', s.consumers[c]);
    }
  }

  lemma EndsInLog<T>(q: Shared<T>)
    requires SharedInv(q)
    ensures forall i: nat {:trigger q.versions[i]} :: i < |q.versions| ==> q.versions[i].end <= |q.log|
  {
    forall i: nat | i < |q.versions| ensures q.versions[i].end <= |q.log| {
      assert VersionInv(q.versions[i], q.head, q.log);
    }
  }

  lemma ProduceKeepsInv<T>(s: State<T>, a: Action<T>)
    requires Inv(s)
    ensures Inv(ProduceStep(s, a)) && AnyRely(s.q, ProduceStep(s, a).q)
  {
    var o := ProducerStep(s.q, s.producer, a);
    ProducerStepOk(s.q, s.producer, a);
    ConsumersSurvive(s, o.q);
    OutcomeBalances(s, o);
  }

  /** Where a consumer is after its copy when the head has not moved. */
  ghost predicate Ready<T>(q: Shared<T>, c: Consumer<T>) {
    c.pc.Copy? && |c.pc.copied| == c.pc.n && q.head == c.pc.head
  }

  /** Then its copy is right. */
  lemma CopiedIsLog<T>(q: Shared<T>, c: Consumer<T>)
    requires SharedInv(q) && ConsumerInv(q, c) && Ready(q, c)
    ensures q.head + c.pc.n <= q.tail && 0 < q.versions[c.version].cap && c.pc.n <= q.versions[c.version].cap
    ensures c.pc.copied == Expected(q.log, c.pc.op.Steal?, q.head, c.pc.n, q.versions[c.version].cap)
  {
    var Copy(op, head, tail, n, copied, tries) := c.pc;
    var v := q.versions[c.version];
    assert VersionInv(v, q.head, q.log);
    CopiedIsExpected(q.log, op.Steal?, head, copied, v.cap);
  }

  /** What a step claims it delivers or takes in hand, and what it has in hand it delivers. */
  lemma StepBalances<T>(q: Shared<T>, c: Consumer<T>, least: nat, locked: bool)
    requires SharedInv(q) && ConsumerInv(q, c)
    ensures var (after, n) := ConsumerStep(q, c, least, locked);
            && n == |ClaimedBy(q, c)|
            && InHand(c) + multiset(ClaimedBy(q, c)) == InHand(after) + multiset(DeliveredBy(q, c))
  {
  }

  lemma ExpectedBag<T>(log: seq<T>, steal: bool, head: nat, copied: seq<T>, cap: nat)
    requires 0 < cap && head + |copied| <= |log| && copied == Expected(log, steal, head, |copied|, cap)
    ensures multiset(copied) == multiset(log[head..head + |copied|])
  {
    ExpectedKeepsValues(log, steal, head, |copied|, cap);
  }

  lemma ClaimedIsLog<T>(q: Shared<T>, c: Consumer<T>)
    requires SharedInv(q) && ConsumerInv(q, c)
    ensures var out := ClaimedBy(q, c);
            q.head + |out| <= |q.log| && multiset(out) == multiset(q.log[q.head..q.head + |out|])
  {
    if Ready(q, c) {
      CopiedIsLog(q, c);
      ExpectedBag(q.log, c.pc.op.Steal?, q.head, c.pc.copied, q.versions[c.version].cap);
    } else {
      assert q.log[q.head..q.head] == [];
    }
  }

  lemma StepTakesLog<T>(q: Shared<T>, c: Consumer<T>, least: nat, locked: bool, after: Consumer<T>, n: nat,
                        out: seq<T>)
    requires SharedInv(q) && ConsumerInv(q, c) && (after, n) == ConsumerStep(q, c, least, locked)
    requires out == DeliveredBy(q, c)
    ensures q.head + n <= q.tail && ConsumerInv(Claim(q, n), after)
    ensures InHand(c) + multiset(q.log[q.head..q.head + n]) == InHand(after) + multiset(out)
  {
    ConsumerStepOk(q, c, least, locked);
    StepTakesValues(q, c, least, locked, after, n);
  }

  lemma StepTakesValues<T>(q: Shared<T>, c: Consumer<T>, least: nat, locked: bool, after: Consumer<T>, n: nat)
    requires SharedInv(q) && ConsumerInv(q, c) && (after, n) == ConsumerStep(q, c, least, locked)
    ensures q.head + n <= |q.log|
    ensures InHand(c) + multiset(q.log[q.head..q.head + n]) == InHand(after) + multiset(DeliveredBy(q, c))
  {
    StepBalances(q, c, least, locked);
    ClaimedIsLog(q, c);
    StepTakesBag(q, c, after, n);
  }

  lemma StepTakesBag<T>(q: Shared<T>, c: Consumer<T>, after: Consumer<T>, n: nat)
    requires q.head + n <= |q.log| && multiset(ClaimedBy(q, c)) == multiset(q.log[q.head..q.head + n])
    requires InHand(c) + multiset(ClaimedBy(q, c)) == InHand(after) + multiset(DeliveredBy(q, c))
    ensures InHand(c) + multiset(q.log[q.head..q.head + n]) == InHand(after) + multiset(DeliveredBy(q, c))
  {
    SameBags(InHand(c), multiset(ClaimedBy(q, c)), multiset(q.log[q.head..q.head + n]), InHand(after),
             multiset(DeliveredBy(q, c)));
  }

  lemma SameBags<T>(hand: multiset<T>, claimed: multiset<T>, taken: multiset<T>, hand': multiset<T>, out: multiset<T>)
    requires hand + claimed == hand' + out && claimed == taken
    ensures hand + taken == hand' + out
  {
  }

  lemma HandsUpdate<T>(consumers: seq<Consumer<T>>, c: nat, after: Consumer<T>)
    requires c < |consumers|
    ensures Total(Hands(consumers[c := after])) + InHand(consumers[c]) == Total(Hands(consumers)) + InHand(after)
  {
    TotalUpdate(Hands(consumers), c, InHand(after));
    assert Hands(consumers[c := after]) == Hands(consumers)[c := InHand(after)];
  }

  lemma StillBalanced<T>(before: multiset<T>, claimed: multiset<T>, delivered: multiset<T>, out: multiset<T>,
                         hands: multiset<T>, hands': multiset<T>, h: multiset<T>, h': multiset<T>, held: multiset<T>)
    requires before == delivered + hands + held
    requires hands' + h == hands + h' && h + claimed == h' + out
    ensures before + claimed == delivered + out + hands' + held
  {
    forall v: T ensures (before + claimed)[v] == (delivered + out + hands' + held)[v] {
      assert (hands' + h)[v] == (hands + h')[v];
      assert (h + claimed)[v] == (h' + out)[v];
    }
  }

  lemma HandsBalance<T>(consumers: seq<Consumer<T>>, c: nat, after: Consumer<T>, before: multiset<T>,
                        claimed: multiset<T>, delivered: multiset<T>, out: multiset<T>, held: multiset<T>)
    requires c < |consumers| && InHand(consumers[c]) + claimed == InHand(after) + out
    requires before == delivered + Total(Hands(consumers)) + held
    ensures before + claimed == delivered + out + Total(Hands(consumers[c := after])) + held
  {
    HandsUpdate(consumers, c, after);
    StillBalanced(before, claimed, delivered, out, Total(Hands(consumers)),
                  Total(Hands(consumers[c := after])), InHand(consumers[c]), InHand(after), held);
  }

  lemma ConsumedBalances<T>(s: State<T>, c: nat, after: Consumer<T>, n: nat, out: seq<T>, claimed: multiset<T>,
                            hands: multiset<T>)
    requires Balanced(s) && c < |s.consumers| && s.q.head + n <= |s.q.log|
    requires multiset(s.q.log[..s.q.head + n]) == multiset(s.q.log[..s.q.head]) + claimed
    requires hands == Total(Hands(Consumed(s, c, after, n, out).consumers))
    requires multiset(s.q.log[..s.q.head]) + claimed == s.delivered + multiset(out) + hands + Held(s.producer)
    ensures Balanced(Consumed(s, c, after, n, out))
  {
  }

  lemma ConsumeKeepsInv<T>(s: State<T>, c: nat, locked: bool)
    requires Inv(s) && c < |s.consumers|
    ensures Inv(ConsumeStep(s, c, locked)) && AnyRely(s.q, ConsumeStep(s, c, locked).q)
  {
    var (after, n) := ConsumerStep(s.q, s.consumers[c], s.least, locked);
    ConsumerStepKeepsInv(s, c, locked, after, n, DeliveredBy(s.q, s.consumers[c]));
  }

  lemma ConsumerStepKeepsInv<T>(s: State<T>, c: nat, locked: bool, after: Consumer<T>, n: nat, out: seq<T>)
    requires Inv(s) && c < |s.consumers| && out == DeliveredBy(s.q, s.consumers[c])
    requires (after, n) == ConsumerStep(s.q, s.consumers[c], s.least, locked)
    ensures Inv(Consumed(s, c, after, n, out)) && AnyRely(s.q, Claim(s.q, n))
  {
    StepTakesLog(s.q, s.consumers[c], s.least, locked, after, n, out);
    ConsumedKeepsInv(s, c, after, n, out);
  }

  lemma ConsumedStaysBalanced<T>(s: State<T>, c: nat, after: Consumer<T>, n: nat, out: seq<T>, claimed: multiset<T>)
    requires Balanced(s) && c < |s.consumers| && s.q.head + n <= |s.q.log|
    requires multiset(s.q.log[..s.q.head + n]) == multiset(s.q.log[..s.q.head]) + claimed
    requires InHand(s.consumers[c]) + claimed == InHand(after) + multiset(out)
    ensures Balanced(Consumed(s, c, after, n, out))
  {
    HandsBalance(s.consumers, c, after, multiset(s.q.log[..s.q.head]), claimed,
                 s.delivered, multiset(out), Held(s.producer));
    ConsumedBalances(s, c, after, n, out, claimed, Total(Hands(s.consumers[c := after])));
  }

  lemma ConsumedKeepsInv<T>(s: State<T>, c: nat, after: Consumer<T>, n: nat, out: seq<T>)
    requires Inv(s) && c < |s.consumers| && s.q.head + n <= s.q.tail && ConsumerInv(Claim(s.q, n), after)
    requires InHand(s.consumers[c]) + multiset(s.q.log[s.q.head..s.q.head + n]) == InHand(after) + multiset(out)
    ensures Inv(Consumed(s, c, after, n, out)) && AnyRely(s.q, Claim(s.q, n))
  {
    ClaimedSplit(s.q.log, s.q.head, s.q.head + n);
    ConsumedStaysBalanced(s, c, after, n, out, multiset(s.q.log[s.q.head..s.q.head + n]));
    ConsumedKeepsPlaces(s, c, after, n, out);
  }

  lemma ConsumedKeepsPlaces<T>(s: State<T>, c: nat, after: Consumer<T>, n: nat, out: seq<T>)
    requires Inv(s) && c < |s.consumers| && s.q.head + n <= s.q.tail && ConsumerInv(Claim(s.q, n), after)
    ensures Places(Consumed(s, c, after, n, out)) && AnyRely(s.q, Claim(s.q, n))
  {
    ClaimKeepsSharedInv(s.q, n);
    ProducerInvSurvives(s.q, Claim(s.q, n), s.producer);
    ConsumersSurvive(s, Claim(s.q, n));
  }

  /** Every run keeps the invariant, and counters, version ids and capacities only grow. */
  function Run<T>(s: State<T>, events: seq<Event<T>>): (s': State<T>)
    requires Inv(s)
    ensures Inv(s') && AnyRely(s.q, s'.q)
    decreases |events|
  {
    if events == [] then s
    else
      var next := Step(s, events[0]);
      var last := Run(next, events[1..]);
      AnyRelyTransitive(s.q, next.q, last.q);
      last
  }

  lemma {:induction false} RunConcat<T>(s: State<T>, a: seq<Event<T>>, b: seq<Event<T>>)
    requires Inv(s)
    ensures Run(s, a + b) == Run(Run(s, a), b)
    decreases |a|
  {
    if a == [] {
      assert a + b == b;
    } else {
      assert (a + b)[1..] == a[1..] + b;
      RunConcat(Step(s, a[0]), a[1..], b);
    }
  }

  lemma AnyRelyTransitive<T>(a: Shared<T>, b: Shared<T>, c: Shared<T>)
    requires AnyRely(a, b) && AnyRely(b, c)
    ensures AnyRely(a, c)
  {
    forall i: nat | i < |a.versions|
      ensures c.versions[i].cap == a.versions[i].cap && a.versions[i].end <= c.versions[i].end
    {
      assert b.versions[i].cap == a.versions[i].cap;
    }
  }

  /** One version over arbitrary memory, and no consumer yet. */
  function Init<T>(memory: seq<T>, least: nat): (s: State<T>)
    requires 0 < |memory|
    ensures Inv(s)
  {
    var s := State(Shared(0, 0, 0, 0, 0, [Version(|memory|, memory, 0)], []), Idle, [], least, multiset{}, multiset{});
    assert VersionInv(s.q.versions[0], 0, []);
    s
  }

  // ------------------------------------------------------------------ what every run guarantees

  /** What holds under `Inv` holds in every state that a run reaches. */
  function RunFrom<T>(memory: seq<T>, least: nat, events: seq<Event<T>>): (s: State<T>)
    requires 0 < |memory|
    ensures Inv(s)
  {
    Run(Init(memory, least), events)
  }

  /** Read safety. In every state that a run reaches, with any number of consumers, growths in the
      middle of a copy and versions older or newer than the published one: the exchange of a
      consumer that copied `n` values succeeds exactly when the head is where it was loaded, and
      then the consumer has exactly the values published at `head..head + n`, which a pop hands to
      its caller and a thief keeps in hand; otherwise nobody has them. */
  lemma ReadSafety<T>(s: State<T>, c: nat, locked: bool)
    requires Inv(s) && c < |s.consumers|
    requires s.consumers[c].pc.Copy? && |s.consumers[c].pc.copied| == s.consumers[c].pc.n
    ensures var s', Consumer(id, Copy(op, head, tail, n, copied, _)) := Step(s, Consume(c, locked)), s.consumers[c];
            if s.q.head == head then
              && s'.q == s.q.(head := head + n) && head + n <= s.q.tail
              && Amount(op, head, tail, n) && tail <= s.q.tail
              && id < |s.q.versions| && 0 < s.q.versions[id].cap && n <= s.q.versions[id].cap
              && copied == Expected(s.q.log, op.Steal?, head, n, s.q.versions[id].cap)
              && Won(s, s', c, op, copied)
            else s'.q == s.q && s'.delivered == s.delivered
  {
    CasMeans(s, c, locked);
    if s.q.head == s.consumers[c].pc.head { CopiedIsLog(s.q, s.consumers[c]); }
  }

  ghost predicate Won<T>(s: State<T>, s': State<T>, c: nat, op: Op, copied: seq<T>) {
    && c < |s'.consumers|
    && if op.Pop? then s'.consumers[c].pc.Rest? && s'.delivered == s.delivered + multiset(copied)
       else s'.consumers[c].pc.Handing? && s'.consumers[c].pc.vals == copied && s'.delivered == s.delivered
  }

  lemma CasMeans<T>(s: State<T>, c: nat, locked: bool)
    requires Inv(s) && c < |s.consumers| && s.consumers[c].pc.Copy? && |s.consumers[c].pc.copied| == s.consumers[c].pc.n
    ensures var s', pc := Step(s, Consume(c, locked)), s.consumers[c].pc;
            if s.q.head == pc.head then s'.q == Claim(s.q, pc.n) && Won(s, s', c, pc.op, pc.copied)
            else s'.q == s.q && s'.delivered == s.delivered
  {
    assert s.delivered + multiset([]) == s.delivered;
    assert Step(s, Consume(c, locked)) == ConsumeStep(s, c, locked);
  }

  /** The step after that delivers what the thief has in hand. */
  lemma ThiefDelivers<T>(s: State<T>, c: nat, locked: bool)
    requires Inv(s) && c < |s.consumers| && s.consumers[c].pc.Handing?
    ensures var s' := Step(s, Consume(c, locked));
            && s'.q == s.q && c < |s'.consumers| && s'.consumers[c].pc.Rest?
            && s'.delivered == s.delivered + multiset(s.consumers[c].pc.vals)
  {
    assert Step(s, Consume(c, locked)) == ConsumeStep(s, c, locked);
  }

  /** The version cell is at most one version ahead of the published id, ids only grow and every
      version has more capacity than the one before. */
  lemma VersionsGrow<T>(memory: seq<T>, least: nat, before: seq<Event<T>>, after: seq<Event<T>>)
    requires 0 < |memory|
    ensures var a := RunFrom(memory, least, before);
            var b := Run(a, after);
            && b.q.published <= NewestId(b.q) <= b.q.published + 1
            && a.q.published <= b.q.published && NewestId(a.q) <= NewestId(b.q)
            && (forall i: nat, j: nat {:trigger b.q.versions[i], b.q.versions[j]} :: i < j < |b.q.versions| ==>
                  b.q.versions[i].cap < b.q.versions[j].cap)
  {
  }

  /** A successful `update_version` after a load of id `id` and tail `tail`: the consumer ends with
      a version at least that new, newer than its own, and its buffer has every value published
      below `tail` that nobody has claimed. */
  lemma UpdateDelivers<T>(s: State<T>, c: nat)
    requires Inv(s) && c < |s.consumers| && s.consumers[c].pc.Update?
    ensures var s', Consumer(cached, Update(op, head, id, tail, _)) := Step(s, Consume(c, false)), s.consumers[c];
            && s'.q == s.q && |s'.consumers| == |s.consumers|
            && var got := s'.consumers[c].version;
               && cached < id <= got == NewestId(s.q) && tail <= |s.q.log|
               && var v := s.q.versions[got];
                  && 0 < v.cap == |v.buf| && tail <= s.q.head + v.cap
                  && forall p: nat {:trigger Slot(p, v.cap)} :: s.q.head <= p < tail ==>
                       v.buf[Slot(p, v.cap)] == s.q.log[p]
  {
    assert ConsumerInv(s.q, s.consumers[c]);
    NewestHolds(s.q, s.consumers[c].pc.id, s.consumers[c].pc.tail);
    assert s.delivered + multiset([]) == s.delivered;
  }

  lemma NewestHolds<T>(q: Shared<T>, id: nat, tail: nat)
    requires SharedInv(q) && id < |q.versions| && tail <= q.versions[id].end
    ensures var v := Newest(q);
            && 0 < v.cap == |v.buf| && tail <= |q.log| && tail <= q.head + v.cap
            && forall p: nat {:trigger Slot(p, v.cap)} :: q.head <= p < tail ==> v.buf[Slot(p, v.cap)] == q.log[p]
  {
    assert VersionInv(Newest(q), q.head, q.log);
    assert q.versions[id].end <= Newest(q).end;
  }

  // ------------------------------------------------------------------ what calls decide

  /** The load of the word: a consumer whose version is older than the published one goes for a newer
      one, whatever it wants. */
  lemma OutdatedUpdates<T>(s: State<T>, c: nat, locked: bool)
    requires Inv(s) && c < |s.consumers| && s.consumers[c].pc.LoadWord?
    ensures var s' := Step(s, Consume(c, locked));
            && c < |s'.consumers| && s'.q == s.q && s'.delivered == s.delivered
            && (s'.consumers[c].pc.Update? <==> s.consumers[c].version < s.q.published)
            && (s'.consumers[c].pc.Update? ==>
                  s'.consumers[c].pc.id == s.q.published && s'.consumers[c].pc.tail == s.q.tail
                  && s'.consumers[c].pc.op == s.consumers[c].pc.op)
  {
    LoadWordGoes(s, c, locked);
  }

  lemma LoadWordGoes<T>(s: State<T>, c: nat, locked: bool)
    requires Inv(s) && c < |s.consumers| && s.consumers[c].pc.LoadWord?
    ensures var s', LoadWord(op, head, tries) := Step(s, Consume(c, locked)), s.consumers[c].pc;
            && c < |s'.consumers| && s'.q == s.q && s'.delivered == s.delivered
            && s.consumers[c].version < |s.q.versions|
            && s'.consumers[c].version == s.consumers[c].version
            && s'.consumers[c].pc == AfterLoadWord(s.q, s.consumers[c].version, op, head, s.least, tries)
  {
    assert Step(s, Consume(c, locked)) == ConsumeStep(s, c, locked);
    assert s.delivered + multiset([]) == s.delivered;
  }

  /** With a version that is new enough a steal goes for half of what the loaded head and tail promise,
      as far as it fits, exactly if that is something, at least the minimum, and not more than half of
      the version; it starts over exactly if it is more, and otherwise it is over. */
  lemma StealDecides<T>(s: State<T>, c: nat, locked: bool, half: nat)
    requires Inv(s) && c < |s.consumers| && s.consumers[c].pc.LoadWord? && s.consumers[c].pc.op.Steal?
    requires s.q.published <= s.consumers[c].version
    requires half == (s.q.tail - s.consumers[c].pc.head) / 2
    ensures s.consumers[c].version < |s.q.versions|
    ensures var s', LoadWord(op, head, _) := Step(s, Consume(c, locked)), s.consumers[c].pc;
            var cap := s.q.versions[s.consumers[c].version].cap;
            && c < |s'.consumers|
            && var pc := s'.consumers[c].pc;
               && (pc.LoadHead? <==> cap / 2 < half)
               && (pc.Rest? <==> half <= cap / 2 && (half == 0 || half < s.least))
               && (pc.Copy? <==> half <= cap / 2 && 0 < half && s.least <= half)
               && (pc.Copy? ==>
                     pc.op == op && pc.head == head && pc.tail == s.q.tail && pc.copied == []
                     && pc.n == Min(half, op.room))
  {
    LoadWordGoes(s, c, locked);
  }

  /** A pop goes for as many values as it has space for or the loaded head and tail promise, exactly if
      that is something and not more than the version holds; it starts over exactly if it is more, and it
      is over exactly if there is no space to fill or the tail is the head that it loaded. */
  lemma PopDecides<T>(s: State<T>, c: nat, locked: bool, n: nat)
    requires Inv(s) && c < |s.consumers| && s.consumers[c].pc.LoadWord? && s.consumers[c].pc.op.Pop?
    requires s.q.published <= s.consumers[c].version
    requires n == Min(s.consumers[c].pc.op.max, s.q.tail - s.consumers[c].pc.head)
    ensures s.consumers[c].version < |s.q.versions|
    ensures var s', LoadWord(op, head, _) := Step(s, Consume(c, locked)), s.consumers[c].pc;
            var cap := s.q.versions[s.consumers[c].version].cap;
            && c < |s'.consumers|
            && var pc := s'.consumers[c].pc;
               && (pc.LoadHead? <==> cap < n)
               && (pc.Rest? <==> op.max == 0 || s.q.tail == head)
               && (pc.Copy? <==> 0 < n <= cap)
               && (pc.Copy? ==> pc.op == op && pc.head == head && pc.tail == s.q.tail && pc.copied == [] && pc.n == n)
  {
    LoadWordGoes(s, c, locked);
  }

  /** A call stays what it is until it ends or has values in hand: it works from the head as it is at
      its load, and goes back to the load of the word, with that head, when it got a newer version. */
  lemma CallsGoOn<T>(s: State<T>, c: nat, locked: bool)
    requires Inv(s) && c < |s.consumers| && !s.consumers[c].pc.Rest? && !s.consumers[c].pc.Handing?
    ensures var s', pc := Step(s, Consume(c, locked)), s.consumers[c].pc;
            && c < |s'.consumers|
            && var pc' := s'.consumers[c].pc;
               && (pc'.Handing? ==> pc.Copy? && pc.op.Steal?)
               && (pc'.Rest? || pc'.Handing? || pc'.op == pc.op)
               && (pc.LoadHead? ==> pc'.LoadWord? && pc'.head == s.q.head)
               && (pc.Update? ==> if locked then pc'.Rest? else pc'.LoadWord? && pc'.head == pc.head)
  {
    assert Step(s, Consume(c, locked)) == ConsumeStep(s, c, locked);
    ConsumerGoesOn(s.q, s.consumers[c], s.least, locked);
  }

  lemma ConsumerGoesOn<T>(q: Shared<T>, c: Consumer<T>, least: nat, locked: bool)
    requires SharedInv(q) && ConsumerInv(q, c) && !c.pc.Rest? && !c.pc.Handing?
    ensures var pc, pc' := c.pc, ConsumerStep(q, c, least, locked).0.pc;
            && (pc'.Handing? ==> pc.Copy? && pc.op.Steal?)
            && (pc'.Rest? || pc'.Handing? || pc'.op == pc.op)
            && (pc.LoadHead? ==> pc'.LoadWord? && pc'.head == q.head)
            && (pc.Update? ==> if locked then pc'.Rest? else pc'.LoadWord? && pc'.head == pc.head)
  {
  }

  /** An unfinished copy goes on with one value more and nothing else changed. */
  lemma CopyGoesOn<T>(s: State<T>, c: nat, locked: bool)
    requires Inv(s) && c < |s.consumers| && s.consumers[c].pc.Copy?
    requires |s.consumers[c].pc.copied| < s.consumers[c].pc.n
    ensures var s', pc := Step(s, Consume(c, locked)), s.consumers[c].pc;
            && c < |s'.consumers| && s'.q == s.q && s'.consumers[c].version == s.consumers[c].version
            && var pc' := s'.consumers[c].pc;
               && pc'.Copy? && pc' == pc.(copied := pc'.copied)
               && |pc'.copied| == |pc.copied| + 1 && pc'.copied[..|pc.copied|] == pc.copied
  {
    assert ConsumerInv(s.q, s.consumers[c]);
    assert Step(s, Consume(c, locked)) == ConsumeStep(s, c, locked);
  }

  /** A call ends only as it should: by its decision, when the version cell refuses to give a newer
      version to a consumer that is behind, by the exchange of a pop that wins, or by the publication of
      a thief. In particular a lost exchange never ends it. */
  lemma EndsOnly<T>(s: State<T>, c: nat, locked: bool)
    requires Inv(s) && c < |s.consumers| && !s.consumers[c].pc.Rest?
    requires var s' := Step(s, Consume(c, locked)); c < |s'.consumers| && s'.consumers[c].pc.Rest?
    ensures var pc := s.consumers[c].pc;
            || (pc.LoadWord? && s.q.published <= s.consumers[c].version)
            || (pc.Update? && locked && s.consumers[c].version < pc.id <= s.q.published)
            || (pc.Copy? && pc.op.Pop? && |pc.copied| == pc.n && s.q.head == pc.head)
            || pc.Handing?
  {
    assert ConsumerInv(s.q, s.consumers[c]);
    assert Step(s, Consume(c, locked)) == ConsumeStep(s, c, locked);
  }

  /** An exchange that is lost leads back to the load of the word, with the head that it met. */
  lemma LostExchangeRetries<T>(s: State<T>, c: nat, locked: bool)
    requires Inv(s) && c < |s.consumers| && s.consumers[c].pc.Copy?
    requires |s.consumers[c].pc.copied| == s.consumers[c].pc.n && s.q.head != s.consumers[c].pc.head
    ensures var s', pc := Step(s, Consume(c, locked)), s.consumers[c].pc;
            && c < |s'.consumers| && s'.consumers[c].pc.LoadWord?
            && s'.consumers[c].pc.op == pc.op && pc.head < s'.consumers[c].pc.head == s.q.head
  {
    assert ConsumerInv(s.q, s.consumers[c]);
    assert Step(s, Consume(c, locked)) == ConsumeStep(s, c, locked);
  }

  /** A push loads the head exactly if its test against the cached one says that the version is full,
      and after the load it stores in place exactly if the head has moved; otherwise it is up to the
      growth. With room its step stores the value behind the tail. */
  lemma PushDecides<T>(s: State<T>, value: T, test: Test)
    requires Inv(s)
    ensures var cap := Newest(s.q).cap;
            var full := if test.Equal? then s.q.tail == s.q.cached + cap else s.q.tail >= s.q.cached + cap;
            s.producer.Idle? ==>
              ProduceStep(s, Push(value, test)).producer == if full then PushLoad(value, test) else Pushing(value)
    ensures s.producer == PushLoad(value, test) ==>
              && ProduceStep(s, Go).producer == (if s.q.head != s.q.cached then Pushing(value) else Idle)
              && ProduceStep(s, Go).q.cached == s.q.head
    ensures s.producer == Pushing(value) && s.q.tail < s.q.head + Newest(s.q).cap ==>
              ProduceStep(s, Go).producer == Filling([value])
  {
  }

  /** The growth starts from any head that the producer has seen, with a larger buffer. */
  lemma GrowthStarts<T>(s: State<T>, from: nat, memory: seq<T>)
    requires Inv(s) && s.producer.Idle?
    ensures ProduceStep(s, StartGrow(from, memory)).producer
         == if from <= s.q.seen && s.q.tail <= from + Newest(s.q).cap && Newest(s.q).cap < |memory|
            then Growing(from, from, memory) else Idle
  {
    assert IdleStep(s.q, StartGrow(from, memory)) == Outcome(s.q, GrowFrom(s.q, from, memory), []);
  }

  /** It goes on one value at a time. */
  lemma GrowthGoesOn<T>(s: State<T>, from: nat, upto: nat, buf: seq<T>)
    requires Inv(s) && s.producer == Growing(from, upto, buf) && upto < s.q.tail
    ensures var s' := ProduceStep(s, Go);
            && s'.q == s.q && s'.producer.Growing? && s'.producer.from == from && s'.producer.upto == upto + 1
            && |s'.producer.buf| == |buf|
  {
    assert ProducerStep(s.q, s.producer, Go) == ProducerGo(s.q, s.producer);
  }

  /** It ends with a new version that has the capacity of that buffer, and in which every value that
      nobody took is in its place. */
  lemma GrowthInstalls<T>(s: State<T>, from: nat, upto: nat, buf: seq<T>)
    requires Inv(s) && s.producer == Growing(from, upto, buf) && upto == s.q.tail
    ensures var s' := ProduceStep(s, Go);
            && s'.producer == Filling([]) && |s'.q.versions| == |s.q.versions| + 1
            && Newest(s.q).cap < Newest(s'.q).cap == |Newest(s'.q).buf| == |buf|
            && s'.q.head == s.q.head && s'.q.tail == s.q.tail == |s.q.log|
            && forall p: nat {:trigger Slot(p, |buf|)} :: s.q.head <= p < s.q.tail ==>
                 Newest(s'.q).buf[Slot(p, |buf|)] == s.q.log[p]
  {
    assert ProducerStep(s.q, s.producer, Go) == ProducerGo(s.q, s.producer);
    assert Newest(Install(s.q, buf)).buf == buf;
  }

  /** A publication appends what was stored behind the tail, and everything is then published in the
      newest version. */
  lemma PublicationAppends<T>(s: State<T>, vals: seq<T>)
    requires Inv(s) && s.producer == Filling(vals)
    ensures var s' := ProduceStep(s, Publish);
            && s'.producer.Idle? && s'.q.log == s.q.log + vals && s'.q.tail == s.q.tail + |vals|
            && s'.q.head == s.q.head && s'.q.published == NewestId(s'.q) == NewestId(s.q)
  {
  }

  /** The exchange of the producer on its own head wins exactly when the head is where it was seen, and
      then the producer holds the values published there until it hands them to its caller. */
  lemma ProducerTakes<T>(s: State<T>, start: nat, n: nat)
    requires Inv(s) && s.producer.Idle? && start + n <= s.q.tail
    ensures var s' := ProduceStep(s, TryClaim(start, n));
            if s.q.head == start then
              && s'.q.head == start + n <= |s.q.log| && s'.producer == Taking(start, s.q.log[start..start + n], [])
              && s'.q == s.q.(head := start + n)
            else s'.q == s.q && s'.producer.Idle?
  {
  }

  /** It copies one of them at a time out of the slots. */
  lemma ProducerCopies<T>(s: State<T>, start: nat, vals: seq<T>, got: seq<T>)
    requires Inv(s) && s.producer == Taking(start, vals, got) && |got| < |vals|
    ensures var s' := ProduceStep(s, Go);
            s'.q == s.q && s'.producer == Taking(start, vals, got + [vals[|got|]])
  {
    assert ProducerStep(s.q, s.producer, Go) == ProducerGo(s.q, s.producer);
  }

  /** Then it hands over exactly these values. */
  lemma ProducerHandsOver<T>(s: State<T>, start: nat, vals: seq<T>, got: seq<T>)
    requires Inv(s) && s.producer == Taking(start, vals, got) && |got| == |vals|
    ensures var s' := ProduceStep(s, Go);
            s'.q == s.q && s'.producer.Idle? && s'.delivered == s.delivered + multiset(vals)
  {
    assert got == vals;
  }

  // ------------------------------------------------------------------ which pushes are safe

  /** A push is called when its test is safe (`PushTest.TestIsSafeIff`). */
  ghost predicate SafeEvent<T>(s: State<T>, e: Event<T>)
    requires Inv(s)
  {
    e.Produce? && e.action.Push? && s.producer.Idle? ==> SafeToPush(MarksOf(s.q), Newest(s.q).cap)
  }

  ghost predicate SafePushes<T>(s: State<T>, events: seq<Event<T>>)
    requires Inv(s)
    decreases |events|
  {
    events == [] || (SafeEvent(s, events[0]) && SafePushes(Step(s, events[0]), events[1..]))
  }

  /** A push that is under way cannot run out of room. */
  predicate Roomy<T>(q: Shared<T>, p: Producer<T>)
    requires 0 < |q.versions|
  {
    match p
    case PushLoad(_, _) => SafeToPush(MarksOf(q), Newest(q).cap)
    case Pushing(_) => q.tail < q.seen + Newest(q).cap
    case _ => true
  }

  lemma RoomyProduce<T>(q: Shared<T>, p: Producer<T>, a: Action<T>)
    requires SharedInv(q) && ProducerInv(q, p) && Roomy(q, p)
    requires a.Push? && p.Idle? ==> SafeToPush(MarksOf(q), Newest(q).cap)
    ensures LostBy(q, p, a) == multiset{}
    ensures var o := ProducerStep(q, p, a); 0 < |o.q.versions| && Roomy(o.q, o.producer)
  {
    assert VersionInv(Newest(q), q.head, q.log);
  }

  /** Consumers move the head on and leave the producer alone. */
  lemma ConsumersLeave<T>(s: State<T>, e: Event<T>)
    requires Inv(s) && !e.Produce?
    ensures var s' := Step(s, e); s'.q == s.q.(head := s'.q.head) && s'.producer == s.producer && s'.lost == s.lost
  {
  }

  lemma RoomyStep<T>(s: State<T>, e: Event<T>)
    requires Inv(s) && Roomy(s.q, s.producer) && SafeEvent(s, e)
    ensures Roomy(Step(s, e).q, Step(s, e).producer) && Step(s, e).lost == s.lost
  {
    if e.Produce? {
      RoomyProduce(s.q, s.producer, e.action);
      assert Step(s, e) == ProduceStep(s, e.action);
    } else {
      ConsumersLeave(s, e);
    }
  }

  /** Then no run stores over an element, whatever the consumers do. */
  lemma {:induction false} SafeRun<T>(s: State<T>, events: seq<Event<T>>)
    requires Inv(s) && Roomy(s.q, s.producer) && SafePushes(s, events)
    ensures Run(s, events).lost == s.lost
    decreases |events|
  {
    if events != [] {
      RoomyStep(s, events[0]);
      SafeRun(Step(s, events[0]), events[1..]);
    }
  }

  predicate NoPushes<T>(events: seq<Event<T>>) {
    forall k: nat {:trigger events[k]} :: k < |events| && events[k].Produce? ==> !events[k].action.Push?
  }

  lemma {:induction false} NoPushIsSafe<T>(s: State<T>, events: seq<Event<T>>)
    requires Inv(s) && NoPushes(events)
    ensures SafePushes(s, events)
    decreases |events|
  {
    if events != [] {
      assert forall k: nat :: k < |events[1..]| ==> events[1..][k] == events[k + 1];
      NoPushIsSafe(Step(s, events[0]), events[1..]);
    }
  }

  /** Exactly the unsafe pushes can lose an element: with the head where the producer has observed it,
      a call of either push can be continued to a store over an element that nobody took exactly
      when it is not safe. */
  lemma PushLosesIff<T>(s: State<T>, value: T, test: Test)
    requires Inv(s) && s.producer.Idle? && s.lost == multiset{} && s.q.head == s.q.seen
    ensures (exists events: seq<Event<T>> ::
               NoPushes(events) && Run(Step(s, Produce(Push(value, test))), events).lost != multiset{})
       <==> !SafeToPush(MarksOf(s.q), Newest(s.q).cap)
  {
    var s' := Step(s, Produce(Push(value, test)));
    if SafeToPush(MarksOf(s.q), Newest(s.q).cap) {
      RoomyStep(s, Produce(Push(value, test)));
      forall events: seq<Event<T>> | NoPushes(events) ensures Run(s', events).lost == multiset{} {
        NoPushIsSafe(s', events);
        SafeRun(s', events);
      }
    } else {
      var events := UnsafePushLoses(s, value, test);
    }
  }

  lemma StoreLoses<T>(s: State<T>, go: seq<Event<T>>)
    requires Inv(s) && s.producer.Pushing? && s.q.tail == s.q.head + Newest(s.q).cap && go == [Produce(Go)]
    ensures Run(s, go).lost != multiset{}
  {
    var s' := Step(s, go[0]);
    assert VersionInv(Newest(s.q), s.q.head, s.q.log);
    assert s.q.log[s.q.head] in s'.lost;
    assert go[1..] == [];
    assert Run(s', []) == s';
  }

  lemma CallGoes<T>(s: State<T>, value: T, test: Test)
    requires Inv(s) && s.producer.Idle?
    ensures var s' := Step(s, Produce(Push(value, test)));
            && s'.q == s.q
            && s'.producer == if Fires(test, MarksOf(s.q), Newest(s.q).cap) then PushLoad(value, test)
                              else Pushing(value)
  {
  }

  lemma LoadGoes<T>(s: State<T>)
    requires Inv(s) && s.producer.PushLoad? && s.q.head != s.q.cached
    ensures var s' := Step(s, Produce(Go)); s'.q == Cache(s.q, s.q.head) && s'.producer.Pushing?
  {
  }

  lemma LoadLoses<T>(s: State<T>, go: seq<Event<T>>)
    requires Inv(s) && s.producer.PushLoad? && s.q.head != s.q.cached
    requires s.q.tail == s.q.head + Newest(s.q).cap && go == [Produce(Go)]
    ensures Run(s, go + go).lost != multiset{}
  {
    LoadGoes(s);
    var s' := Step(s, go[0]);
    StoreLoses(s', go);
    RunConcat(s, go, go);
    assert go[1..] == [] && Run(s', []) == s';
  }

  lemma GoIsNoPush<T>(go: seq<Event<T>>)
    requires go == [Produce(Go)]
    ensures NoPushes(go) && NoPushes(go + go)
  {
  }

  lemma UnsafeIsFull<T>(q: Shared<T>)
    requires SharedInv(q) && q.head == q.seen && !SafeToPush(MarksOf(q), Newest(q).cap)
    ensures q.tail == q.head + Newest(q).cap && q.cached < q.head
  {
  }

  /** With no slot free, from after the test or after the load. */
  lemma FullPushLoses<T>(s: State<T>) returns (events: seq<Event<T>>)
    requires Inv(s) && s.q.tail == s.q.head + Newest(s.q).cap
    requires s.producer.Pushing? || (s.producer.PushLoad? && s.q.head != s.q.cached)
    ensures NoPushes(events) && Run(s, events).lost != multiset{}
  {
    events := [Produce(Go)];
    GoIsNoPush(events);
    if s.producer.Pushing? {
      StoreLoses(s, events);
    } else {
      LoadLoses(s, events);
      events := events + events;
    }
  }

  lemma UnsafePushLoses<T>(s: State<T>, value: T, test: Test) returns (events: seq<Event<T>>)
    requires Inv(s) && s.producer.Idle? && s.q.head == s.q.seen && !SafeToPush(MarksOf(s.q), Newest(s.q).cap)
    ensures NoPushes(events) && Run(Step(s, Produce(Push(value, test))), events).lost != multiset{}
  {
    CallGoes(s, value, test);
    UnsafeIsFull(s.q);
    events := FullPushLoses(Step(s, Produce(Push(value, test))));
  }

  // ------------------------------------------------------------------ conservation

  /** Conservation: up to the first store over an element, what was published is still unclaimed,
      taken by the producer and not handed over yet, in the hands of a thief, or delivered to a
      caller or another queue; and nothing else. With pushes that are safe when they are called there
      is no such store. */
  lemma Conservation<T>(memory: seq<T>, least: nat, events: seq<Event<T>>)
    requires 0 < |memory|
    ensures var s := RunFrom(memory, least, events);
            && s.q.head <= |s.q.log|
            && multiset(s.q.log) == multiset(s.q.log[s.q.head..])
                                    + Held(s.producer) + Total(Hands(s.consumers)) + s.delivered
            && (SafePushes(Init(memory, least), events) ==> s.lost == multiset{})
  {
    var s := RunFrom(memory, least, events);
    AllOfTheLog(s);
    if SafePushes(Init(memory, least), events) { SafeRun(Init(memory, least), events); }
  }

  lemma AllOfTheLog<T>(s: State<T>)
    requires Inv(s)
    ensures s.q.head <= |s.q.log|
    ensures multiset(s.q.log) == multiset(s.q.log[s.q.head..])
                                 + Held(s.producer) + Total(Hands(s.consumers)) + s.delivered
  {
    assert s.q.log == s.q.log[..s.q.head] + s.q.log[s.q.head..];
  }

  // ------------------------------------------------------------------ lock-freedom

  function Tries<T>(pc: Pc<T>): nat {
    match pc
    case Rest => 0
    case LoadHead(_, tries) => tries
    case LoadWord(_, _, tries) => tries
    case Update(_, _, _, _, tries) => tries
    case Copy(_, _, _, _, _, tries) => tries
    case Handing(_, tries) => tries
  }

  /** Steps left in the attempt, as long as the producer publishes nothing. */
  function Left<T>(tail: nat, pc: Pc<T>): int {
    match pc
    case Rest => 0
    case LoadHead(_, _) => tail + 3
    case LoadWord(_, _, _) => tail + 2
    case Update(_, _, _, _, _) => tail + 1
    case Copy(_, _, _, n, copied, _) => n - |copied| + 1
    case Handing(_, _) => 0
  }

  predicate Less(a: (int, int, int), b: (int, int, int)) {
    && 0 <= a.0 && 0 <= a.1 && 0 <= a.2
    && (a.0 < b.0 || (a.0 == b.0 && (a.1 < b.1 || (a.1 == b.1 && a.2 < b.2))))
  }

  /** Attempts that the values published so far can still cost, versions to catch up with, steps. */
  function Work<T>(q: Shared<T>, c: Consumer<T>): (int, int, int) {
    (q.tail - Tries(c.pc), NewestId(q) - c.version, Left(q.tail, c.pc))
  }

  /** A call is lock-free: each of its steps ends it or leaves less work, and what the other
      consumers do meanwhile does not add to the work. Only the producer can, by publishing. */
  lemma CallsEnd<T>(s: State<T>, c: nat, locked: bool)
    requires Inv(s) && c < |s.consumers| && !s.consumers[c].pc.Rest?
    ensures var s' := Step(s, Consume(c, locked));
            && |s'.consumers| == |s.consumers|
            && (s'.consumers[c].pc.Rest? || Less(Work(s'.q, s'.consumers[c]), Work(s.q, s.consumers[c])))
            && forall d: nat {:trigger s.consumers[d]} :: d < |s.consumers| && d != c ==>
                 Work(s'.q, s'.consumers[d]) == Work(s.q, s.consumers[d])
  {
    var (after, n) := ConsumerStep(s.q, s.consumers[c], s.least, locked);
    StepLeavesLess(s.q, s.consumers[c], s.least, locked);
    ConsumedWork(s, c, after, n, DeliveredBy(s.q, s.consumers[c]));
    assert Step(s, Consume(c, locked)) == ConsumeStep(s, c, locked);
  }

  lemma ConsumedWork<T>(s: State<T>, c: nat, after: Consumer<T>, n: nat, out: seq<T>)
    requires c < |s.consumers|
    ensures var s' := Consumed(s, c, after, n, out);
            && |s'.consumers| == |s.consumers| && s'.consumers[c] == after
            && Work(s'.q, after) == Work(s.q, after)
            && forall d: nat {:trigger s.consumers[d]} :: d < |s.consumers| && d != c ==>
                 Work(s'.q, s'.consumers[d]) == Work(s.q, s.consumers[d])
  {
  }

  lemma StepLeavesLess<T>(q: Shared<T>, c: Consumer<T>, least: nat, locked: bool)
    requires SharedInv(q) && ConsumerInv(q, c) && !c.pc.Rest?
    ensures var c' := ConsumerStep(q, c, least, locked).0;
            c'.pc.Rest? || Less(Work(q, c'), Work(q, c))
  {
    if c.pc.LoadWord? { assert VersionInv(q.versions[c.version], q.head, q.log); }
  }

  /** Every retry is paid for by a value that someone else claimed. */
  lemma RetriesBounded<T>(s: State<T>, c: nat)
    requires Inv(s) && c < |s.consumers|
    ensures Tries(s.consumers[c].pc) <= s.q.head <= |s.q.log|
  {
    assert ConsumerInv(s.q, s.consumers[c]);
  }
}
