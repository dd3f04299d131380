/**
 The bounded single-producer single-consumer queue (src/spsc/const_bounded.rs). Each side works
 from its own cached copy of the counter of the other side, and loads the other counter only when
 the copy does not promise enough.

 A step is one shared access: a load or store of a counter, or one element of a copy. The stores
 and loads of the caches and of the own counter are private to a side and go with the step. A run is
 followed up to the first store of a push over an element that was not popped (`lost`).
 */
module SpscBounded {
  import opened Ring
  import opened PushTest

  /** `log` has the values in the order in which they were pushed. */
  datatype Queue<T> = Queue(cap: nat, head: nat, tail: nat, cachedHead: nat, cachedTail: nat, buf: seq<T>, log: seq<T>)

  datatype Producer<T> =
    | Idle
    | Reload(slice: seq<T>, single: bool)
    | Pushing(value: T)
    | Storing(slice: seq<T>, k: nat, commit: bool)

  datatype Op = Pop(max: nat) | Steal

  datatype Consumer<T> =
    | Rest
    | LoadTail(op: Op)
    | Copying(op: Op, n: nat, copied: seq<T>)

  datatype State<T> = State(q: Queue<T>, producer: Producer<T>, consumer: Consumer<T>, least: nat, popped: seq<T>,
                            lost: multiset<T>)

  /** Calls, and the next step of a call. The caller of an unchecked push, and of
      `copy_and_commit_if`, answers for the room; the second slice of the latter comes first. */
  datatype Event<T> =
    | MaybePush(value: T)
    | MaybePushMany(slice: seq<T>)
    | PushManyUnchecked(first: seq<T>, last: seq<T>)
    | CopyAndCommitIf(left: seq<T>, right: seq<T>, condition: bool)
    | ProducerLen
    | ProducerGo
    | Start(op: Op)
    | ConsumerLen
    | ConsumerGo

  // ------------------------------------------------------------------ the invariant

  /** The order of the counters and of their cached copies; the live slots hold the log. */
  ghost predicate QueueInv<T>(q: Queue<T>) {
    && 0 < q.cap == |q.buf|
    && q.cachedHead <= q.head <= q.cachedTail <= q.tail <= q.head + q.cap
    && q.tail == |q.log|
    && (forall p: nat {:trigger Slot(p, q.cap)} :: q.head <= p < q.tail ==> q.buf[Slot(p, q.cap)] == q.log[p])
  }

  /** The test of the code. */
  predicate Fits<T>(q: Queue<T>, n: nat) {
    q.tail + n <= q.cachedHead + q.cap
  }

  predicate HasRoom<T>(q: Queue<T>, n: nat) {
    q.tail + n <= q.head + q.cap
  }

  function MarksOf<T>(q: Queue<T>): Marks {
    Marks(q.cachedHead, q.cachedHead, q.tail)
  }

  ghost predicate ProducerInv<T>(q: Queue<T>, p: Producer<T>)
    requires 0 < q.cap == |q.buf|
  {
    match p
    case Idle => true
    case Reload(slice, single) => !Fits(q, |slice|) && (single ==> |slice| == 1)
    case Pushing(_) => true
    case Storing(slice, k, _) => HasRoom(q, |slice|) && k <= |slice| && StoredAt(q.buf, q.cap, q.tail, slice[..k])
  }

  ghost predicate ConsumerInv<T>(q: Queue<T>, c: Consumer<T>)
    requires 0 < q.cap
  {
    match c
    case Copying(op, n, copied) =>
      && |copied| <= n && q.head + n <= q.cachedTail && q.head + n <= |q.log|
      && forall j: nat {:trigger copied[j]} :: j < |copied| ==>
           copied[j] == q.log[q.head + CopyOffset(op.Steal?, j, n, q.head, q.cap)]
    case _ => true
  }

  // ------------------------------------------------------------------ the producer

  /** The test before the load of the head; for one value it reads `len >= capacity`. */
  function CallPush<T>(q: Queue<T>, slice: seq<T>, single: bool): Producer<T> {
    if Fits(q, |slice|) then Storing(slice, 0, true) else Reload(slice, single)
  }

  function SeeHead<T>(q: Queue<T>): Queue<T> {
    q.(cachedHead := q.head)
  }

  /** After the load: a single push only looks whether the head has moved. */
  function AfterReload<T>(q: Queue<T>, slice: seq<T>, single: bool): Producer<T>
    requires single ==> |slice| == 1
  {
    if single then (if q.head == q.cachedHead then Idle else Pushing(slice[0]))
    else if Fits(SeeHead(q), |slice|) then Storing(slice, 0, true)
    else Idle
  }

  function StoreOne<T>(q: Queue<T>, slice: seq<T>, k: nat): Queue<T>
    requires 0 < q.cap == |q.buf| && k < |slice|
  {
    q.(buf := q.buf[Slot(q.tail + k, q.cap) := slice[k]])
  }

  function Publish<T>(q: Queue<T>, slice: seq<T>): Queue<T> {
    q.(tail := q.tail + |slice|, log := q.log + slice)
  }

  function ProducerStep<T>(q: Queue<T>, p: Producer<T>): (Queue<T>, Producer<T>)
    requires 0 < q.cap == |q.buf| && ProducerInv(q, p)
  {
    match p
    case Idle => (q, p)
    case Reload(slice, single) => (SeeHead(q), AfterReload(q, slice, single))
    case Pushing(value) =>
      if HasRoom(q, 1) then (StoreOne(q, [value], 0), Storing([value], 1, true)) else (q, p)
    case Storing(slice, k, commit) =>
      if k < |slice| then (StoreOne(q, slice, k), Storing(slice, k + 1, commit))
      else (if commit then Publish(q, slice) else q, Idle)
  }

  /** The store of a push with no slot free puts its value over the oldest element, which nobody popped.
      From there on the machine, in which the push waits, says nothing about the code. */
  function LostBy<T>(q: Queue<T>, p: Producer<T>): multiset<T>
    requires QueueInv(q)
  {
    if p.Pushing? && !HasRoom(q, 1) then multiset{q.log[q.head]} else multiset{}
  }

  /** What the consumer can rely on. */
  ghost predicate ProducerMoves<T>(q: Queue<T>, q': Queue<T>) {
    && q'.cap == q.cap && q'.head == q.head && q'.cachedTail == q.cachedTail && q.log <= q'.log
  }

  lemma StoreOneOk<T>(q: Queue<T>, slice: seq<T>, k: nat, commit: bool)
    requires QueueInv(q) && ProducerInv(q, Storing(slice, k, commit)) && k < |slice|
    ensures var q' := StoreOne(q, slice, k);
            QueueInv(q') && ProducerInv(q', Storing(slice, k + 1, commit))
  {
    forall p: nat | q.head <= p < q.tail + k ensures Slot(p, q.cap) != Slot(q.tail + k, q.cap) {
      SlotsDiffer(p, q.tail + k, q.cap);
    }
  }

  lemma PublishOk<T>(q: Queue<T>, slice: seq<T>, commit: bool)
    requires QueueInv(q) && ProducerInv(q, Storing(slice, |slice|, commit))
    ensures QueueInv(Publish(q, slice))
  {
    assert slice[..|slice|] == slice;
  }

  lemma ProducerStepOk<T>(q: Queue<T>, p: Producer<T>)
    requires QueueInv(q) && ProducerInv(q, p)
    ensures var (q', p') := ProducerStep(q, p);
            QueueInv(q') && ProducerInv(q', p') && ProducerMoves(q, q')
  {
    if p.Storing? {
      if p.k < |p.slice| { StoreOneOk(q, p.slice, p.k, p.commit); } else { PublishOk(q, p.slice, p.commit); }
    } else if p.Pushing? && HasRoom(q, 1) {
      StoreOneOk(q, [p.value], 0, true);
    }
  }

  // ------------------------------------------------------------------ the consumer

  /** How much to copy of what the cached tail promises. */
  function Decide<T>(q: Queue<T>, op: Op, least: nat): Consumer<T> {
    match op
    case Pop(max) =>
      var n := Min(max, q.cachedTail - q.head);
      if n <= 0 then Rest else Copying(op, n, [])
    case Steal =>
      var n := (q.cachedTail - q.head) / 2;
      if n < least || n <= 0 then Rest else Copying(op, n, [])
  }

  /** A steal always loads the tail, a pop only when the cached one promises too little. */
  function CallTake<T>(q: Queue<T>, op: Op, least: nat): Consumer<T> {
    if op.Steal? || q.cachedTail - q.head < op.max then LoadTail(op) else Decide(q, op, least)
  }

  function SeeTail<T>(q: Queue<T>): Queue<T> {
    q.(cachedTail := q.tail)
  }

  function CopyOne<T>(q: Queue<T>, op: Op, n: nat, copied: seq<T>): Consumer<T>
    requires 0 < q.cap == |q.buf| && |copied| < n
  {
    Copying(op, n, copied + [q.buf[Slot(q.head + CopyOffset(op.Steal?, |copied|, n, q.head, q.cap), q.cap)]])
  }

  /** The next step of the consumer: queue, consumer, and the values that it hands over. */
  function ConsumerStep<T>(q: Queue<T>, c: Consumer<T>, least: nat): (Queue<T>, Consumer<T>, seq<T>)
    requires 0 < q.cap == |q.buf|
  {
    match c
    case Rest => (q, c, [])
    case LoadTail(op) => (SeeTail(q), Decide(SeeTail(q), op, least), [])
    case Copying(op, n, copied) =>
      if |copied| < n then (q, CopyOne(q, op, n, copied), [])
      else (q.(head := q.head + n), Rest, copied)
  }

  /** What the producer can rely on. */
  ghost predicate ConsumerMoves<T>(q: Queue<T>, q': Queue<T>) {
    && q' == q.(head := q'.head, cachedTail := q'.cachedTail)
    && q.head <= q'.head <= q'.cachedTail <= q.tail
  }

  lemma CopiedIsLog<T>(q: Queue<T>, op: Op, n: nat, copied: seq<T>)
    requires QueueInv(q) && ConsumerInv(q, Copying(op, n, copied)) && |copied| == n
    ensures copied == Expected(q.log, op.Steal?, q.head, n, q.cap)
  {
    CopiedIsExpected(q.log, op.Steal?, q.head, copied, q.cap);
  }

  lemma CopyOneOk<T>(q: Queue<T>, op: Op, n: nat, copied: seq<T>)
    requires QueueInv(q) && ConsumerInv(q, Copying(op, n, copied)) && |copied| < n
    ensures ConsumerInv(q, CopyOne(q, op, n, copied))
  {
  }

  lemma ConsumerStepOk<T>(q: Queue<T>, c: Consumer<T>, least: nat)
    requires QueueInv(q) && ConsumerInv(q, c)
    ensures var (q', c', _) := ConsumerStep(q, c, least);
            QueueInv(q') && ConsumerInv(q', c') && ConsumerMoves(q, q')
  {
    if c.Copying? && |c.copied| < c.n { CopyOneOk(q, c.op, c.n, c.copied); }
  }

  lemma ProducerInvSurvives<T>(q: Queue<T>, q': Queue<T>, p: Producer<T>)
    requires 0 < q.cap == |q.buf| && ProducerInv(q, p) && ConsumerMoves(q, q')
    ensures ProducerInv(q', p)
  {
  }

  lemma ConsumerInvSurvives<T>(q: Queue<T>, q': Queue<T>, c: Consumer<T>)
    requires 0 < q.cap && ConsumerInv(q, c) && ProducerMoves(q, q')
    ensures ConsumerInv(q', c)
  {
  }

  // ------------------------------------------------------------------ the machine

  ghost predicate Inv<T>(s: State<T>) {
    && QueueInv(s.q) && ProducerInv(s.q, s.producer) && ConsumerInv(s.q, s.consumer)
    && multiset(s.popped) == multiset(s.q.log[..s.q.head])
  }

  /** Only `maybe_push` and `maybe_push_many` decide for themselves. */
  function CallUnchecked<T>(q: Queue<T>, slice: seq<T>, commit: bool): Producer<T> {
    if HasRoom(q, |slice|) then Storing(slice, 0, commit) else Idle
  }

  function Called<T>(s: State<T>, p: Producer<T>): State<T> {
    if s.producer.Idle? then s.(producer := p) else s
  }

  function ProducerGoes<T>(s: State<T>): State<T>
    requires Inv(s)
  {
    var (q, p) := ProducerStep(s.q, s.producer);
    s.(q := q, producer := p, lost := s.lost + LostBy(s.q, s.producer))
  }

  function ConsumerGoes<T>(s: State<T>): State<T>
    requires Inv(s)
  {
    var (q, c, out) := ConsumerStep(s.q, s.consumer, s.least);
    s.(q := q, consumer := c, popped := s.popped + out)
  }

  function Next<T>(s: State<T>, e: Event<T>): State<T>
    requires Inv(s)
  {
    match e
    case MaybePush(value) => Called(s, CallPush(s.q, [value], true))
    case MaybePushMany(slice) => Called(s, CallPush(s.q, slice, false))
    case PushManyUnchecked(first, last) => Called(s, CallUnchecked(s.q, first + last, true))
    case CopyAndCommitIf(left, right, condition) => Called(s, CallUnchecked(s.q, right + left, condition))
    case ProducerLen => if s.producer.Idle? then s.(q := SeeHead(s.q)) else s
    case ProducerGo => ProducerGoes(s)
    case Start(op) => if s.consumer.Rest? then s.(consumer := CallTake(s.q, op, s.least)) else s
    case ConsumerLen => if s.consumer.Rest? then s.(q := SeeTail(s.q)) else s
    case ConsumerGo => ConsumerGoes(s)
  }

  lemma CallOk<T>(s: State<T>, p: Producer<T>)
    requires Inv(s) && ProducerInv(s.q, p)
    ensures Inv(Called(s, p))
  {
  }

  lemma ProducerGoesOk<T>(s: State<T>)
    requires Inv(s)
    ensures Inv(ProducerGoes(s))
  {
    ProducerStepOk(s.q, s.producer);
    ConsumerInvSurvives(s.q, ProducerGoes(s).q, s.consumer);
    assert ProducerGoes(s).q.log[..s.q.head] == s.q.log[..s.q.head];
  }

  /** What a step of the consumer hands over are the values that its step moves the head over. */
  lemma OutIsClaimed<T>(s: State<T>)
    requires Inv(s)
    ensures var (q', _, out) := ConsumerStep(s.q, s.consumer, s.least);
            && s.q.head + |out| == q'.head <= |s.q.log|
            && (|out| > 0 ==>
                  s.consumer.Copying?
                  && out == Expected(s.q.log, s.consumer.op.Steal?, s.q.head, |out|, s.q.cap))
            && multiset(out) == multiset(s.q.log[s.q.head..q'.head])
  {
    if s.consumer.Copying? && |s.consumer.copied| == s.consumer.n {
      CopiedIsLog(s.q, s.consumer.op, s.consumer.n, s.consumer.copied);
      ExpectedKeepsValues(s.q.log, s.consumer.op.Steal?, s.q.head, s.consumer.n, s.q.cap);
    }
  }

  lemma ConsumerGoesOk<T>(s: State<T>)
    requires Inv(s)
    ensures Inv(ConsumerGoes(s))
  {
    var s' := ConsumerGoes(s);
    ConsumerStepOk(s.q, s.consumer, s.least);
    ProducerInvSurvives(s.q, s'.q, s.producer);
    OutIsClaimed(s);
    assert s.q.log[..s'.q.head] == s.q.log[..s.q.head] + s.q.log[s.q.head..s'.q.head];
  }

  lemma NextKeepsInv<T>(s: State<T>, e: Event<T>)
    requires Inv(s)
    ensures Inv(Next(s, e))
  {
    match e
    case MaybePush(value) => CallOk(s, CallPush(s.q, [value], true));
    case MaybePushMany(slice) => CallOk(s, CallPush(s.q, slice, false));
    case PushManyUnchecked(first, last) => CallOk(s, CallUnchecked(s.q, first + last, true));
    case CopyAndCommitIf(left, right, condition) => CallOk(s, CallUnchecked(s.q, right + left, condition));
    case ProducerGo => ProducerGoesOk(s);
    case ConsumerGo => ConsumerGoesOk(s);
    case _ =>
  }

  function Step<T>(s: State<T>, e: Event<T>): (s': State<T>)
    requires Inv(s)
    ensures Inv(s')
  {
    NextKeepsInv(s, e);
    Next(s, e)
  }

  function Run<T>(s: State<T>, events: seq<Event<T>>): (s': State<T>)
    requires Inv(s)
    ensures Inv(s')
    decreases |events|
  {
    if events == [] then s else Run(Step(s, events[0]), events[1..])
  }

  /** An empty queue over arbitrary memory. */
  function RunFrom<T>(memory: seq<T>, least: nat, events: seq<Event<T>>): (s: State<T>)
    requires 0 < |memory|
    ensures Inv(s)
  {
    Run(State(Queue(|memory|, 0, 0, 0, 0, memory, []), Idle, Rest, least, [], multiset{}), events)
  }

  // ------------------------------------------------------------------ what every run guarantees

  /** Each cached counter is behind the real one, and the producer never runs into unread values. */
  lemma CountersInOrder<T>(memory: seq<T>, least: nat, events: seq<Event<T>>)
    requires 0 < |memory|
    ensures var q := RunFrom(memory, least, events).q;
            q.cachedHead <= q.head <= q.cachedTail <= q.tail <= q.head + q.cap
  {
  }

  // ------------------------------------------------------------------ what calls decide

  /** The producer has this slice from its caller, and will publish it unless it refuses it. */
  ghost predicate Carries<T>(p: Producer<T>, slice: seq<T>) {
    match p
    case Idle => false
    case Reload(vals, _) => vals == slice
    case Pushing(v) => [v] == slice
    case Storing(vals, _, commit) => vals == slice && commit
  }

  /** Every call starts with its values; the unchecked ones if there is room, and
      `copy_and_commit_if` publishes them exactly if its condition holds. */
  lemma CallsCarry<T>(s: State<T>, e: Event<T>)
    requires Inv(s) && s.producer.Idle?
    ensures var p := Step(s, e).producer;
            && (e.MaybePush? ==> Carries(p, [e.value]))
            && (e.MaybePushMany? ==> Carries(p, e.slice))
            && (e.PushManyUnchecked? && HasRoom(s.q, |e.first + e.last|) ==> Carries(p, e.first + e.last))
            && (e.CopyAndCommitIf? && HasRoom(s.q, |e.right + e.left|) ==>
                  p == Storing(e.right + e.left, 0, e.condition))
  {
  }

  /** No push forgets its values: each step of one keeps them or publishes them, or, after its load of
      the head, refuses them (`RefusedIff`), or waits for room (`LostBy`). */
  lemma NoPushForgets<T>(s: State<T>, slice: seq<T>)
    requires Inv(s) && Carries(s.producer, slice)
    ensures var s' := Step(s, ProducerGo);
            || Carries(s'.producer, slice) || s'.q.log == s.q.log + slice
            || (s.producer.Reload? && s'.producer.Idle?)
  {
    ProducerStepOk(s.q, s.producer);
  }

  /** The start of a call loads the tail exactly for a steal, or for a pop that the cached tail does not
      promise enough; otherwise the pop goes for all it has space for. */
  lemma StartDecides<T>(s: State<T>, op: Op)
    requires Inv(s) && s.consumer.Rest?
    ensures var c := Step(s, Start(op)).consumer;
            && (c.LoadTail? <==> op.Steal? || s.q.cachedTail - s.q.head < op.max)
            && (c.LoadTail? ==> c.op == op)
            && (!c.LoadTail? && 0 < op.max ==> c == Copying(op, op.max, []))
  {
  }

  /** After the load of the tail a pop takes what it has space for or what is there, and a steal half of
      what is there, exactly if that is something and for a steal at least the minimum. */
  lemma LoadDecides<T>(s: State<T>, half: nat)
    requires Inv(s) && s.consumer.LoadTail? && half == (s.q.tail - s.q.head) / 2
    ensures var c, op := Step(s, ConsumerGo).consumer, s.consumer.op;
            && (c.Rest? <==> if op.Pop? then op.max == 0 || s.q.head == s.q.tail else half == 0 || half < s.least)
            && (!c.Rest? ==> c == Copying(op, if op.Pop? then Min(op.max, s.q.tail - s.q.head) else half, []))
  {
  }

  /** An unfinished copy goes on with one value more and nothing else changed. */
  lemma CopyGoesOn<T>(s: State<T>)
    requires Inv(s) && s.consumer.Copying? && |s.consumer.copied| < s.consumer.n
    ensures var s', copied := Step(s, ConsumerGo), s.consumer.copied;
            && s' == s.(consumer := s'.consumer) && s'.consumer.Copying?
            && s'.consumer == s.consumer.(copied := s'.consumer.copied)
            && |s'.consumer.copied| == |copied| + 1 && s'.consumer.copied[..|copied|] == copied
  {
  }

  // ------------------------------------------------------------------ which pushes are safe

  /** A single push is called when its test is safe (`PushTest.TestIsSafeIff`). */
  predicate SafeEvent<T>(s: State<T>, e: Event<T>) {
    e.MaybePush? && s.producer.Idle? ==> SafeToPush(MarksOf(s.q), s.q.cap)
  }

  ghost predicate SafePushes<T>(s: State<T>, events: seq<Event<T>>)
    requires Inv(s)
    decreases |events|
  {
    events == [] || (SafeEvent(s, events[0]) && SafePushes(Step(s, events[0]), events[1..]))
  }

  /** A push that is under way cannot run out of room. */
  predicate Roomy<T>(q: Queue<T>, p: Producer<T>) {
    match p
    case Reload(_, single) => single ==> SafeToPush(MarksOf(q), q.cap)
    case Pushing(_) => q.tail < q.cachedHead + q.cap
    case _ => true
  }

  lemma RoomyGo<T>(s: State<T>)
    requires Inv(s) && Roomy(s.q, s.producer)
    ensures var s' := ProducerGoes(s); Roomy(s'.q, s'.producer) && s'.lost == s.lost
  {
  }

  lemma RoomyStep<T>(s: State<T>, e: Event<T>)
    requires Inv(s) && Roomy(s.q, s.producer) && SafeEvent(s, e)
    ensures Roomy(Step(s, e).q, Step(s, e).producer) && Step(s, e).lost == s.lost
  {
    match e
    case ProducerGo => RoomyGo(s);
    case ConsumerGo => ConsumerStepOk(s.q, s.consumer, s.least);
    case _ =>
  }

  lemma {:induction false} SafeRun<T>(s: State<T>, events: seq<Event<T>>)
    requires Inv(s) && Roomy(s.q, s.producer) && SafePushes(s, events)
    ensures Run(s, events).lost == s.lost
    decreases |events|
  {
    if events != [] {
      RoomyStep(s, events[0]);
      SafeRun(Step(s, events[0]), events[1..]);
    }
  }

  /** With single pushes that are safe when they are called no run stores over an element. */
  lemma SafePushesLoseNothing<T>(memory: seq<T>, least: nat, events: seq<Event<T>>)
    requires 0 < |memory|
    requires SafePushes(State(Queue(|memory|, 0, 0, 0, 0, memory, []), Idle, Rest, least, [], multiset{}), events)
    ensures RunFrom(memory, least, events).lost == multiset{}
  {
    SafeRun(State(Queue(|memory|, 0, 0, 0, 0, memory, []), Idle, Rest, least, [], multiset{}), events);
  }

  /** In a full queue the steps of a single push lead to a store over the oldest element exactly when
      the push is not safe to call: `maybe_push` then takes the load of another head for room. */
  lemma PushLosesIff<T>(s: State<T>, value: T)
    requires Inv(s) && s.producer.Idle? && s.lost == multiset{} && !HasRoom(s.q, 1)
    ensures Step(Step(Step(s, MaybePush(value)), ProducerGo), ProducerGo).lost != multiset{}
       <==> !SafeToPush(MarksOf(s.q), s.q.cap)
  {
    var called := Step(s, MaybePush(value));
    var loaded := Step(called, ProducerGo);
    if !SafeToPush(MarksOf(s.q), s.q.cap) {
      assert loaded.producer == Pushing([value][0]) && !HasRoom(loaded.q, 1);
      assert loaded.q.log[loaded.q.head] in Step(loaded, ProducerGo).lost;
    } else {
      RoomyStep(s, MaybePush(value));
      RoomyStep(called, ProducerGo);
      RoomyStep(loaded, ProducerGo);
    }
  }

  predicate PopsOnly<T>(events: seq<Event<T>>) {
    forall k: nat {:trigger events[k]} :: k < |events| && events[k].Start? ==> events[k].op.Pop?
  }

  predicate Popping<T>(c: Consumer<T>) {
    c.Rest? || (c.LoadTail? && c.op.Pop?) || (c.Copying? && c.op.Pop?)
  }

  ghost predicate InOrder<T>(s: State<T>)
    requires Inv(s)
  {
    s.popped == s.q.log[..s.q.head] && Popping(s.consumer)
  }

  lemma StepKeepsOrder<T>(s: State<T>, e: Event<T>)
    requires Inv(s) && InOrder(s) && (e.Start? ==> e.op.Pop?)
    ensures InOrder(Step(s, e))
  {
    match e
    case ProducerGo => ProducerGoKeepsOrder(s);
    case ConsumerGo => ConsumerGoKeepsOrder(s);
    case _ =>
  }

  lemma ProducerGoKeepsOrder<T>(s: State<T>)
    requires Inv(s) && InOrder(s)
    ensures InOrder(Step(s, ProducerGo))
  {
    ProducerStepOk(s.q, s.producer);
  }

  lemma ConsumerGoKeepsOrder<T>(s: State<T>)
    requires Inv(s) && InOrder(s)
    ensures InOrder(Step(s, ConsumerGo))
  {
    OutIsClaimed(s);
    var (q', _, out) := ConsumerStep(s.q, s.consumer, s.least);
    assert s.q.log[..q'.head] == s.q.log[..s.q.head] + s.q.log[s.q.head..q'.head];
  }

  lemma {:induction false} RunKeepsOrder<T>(s: State<T>, events: seq<Event<T>>)
    requires Inv(s) && InOrder(s) && PopsOnly(events)
    ensures InOrder(Run(s, events))
    decreases |events|
  {
    if events != [] {
      StepKeepsOrder(s, events[0]);
      assert forall k: nat :: k < |events[1..]| ==> events[1..][k] == events[k + 1];
      RunKeepsOrder(Step(s, events[0]), events[1..]);
    }
  }

  /** First-in first-out in every interleaving: the values popped followed by the values in the
      buffer from head to tail are the values pushed, in order. */
  lemma Fifo<T>(memory: seq<T>, least: nat, events: seq<Event<T>>, s: State<T>)
    requires 0 < |memory| && s == RunFrom(memory, least, events) && PopsOnly(events)
    ensures s.q.head <= s.q.tail && s.popped + ReadRange(s.q.buf, s.q.head, s.q.tail - s.q.head) == s.q.log
  {
    RunKeepsOrder(State(Queue(|memory|, 0, 0, 0, 0, memory, []), Idle, Rest, least, [], multiset{}), events);
    assert ReadRange(s.q.buf, s.q.head, s.q.tail - s.q.head) == s.q.log[s.q.head..];
  }

  /** With steals as well nothing is lost and nothing comes twice. */
  lemma Conservation<T>(memory: seq<T>, least: nat, events: seq<Event<T>>, s: State<T>)
    requires 0 < |memory| && s == RunFrom(memory, least, events)
    ensures s.q.head <= s.q.tail
    ensures multiset(s.popped) + multiset(ReadRange(s.q.buf, s.q.head, s.q.tail - s.q.head)) == multiset(s.q.log)
  {
    assert ReadRange(s.q.buf, s.q.head, s.q.tail - s.q.head) == s.q.log[s.q.head..];
    assert s.q.log == s.q.log[..s.q.head] + s.q.log[s.q.head..];
  }

  /** What the last step of a pop or steal hands over: the oldest values, in order or in the order
      of the pieces; it takes what was promised and no more than the queue holds. */
  lemma HandsOverOldest<T>(memory: seq<T>, least: nat, events: seq<Event<T>>, s: State<T>)
    requires 0 < |memory| && s == RunFrom(memory, least, events)
    requires s.consumer.Copying? && |s.consumer.copied| == s.consumer.n
    ensures var s', Copying(op, n, _) := Step(s, ConsumerGo), s.consumer;
            && s.q.head + n <= s.q.tail == |s.q.log| && n <= s.q.cap && s'.q == s.q.(head := s.q.head + n)
            && s'.popped == s.popped + Expected(s.q.log, op.Steal?, s.q.head, n, s.q.cap)
  {
    CopiedIsLog(s.q, s.consumer.op, s.consumer.n, s.consumer.copied);
  }

  /** A push is refused exactly when its load of the head finds too little room; a single push is when
      it was safe to call. */
  lemma RefusedIff<T>(memory: seq<T>, least: nat, events: seq<Event<T>>, s: State<T>)
    requires 0 < |memory| && s == RunFrom(memory, least, events) && s.producer.Reload?
    ensures (s.producer.single ==> SafeToPush(MarksOf(s.q), s.q.cap)) ==>
              (Step(s, ProducerGo).producer.Idle? <==> s.q.tail + |s.producer.slice| > s.q.head + s.q.cap)
  {
  }

  /** A pop that loaded the tail returns nothing exactly when the queue is empty at that moment, or
      when it has no space to fill. */
  lemma EmptyIff<T>(memory: seq<T>, least: nat, events: seq<Event<T>>, s: State<T>)
    requires 0 < |memory| && s == RunFrom(memory, least, events) && s.consumer.LoadTail? && s.consumer.op.Pop?
    ensures Step(s, ConsumerGo).consumer.Rest? <==> s.q.head == s.q.tail || s.consumer.op.max == 0
  {
  }

  // ------------------------------------------------------------------ the code of both sides

  /** The code works in bulk on the same state. Before and after each access to a counter of the
      other side, and before and after the store of its own counter by a consumer, the other side
      takes steps of the machine. */
  class SpscBoundedQueue<T(0)> {
    const capacity: nat
    const buffer: array<T>
    var tail: nat
    var cachedTail: nat
    var head: nat
    var cachedHead: nat
    ghost var log: seq<T>

    ghost function View(): Queue<T>
      reads this, buffer
    {
      Queue(capacity, head, tail, cachedHead, cachedTail, buffer[..], log)
    }

    ghost predicate Valid()
      reads this, buffer
    {
      QueueInv(View())
    }

    /** The single push is safe (`PushTest.TestIsSafeIff`). */
    ghost predicate CanPush()
      reads this
    {
      SafeToPush(Marks(cachedHead, cachedHead, tail), capacity)
    }

    constructor (cap: nat)
      requires 0 < cap
      ensures Valid() && CanPush() && fresh(buffer) && capacity == cap && head == tail == 0 && log == []
    {
      capacity := cap;
      buffer := new T[cap];
      tail, cachedTail, head, cachedHead := 0, 0, 0, 0;
      log := [];
    }

    // ---------------------------------------------------------------- what the other side does

    method ConsumerInterferes()
      requires Valid()
      modifies `head, `cachedTail
      ensures Valid() && ConsumerMoves(old(View()), View())
    {
      var loads: bool := *;
      if loads {
        cachedTail := tail;
      }
      var h: nat :| head <= h <= cachedTail;
      head := h;
    }

    method ProducerInterferes()
      requires Valid()
      modifies `tail, `cachedHead, `log, buffer
      ensures Valid() && ProducerMoves(old(View()), View()) && old(tail) <= tail
    {
      var moves: nat := *;
      while moves > 0
        invariant Valid() && ProducerMoves(old(View()), View()) && old(tail) <= tail
      {
        var loads: bool, slice: seq<T> := *, *;
        if loads {
          cachedHead := head;
        } else if tail + |slice| <= head + capacity {
          PushSlice(slice);
        }
        moves := moves - 1;
      }
    }

    // ---------------------------------------------------------------- the producer

    /** A bulk store behind the tail. */
    method CopyBehindTail(start: nat, slice: seq<T>) returns (newTail: nat)
      requires Valid() && tail <= start && start + |slice| <= head + capacity
      modifies buffer
      ensures Valid() && newTail == start + |slice|
      ensures buffer[..] == WriteRange(old(buffer[..]), start, slice)
    {
      WrittenSlots(buffer[..], start, slice);
      newTail := CopySlice(buffer, start, slice);
    }

    method StoreTail(newTail: nat, ghost slice: seq<T>)
      requires Valid() && newTail == tail + |slice| <= head + capacity
      requires ReadRange(buffer[..], tail, |slice|) == slice
      modifies `tail, `log
      ensures Valid() && View() == Publish(old(View()), slice)
    {
      log := log + slice;
      tail := newTail;
    }

    method PushSlice(slice: seq<T>)
      requires Valid() && tail + |slice| <= head + capacity
      modifies `tail, `log, buffer
      ensures Valid() && tail == old(tail) + |slice| && log == old(log) + slice
    {
      RoundTrip(buffer[..], tail, slice);
      var newTail := CopyBehindTail(tail, slice);
      StoreTail(newTail, slice);
    }

    method ProducerLen() returns (len: nat)
      requires Valid()
      modifies `head, `cachedTail, `cachedHead
      ensures Valid() && CanPush() && old(head) <= cachedHead <= head && len == tail - cachedHead <= capacity
    {
      ConsumerInterferes();
      cachedHead := head;
      ConsumerInterferes();
      len := tail - cachedHead;
    }

    /** `Err` only when the load of the head, which is then the cached one, finds the queue full. */
    method ProducerMaybePush(value: T) returns (ok: bool)
      requires Valid() && CanPush()
      modifies `head, `cachedTail, `cachedHead, `tail, `log, buffer
      ensures Valid() && CanPush() && old(head) <= head
      ensures if ok then log == old(log) + [value]
              else log == old(log) && old(head) <= cachedHead && tail == cachedHead + capacity
    {
      var h := cachedHead;
      if tail - h >= capacity {
        var _ := ProducerLen();
        if h == cachedHead {
          return false;
        }
        // the queue is not full
      }
      PushSlice([value]);
      ok := true;
    }

    method ProducerMaybePushMany(slice: seq<T>) returns (ok: bool)
      requires Valid()
      modifies `head, `cachedTail, `cachedHead, `tail, `log, buffer
      ensures Valid() && CanPush() && old(head) <= head
      ensures if ok then log == old(log) + slice
              else log == old(log) && old(head) <= cachedHead && tail + |slice| > cachedHead + capacity
    {
      if tail - cachedHead + |slice| > capacity {
        var len := ProducerLen();
        if len + |slice| > capacity {
          return false;
        }
      }
      PushSlice(slice);
      ok := true;
    }

    method CopyTwo(first: seq<T>, last: seq<T>) returns (newTail: nat)
      requires Valid() && tail + |first + last| <= head + capacity
      modifies buffer
      ensures Valid() && newTail == tail + |first + last|
      ensures buffer[..] == WriteRange(old(buffer[..]), tail, first + last)
    {
      WriteRangeConcat(buffer[..], tail, first, last);
      newTail := CopyBehindTail(tail, first);
      newTail := CopyBehindTail(newTail, last);
    }

    method ProducerPushManyUnchecked(first: seq<T>, last: seq<T>)
      requires Valid() && tail + |first + last| <= head + capacity
      modifies `tail, `log, buffer
      ensures Valid() && log == old(log) + (first + last)
    {
      RoundTrip(buffer[..], tail, first + last);
      var newTail := CopyTwo(first, last);
      StoreTail(newTail, first + last);
    }

    /** The second slice goes first. */
    method ProducerCopyAndCommitIf(left: seq<T>, right: seq<T>, condition: bool) returns (ok: bool)
      requires Valid() && tail + |right + left| <= head + capacity
      modifies `tail, `log, buffer
      ensures Valid() && ok == condition
      ensures log == if ok then old(log) + (right + left) else old(log)
    {
      RoundTrip(buffer[..], tail, right + left);
      var newTail := CopyTwo(right, left);
      ok := condition;
      if ok {
        StoreTail(newTail, right + left);
      }
    }

    // ---------------------------------------------------------------- the consumer

    method ConsumerLen() returns (len: nat)
      requires Valid()
      modifies `tail, `cachedHead, `log, buffer, `cachedTail
      ensures Valid() && old(log) <= log && old(tail) <= cachedTail <= tail && len == cachedTail - head
    {
      ProducerInterferes();
      cachedTail := tail;
      ProducerInterferes();
      len := cachedTail - head;
    }

    /** The store of the head, while the producer goes on. */
    method ClaimUpTo(n: nat)
      requires Valid() && head + n <= cachedTail
      modifies `tail, `cachedHead, `log, buffer, `head
      ensures Valid() && head == old(head) + n && old(log) <= log
    {
      ProducerInterferes();
      head := head + n;
      ProducerInterferes();
    }

    /** Copies the oldest values out and moves the head over them. */
    method TakeInto(n: nat, dst: array<T>)
      requires Valid() && dst != buffer && head + n <= cachedTail && n <= dst.Length
      modifies `tail, `cachedHead, `log, buffer, `head, dst
      ensures Valid() && head == old(head) + n && old(log) <= log && old(head) + n <= old(|log|)
      ensures dst[..n] == old(log[head..head + n]) && dst[n..] == old(dst[n..])
    {
      HeadReadsLog(View(), n);
      CopyOut(buffer, head, n, dst);
      ClaimUpTo(n);
    }

    /** Takes the oldest values in order; fewer than asked for only when there were no more at the
        load of the tail, which is then the cached one. */
    method ConsumerPopMany(dst: array<T>) returns (n: nat)
      requires Valid() && dst != buffer
      modifies `tail, `cachedHead, `log, buffer, `cachedTail, `head, dst
      ensures Valid() && old(log) <= log
      ensures head == old(head) + n && n <= dst.Length
      ensures n < dst.Length ==> old(tail) <= cachedTail == head
      ensures dst[..n] == log[old(head)..head] && dst[n..] == old(dst[n..])
    {
      var available := cachedTail - head;
      if available < dst.Length {
        available := ConsumerLen();
      }
      n := Min(dst.Length, available);
      if n == 0 {
        return 0;
      }
      ghost var oldest := log[head..head + n];
      TakeInto(n, dst);
      assert log[old(head)..head] == oldest;
    }

    /** The slices of a steal. */
    method Slices(n: nat) returns (right: seq<T>, left: seq<T>)
      requires Valid() && head + n <= tail
      ensures head + n <= |log| && left + right == PieceOrder(log[head..head + n], head, capacity)
    {
      HeadIsStored(View(), n, log[head..head + n]);
      var pieces := StealPieces(buffer[..], Slot(head, capacity), n);
      right, left := pieces.0, pieces.1;
      SlicesInOrder(View(), n, log[head..head + n], right, left);
    }

    /** The producer of this queue and the consumer of the thief's go on. */
    method OthersMove(dst: SpscBoundedQueue<T>)
      requires Valid() && dst.Valid() && dst != this && dst.buffer != buffer
      modifies `tail, `cachedHead, `log, buffer, dst`head, dst`cachedTail
      ensures Valid() && ProducerMoves(old(View()), View()) && old(tail) <= tail
      ensures dst.Valid() && ConsumerMoves(old(dst.View()), dst.View())
    {
      ProducerInterferes();
      dst.ConsumerInterferes();
    }

    /** `copy_and_commit_if` on the queue of the thief, with the store of the head as its condition. */
    method HandOver(dst: SpscBoundedQueue<T>, right: seq<T>, left: seq<T>, n: nat)
      requires Valid() && dst.Valid() && dst != this && dst.buffer != buffer && head + n <= cachedTail
      requires dst.tail + |left + right| <= dst.head + dst.capacity
      modifies `tail, `cachedHead, `log, buffer, `head, dst`head, dst`cachedTail, dst`tail, dst`log, dst.buffer
      ensures Valid() && dst.Valid() && head == old(head) + n && old(log) <= log
      ensures dst.log == old(dst.log) + (left + right)
    {
      RoundTrip(dst.buffer[..], dst.tail, left + right);
      OthersMove(dst);
      var newTail := dst.CopyTwo(left, right);
      OthersMove(dst);
      ClaimUpTo(n);
      dst.ConsumerInterferes();
      dst.StoreTail(newTail, left + right);
      OthersMove(dst);
    }

    method MoveTo(dst: SpscBoundedQueue<T>, n: nat)
      requires Valid() && dst.Valid() && dst != this && dst.buffer != buffer && head + n <= cachedTail
      requires dst.tail + n <= dst.head + dst.capacity
      modifies `tail, `cachedHead, `log, buffer, `head, dst`head, dst`cachedTail, dst`tail, dst`log, dst.buffer
      ensures Valid() && dst.Valid() && head == old(head) + n <= |log| && old(log) <= log
      ensures dst.log == old(dst.log) + PieceOrder(log[old(head)..head], old(head), capacity)
    {
      ghost var before := log;
      var right, left := Slices(n);
      HandOver(dst, right, left, n);
      SliceStays(before, log, old(head), head);
    }

    /** Moves half of the values that the load of the tail showed to another queue, of which the
        thief is the producer; the piece that wrapped around arrives first. */
    method StealInto(dst: SpscBoundedQueue<T>, least: nat) returns (n: nat)
      requires Valid() && dst.Valid() && dst != this && dst.buffer != buffer
      requires dst.tail + capacity / 2 <= dst.head + dst.capacity
      modifies `tail, `cachedHead, `log, buffer, `cachedTail, `head
      modifies dst`head, dst`cachedTail, dst`tail, dst`log, dst.buffer
      ensures Valid() && dst.Valid() && old(log) <= log && head == old(head) + n <= |log|
      ensures old(head) <= cachedTail <= tail && old(tail) <= cachedTail
      ensures n == if (cachedTail - old(head)) / 2 < least then 0 else (cachedTail - old(head)) / 2
      ensures n == 0 ==> dst.log == old(dst.log) && dst.tail == old(dst.tail)
      ensures n > 0 ==> dst.log == old(dst.log) + PieceOrder(log[old(head)..head], old(head), capacity)
    {
      var len := ConsumerLen();
      n := len / 2;
      if n < least || n == 0 {
        return 0;
      }
      MoveTo(dst, n);
    }
  }

  lemma SliceStays<T>(log: seq<T>, log': seq<T>, from: nat, to: nat)
    requires from <= to <= |log| && log <= log'
    ensures log'[from..to] == log[from..to]
  {
  }

  lemma HeadReadsLog<T>(q: Queue<T>, n: nat)
    requires QueueInv(q) && q.head + n <= q.tail
    ensures n <= q.cap && ReadRange(q.buf, q.head, n) == q.log[q.head..q.head + n]
  {
  }

  lemma HeadIsStored<T>(q: Queue<T>, n: nat, vals: seq<T>)
    requires QueueInv(q) && q.head + n <= q.tail && vals == q.log[q.head..q.head + n]
    ensures |vals| == n <= q.cap && StoredAt(q.buf, q.cap, q.head, vals)
  {
  }

  lemma SlicesInOrder<T>(q: Queue<T>, n: nat, vals: seq<T>, right: seq<T>, left: seq<T>)
    requires 0 < q.cap == |q.buf| && |vals| == n <= q.cap && StoredAt(q.buf, q.cap, q.head, vals)
    requires (right, left) == StealPieces(q.buf, Slot(q.head, q.cap), n)
    ensures left + right == PieceOrder(vals, q.head, q.cap)
  {
    StealPiecesInOrder(q.buf, q.head, vals, right, left);
  }
}
