/**
 The unbounded single-producer single-consumer queue (src/spsc/unbounded.rs).

 The producer is that of SpmcUnbounded without its pops. The consumer differs: only it moves the
 head, so it knows the head without loading it, moves it with a plain store, never starts
 over, and does not compare what it is about to copy with the capacity of its version.

 Each step is shown to be a run of the many-consumer machine with one consumer, which gives this
 queue all that holds there; first-in first-out order is proved on top of it. Like there, a run is
 followed up to the first store of a push over an element that nobody took (`lost`).
 */
module SpscUnbounded {
  import opened Ring
  import opened Bags
  import opened PushTest
  import M = SpmcUnbounded

  datatype Pc<T> =
    | Rest
    | LoadHead(op: M.Op)
    | LoadWord(op: M.Op)
    | Update(op: M.Op, id: nat, tail: nat)
    | Copy(op: M.Op, tail: nat, n: nat, copied: seq<T>)
    | Handing(vals: seq<T>)

  /** `version` is the id of the version that the consumer has cached. */
  datatype State<T> = State(q: M.Shared<T>, producer: M.Producer<T>, version: nat, pc: Pc<T>, least: nat,
                            popped: seq<T>, lost: multiset<T>)

  datatype Event<T> = Produce(action: M.Action<T>) | Start(op: M.Op) | Consume(locked: bool)

  // ------------------------------------------------------------------ the machine

  /** How much to copy, or nothing; there is no look at the capacity. */
  function Decide<T>(op: M.Op, head: nat, tail: nat, least: nat): Pc<T> {
    match op
    case Pop(max) =>
      var n := Min(max, tail - head);
      if n <= 0 then Rest else Copy(op, tail, n, [])
    case Steal(room) =>
      var half := (tail - head) / 2;
      if half < least || half <= 0 then Rest else Copy(op, tail, Min(half, room), [])
  }

  function AfterLoadWord<T>(q: M.Shared<T>, version: nat, op: M.Op, least: nat): Pc<T> {
    if version < q.published then Update(op, q.published, q.tail)
    else Decide(op, q.head, q.tail, least)
  }

  /** One value copied from the cached version. */
  function CopyOne<T>(q: M.Shared<T>, v: M.Version<T>, op: M.Op, tail: nat, n: nat, copied: seq<T>): Pc<T>
    requires 0 < v.cap == |v.buf| && |copied| < n
  {
    Copy(op, tail, n, copied + [v.buf[Slot(q.head + CopyOffset(op.Steal?, |copied|, n, q.head, v.cap), v.cap)]])
  }

  function ConsumeStep<T>(s: State<T>, locked: bool): State<T>
    requires Inv(s)
  {
    match s.pc
    case Rest => s
    case LoadHead(op) => s.(pc := LoadWord(op))
    case LoadWord(op) => s.(pc := AfterLoadWord(s.q, s.version, op, s.least))
    case Update(op, _, _) =>
      if locked then s.(pc := Rest) else s.(version := |s.q.versions| - 1, pc := LoadWord(op))
    case Copy(op, tail, n, copied) =>
      CachedIsSound(s);
      if |copied| < n then s.(pc := CopyOne(s.q, s.q.versions[s.version], op, tail, n, copied))
      else s.(q := M.Claim(s.q, n), pc := AfterStore(op, copied), popped := s.popped + Out(s.pc))
    case Handing(vals) => s.(pc := Rest, popped := s.popped + Out(s.pc))
  }

  /** The store of the head ends a pop; a steal has to publish what it took. */
  function AfterStore<T>(op: M.Op, copied: seq<T>): Pc<T> {
    if op.Pop? then Rest else Handing(copied)
  }

  /** The values that the next step takes from the queue. */
  function Taken<T>(pc: Pc<T>): seq<T> {
    if pc.Copy? && |pc.copied| == pc.n then pc.copied else []
  }

  /** The values that it hands over: to the caller of a pop, or to the queue of a thief. */
  function Out<T>(pc: Pc<T>): seq<T> {
    if pc.Handing? then pc.vals else if pc.Copy? && pc.op.Pop? then Taken(pc) else []
  }

  function ProduceStep<T>(s: State<T>, a: M.Action<T>): State<T>
    requires Inv(s)
  {
    if a.TryClaim? then s
    else
      var o := M.ProducerStep(s.q, s.producer, a);
      s.(q := o.q, producer := o.producer, lost := s.lost + M.LostBy(s.q, s.producer, a))
  }

  function Next<T>(s: State<T>, e: Event<T>): State<T>
    requires Inv(s)
  {
    match e
    case Produce(a) => ProduceStep(s, a)
    case Start(op) => if s.pc.Rest? then s.(pc := LoadHead(op)) else s
    case Consume(locked) => ConsumeStep(s, locked)
  }

  // ------------------------------------------------------------------ the same state with many consumers

  function LiftPc<T>(pc: Pc<T>, head: nat): M.Pc<T> {
    match pc
    case Rest => M.Rest
    case LoadHead(op) => M.LoadHead(op, 0)
    case LoadWord(op) => M.LoadWord(op, head, 0)
    case Update(op, id, tail) => M.Update(op, head, id, tail, 0)
    case Copy(op, tail, n, copied) => M.Copy(op, head, tail, n, copied, 0)
    case Handing(vals) => M.Handing(vals, 0)
  }

  function Lift<T>(s: State<T>): M.State<T> {
    M.State(s.q, s.producer, [M.Consumer(s.version, LiftPc(s.pc, s.q.head))], s.least, multiset(s.popped), s.lost)
  }

  function LiftEvent<T>(e: Event<T>): seq<M.Event<T>> {
    match e
    case Produce(a) => if a.TryClaim? then [] else [M.Produce(a)]
    case Start(op) => [M.Start(0, op)]
    case Consume(locked) => [M.Consume(0, locked)]
  }

  ghost predicate Inv<T>(s: State<T>) {
    M.Inv(Lift(s)) && !s.producer.Taking?
  }

  lemma CachedIsSound<T>(s: State<T>)
    requires Inv(s)
    ensures s.version < |s.q.versions|
    ensures var v := s.q.versions[s.version];
            && 0 < v.cap == |v.buf|
            && (s.q.published <= s.version ==> s.q.tail <= s.q.head + v.cap && v.end == s.q.tail)
            && (s.pc.Copy? ==> |s.pc.copied| <= s.pc.n)
  {
    assert M.ConsumerInv(s.q, Lift(s).consumers[0]);
    assert M.VersionInv(s.q.versions[s.version], s.q.head, s.q.log);
  }

  // ------------------------------------------------------------------ the simulation

  /** The check that the code leaves out would never have fired. */
  lemma DecideAgrees<T>(s: State<T>, op: M.Op)
    requires Inv(s) && s.pc == LoadWord(op)
    ensures s.version < |s.q.versions|
    ensures LiftPc(AfterLoadWord(s.q, s.version, op, s.least), s.q.head)
         == M.AfterLoadWord(s.q, s.version, op, s.q.head, s.least, 0)
  {
    CachedIsSound(s);
  }

  function Cached<T>(s: State<T>): M.Consumer<T> {
    M.Consumer(s.version, LiftPc(s.pc, s.q.head))
  }

  /** The consumers take the same step. */
  lemma ConsumerStepAgrees<T>(s: State<T>, locked: bool)
    requires Inv(s)
    ensures M.ConsumerInv(s.q, Cached(s))
    ensures var s' := ConsumeStep(s, locked);
            && M.ConsumerStep(s.q, Cached(s), s.least, locked) == (Cached(s'), |Taken(s.pc)|)
            && M.DeliveredBy(s.q, Cached(s)) == Out(s.pc)
  {
    assert M.ConsumerInv(s.q, Lift(s).consumers[0]);
    match s.pc
    case LoadWord(op) => DecideAgrees(s, op);
    case Copy(op, tail, n, copied) => CachedIsSound(s);
    case _ =>
  }

  lemma CopyStepEffect<T>(s: State<T>, locked: bool)
    requires Inv(s) && s.pc.Copy?
    ensures var s', n := ConsumeStep(s, locked), |Taken(s.pc)|;
            s'.q == M.Claim(s.q, n) && s'.producer == s.producer && s'.least == s.least && s'.lost == s.lost
            && s'.popped == s.popped + Out(s.pc)
  {
    CachedIsSound(s);
  }

  lemma ConsumeStepEffect<T>(s: State<T>, locked: bool)
    requires Inv(s)
    ensures var s', n := ConsumeStep(s, locked), |Taken(s.pc)|;
            s'.q == M.Claim(s.q, n) && s'.producer == s.producer && s'.least == s.least && s'.lost == s.lost
            && s'.popped == s.popped + Out(s.pc)
  {
    if s.pc.Copy? { CopyStepEffect(s, locked); }
  }

  lemma ConsumeSimulates<T>(s: State<T>, locked: bool)
    requires Inv(s)
    ensures M.ConsumerInv(s.q, Lift(s).consumers[0])
    ensures Lift(ConsumeStep(s, locked)) == M.ConsumeStep(Lift(s), 0, locked)
  {
    ConsumerStepAgrees(s, locked);
    ConsumeStepEffect(s, locked);
    LiftTaken(s, ConsumeStep(s, locked));
  }

  lemma LiftTaken<T>(s: State<T>, s': State<T>)
    requires s'.q == M.Claim(s.q, |Taken(s.pc)|) && s'.producer == s.producer
    requires s'.least == s.least && s'.lost == s.lost
    requires s'.popped == s.popped + Out(s.pc)
    ensures Lift(s') == M.Consumed(Lift(s), 0, Cached(s'), |Taken(s.pc)|, Out(s.pc))
  {
  }

  lemma ProduceSimulates<T>(s: State<T>, a: M.Action<T>)
    requires Inv(s) && !a.TryClaim?
    ensures var o := M.ProducerStep(s.q, s.producer, a);
            && !o.producer.Taking? && o.q.head == s.q.head && o.out == []
            && Lift(ProduceStep(s, a)) == M.ProduceStep(Lift(s), a)
  {
  }

  lemma RunOne<T>(s: M.State<T>, e: M.Event<T>)
    requires M.Inv(s)
    ensures M.Run(s, [e]) == M.Step(s, e)
  {
    assert [e][1..] == [];
    assert M.Run(M.Step(s, e), []) == M.Step(s, e);
  }

  lemma ProduceRuns<T>(s: State<T>, a: M.Action<T>)
    requires Inv(s) && !a.TryClaim?
    ensures Lift(ProduceStep(s, a)) == M.Run(Lift(s), [M.Produce(a)]) && !ProduceStep(s, a).producer.Taking?
  {
    ProduceSimulates(s, a);
    RunOne(Lift(s), M.Produce(a));
  }

  lemma StartSimulates<T>(s: State<T>, op: M.Op)
    requires Inv(s)
    ensures Lift(Next(s, Start(op))) == M.Step(Lift(s), M.Start(0, op))
  {
    StartIs(Lift(s), op);
    if s.pc.Rest? { StartedIs(s, op); }
  }

  lemma StartIs<T>(m: M.State<T>, op: M.Op)
    requires M.Inv(m) && 0 < |m.consumers|
    ensures M.Step(m, M.Start(0, op)) == if m.consumers[0].pc.Rest? then M.Started(m, 0, op) else m
  {
  }

  lemma StartedIs<T>(s: State<T>, op: M.Op)
    requires Inv(s) && s.pc.Rest?
    ensures Lift(s.(pc := LoadHead(op))) == M.Started(Lift(s), 0, op)
  {
  }

  lemma StartRuns<T>(s: State<T>, op: M.Op)
    requires Inv(s)
    ensures Lift(Next(s, Start(op))) == M.Run(Lift(s), [M.Start(0, op)])
  {
    StartSimulates(s, op);
    RunOne(Lift(s), M.Start(0, op));
  }

  lemma ConsumeRuns<T>(s: State<T>, locked: bool)
    requires Inv(s)
    ensures Lift(ConsumeStep(s, locked)) == M.Run(Lift(s), [M.Consume(0, locked)])
    ensures !ConsumeStep(s, locked).producer.Taking?
  {
    ConsumeStepEffect(s, locked);
    ConsumeSimulates(s, locked);
    RunOne(Lift(s), M.Consume(0, locked));
  }

  /** Each step is at most one step of the many-consumer machine. */
  lemma NextSimulates<T>(s: State<T>, e: Event<T>)
    requires Inv(s)
    ensures Lift(Next(s, e)) == M.Run(Lift(s), LiftEvent(e)) && !Next(s, e).producer.Taking?
  {
    match e
    case Produce(a) => if !a.TryClaim? { ProduceRuns(s, a); }
    case Start(op) => StartRuns(s, op);
    case Consume(locked) => ConsumeRuns(s, locked);
  }

  // ------------------------------------------------------------------ runs

  function Step<T>(s: State<T>, e: Event<T>): (s': State<T>)
    requires Inv(s)
    ensures Inv(s')
  {
    NextSimulates(s, e);
    Next(s, e)
  }

  function Run<T>(s: State<T>, events: seq<Event<T>>): (s': State<T>)
    requires Inv(s)
    ensures Inv(s')
    decreases |events|
  {
    if events == [] then s else Run(Step(s, events[0]), events[1..])
  }

  function LiftAll<T>(s: State<T>, events: seq<Event<T>>): seq<M.Event<T>>
    requires Inv(s)
    decreases |events|
  {
    if events == [] then [] else LiftEvent(events[0]) + LiftAll(Step(s, events[0]), events[1..])
  }

  lemma {:induction false} RunSimulates<T>(s: State<T>, events: seq<Event<T>>)
    requires Inv(s)
    ensures Lift(Run(s, events)) == M.Run(Lift(s), LiftAll(s, events))
    decreases |events|
  {
    if events != [] {
      var e, rest := events[0], events[1..];
      NextSimulates(s, e);
      RunSimulates(Step(s, e), rest);
      M.RunConcat(Lift(s), LiftEvent(e), LiftAll(Step(s, e), rest));
    }
  }

  function Init<T(==)>(memory: seq<T>, least: nat): (s: State<T>)
    requires 0 < |memory|
    ensures Inv(s) && Lift(s) == M.Step(M.Init(memory, least), M.Join(0))
  {
    State(M.Init(memory, least).q, M.Idle, 0, Rest, least, [], multiset{})
  }

  function RunFrom<T(==)>(memory: seq<T>, least: nat, events: seq<Event<T>>): (s: State<T>)
    requires 0 < |memory|
    ensures Inv(s)
  {
    Run(Init(memory, least), events)
  }

  // ------------------------------------------------------------------ what calls decide

  lemma LoadWordGoes<T>(s: State<T>, locked: bool)
    requires Inv(s) && s.pc.LoadWord?
    ensures Step(s, Consume(locked)) == s.(pc := AfterLoadWord(s.q, s.version, s.pc.op, s.least))
  {
    assert Step(s, Consume(locked)) == ConsumeStep(s, locked);
  }

  /** The load of the word: a consumer whose version is older than the published one goes for a newer
      one, whatever it wants. */
  lemma OutdatedUpdates<T>(s: State<T>, locked: bool)
    requires Inv(s) && s.pc.LoadWord?
    ensures var pc := Step(s, Consume(locked)).pc;
            && (pc.Update? <==> s.version < s.q.published)
            && (pc.Update? ==> pc == Update(s.pc.op, s.q.published, s.q.tail))
  {
    LoadWordGoes(s, locked);
  }

  /** With a version that is new enough a steal takes half of what is there, as far as it fits, exactly
      if that is something and at least the minimum; otherwise it is over. */
  lemma StealDecides<T>(s: State<T>, locked: bool, half: nat)
    requires Inv(s) && s.pc.LoadWord? && s.pc.op.Steal? && s.q.published <= s.version
    requires half == (s.q.tail - s.q.head) / 2
    ensures var pc := Step(s, Consume(locked)).pc;
            && (pc.Rest? <==> half == 0 || half < s.least)
            && (pc.Copy? <==> 0 < half && s.least <= half)
            && (pc.Copy? ==> pc.op == s.pc.op && pc.copied == [] && pc.n == Min(half, s.pc.op.room))
  {
    LoadWordGoes(s, locked);
  }

  /** A pop takes as many values as it has space for or as are there; it is over exactly if there is no
      space to fill or the queue is empty. */
  lemma PopDecides<T>(s: State<T>, locked: bool)
    requires Inv(s) && s.pc.LoadWord? && s.pc.op.Pop? && s.q.published <= s.version
    ensures var pc := Step(s, Consume(locked)).pc;
            && (pc.Rest? <==> s.pc.op.max == 0 || s.q.tail == s.q.head)
            && (pc.Copy? <==> 0 < s.pc.op.max && s.q.head < s.q.tail)
            && (pc.Copy? ==> pc.op == s.pc.op && pc.copied == [] && pc.n == Min(s.pc.op.max, s.q.tail - s.q.head))
  {
    LoadWordGoes(s, locked);
  }

  /** An unfinished copy goes on with one value more and nothing else changed. */
  lemma CopyGoesOn<T>(s: State<T>, locked: bool)
    requires Inv(s) && s.pc.Copy? && |s.pc.copied| < s.pc.n
    ensures var s' := Step(s, Consume(locked));
            && s' == s.(pc := s'.pc) && s'.pc.Copy? && s'.pc == s.pc.(copied := s'.pc.copied)
            && |s'.pc.copied| == |s.pc.copied| + 1 && s'.pc.copied[..|s.pc.copied|] == s.pc.copied
  {
    CachedIsSound(s);
    assert Step(s, Consume(locked)) == ConsumeStep(s, locked);
  }

  /** A call ends only as it should: by its decision, when the version cell refuses to give a newer
      version to a consumer that is behind, by the store of the head of a pop, or by the publication of a
      thief. */
  lemma EndsOnly<T>(s: State<T>, locked: bool)
    requires Inv(s) && !s.pc.Rest? && Step(s, Consume(locked)).pc.Rest?
    ensures || (s.pc.LoadWord? && s.q.published <= s.version)
            || (s.pc.Update? && locked && s.version < s.pc.id <= s.q.published)
            || (s.pc.Copy? && s.pc.op.Pop? && |s.pc.copied| == s.pc.n)
            || s.pc.Handing?
  {
    CachedInv(s);
    assert Step(s, Consume(locked)) == ConsumeStep(s, locked);
    if s.pc.Copy? { CachedIsSound(s); }
  }

  // ------------------------------------------------------------------ what every run guarantees

  /** Refinement: every run of this queue is a run of the many-consumer queue with one consumer. */
  lemma Refines<T>(memory: seq<T>, least: nat, events: seq<Event<T>>)
    requires 0 < |memory|
    ensures exists run: seq<M.Event<T>> :: Lift(RunFrom(memory, least, events)) == M.RunFrom(memory, least, run)
  {
    var s := Init(memory, least);
    var run := [M.Join(0)] + LiftAll(s, events);
    RunSimulates(s, events);
    RunOne(M.Init(memory, least), M.Join(0));
    M.RunConcat(M.Init(memory, least), [M.Join(0)], LiftAll(s, events));
    assert Lift(RunFrom(memory, least, events)) == M.RunFrom(memory, least, run);
  }

  lemma CachedInv<T>(s: State<T>)
    requires Inv(s)
    ensures M.SharedInv(s.q) && M.ConsumerInv(s.q, Cached(s))
  {
    assert M.ConsumerInv(s.q, Lift(s).consumers[0]);
  }

  lemma CopyIsSound<T>(q: M.Shared<T>, c: M.Consumer<T>)
    requires M.SharedInv(q) && M.ConsumerInv(q, c) && c.pc.Copy? && c.pc.head == q.head
    ensures q.head + c.pc.n <= q.tail <= |q.log|
    ensures var v, n, copied := q.versions[c.version], c.pc.n, c.pc.copied;
            && 0 < v.cap && |copied| <= n <= v.cap
            && forall j: nat {:trigger copied[j]} :: j < |copied| ==>
                 copied[j] == q.log[q.head + CopyOffset(c.pc.op.Steal?, j, n, q.head, v.cap)]
  {
    assert M.VersionInv(q.versions[c.version], q.head, q.log);
  }

  lemma SoundCopy<T>(s: State<T>, c: M.Consumer<T>)
    requires Inv(s) && s.pc.Copy? && c == Cached(s)
    ensures s.version < |s.q.versions| && s.q.head + s.pc.n <= s.q.tail <= |s.q.log|
    ensures var v, h, n, copied := s.q.versions[s.version], s.q.head, s.pc.n, s.pc.copied;
            && 0 < v.cap && |copied| <= n <= v.cap
            && forall j: nat {:trigger copied[j]} :: j < |copied| ==>
                 copied[j] == s.q.log[h + CopyOffset(s.pc.op.Steal?, j, n, h, v.cap)]
  {
    CachedInv(s);
    CopyIsSound(s.q, c);
  }

  /** Without comparing with the capacity the consumer never reads more than its version holds, never
      past the published tail, and at every moment of its copy it has the published values. */
  lemma NeverOverruns<T>(memory: seq<T>, least: nat, events: seq<Event<T>>, s: State<T>)
    requires 0 < |memory| && s == RunFrom(memory, least, events) && s.pc.Copy?
    ensures s.version < |s.q.versions| && s.q.head + s.pc.n <= s.q.tail <= |s.q.log|
    ensures var v, h, n, copied := s.q.versions[s.version], s.q.head, s.pc.n, s.pc.copied;
            && 0 < v.cap && |copied| <= n <= v.cap
            && forall j: nat {:trigger copied[j]} :: j < |copied| ==>
                 copied[j] == s.q.log[h + CopyOffset(s.pc.op.Steal?, j, n, h, v.cap)]
  {
    SoundCopy(s, Cached(s));
  }

  /** A push is called when its test is safe (`PushTest.TestIsSafeIff`). */
  ghost predicate SafeEvent<T>(s: State<T>, e: Event<T>)
    requires Inv(s)
  {
    e.Produce? && e.action.Push? && s.producer.Idle? ==> SafeToPush(M.MarksOf(s.q), M.Newest(s.q).cap)
  }

  ghost predicate SafePushes<T>(s: State<T>, events: seq<Event<T>>)
    requires Inv(s)
    decreases |events|
  {
    events == [] || (SafeEvent(s, events[0]) && SafePushes(Step(s, events[0]), events[1..]))
  }

  lemma SafeProduce<T>(s: State<T>, a: M.Action<T>)
    requires Inv(s) && M.Roomy(s.q, s.producer) && SafeEvent(s, Produce(a))
    ensures var s' := ProduceStep(s, a); 0 < |s'.q.versions| && M.Roomy(s'.q, s'.producer) && s'.lost == s.lost
  {
    if !a.TryClaim? { M.RoomyProduce(s.q, s.producer, a); }
  }

  lemma ConsumeLeaves<T>(s: State<T>, locked: bool)
    requires Inv(s) && M.Roomy(s.q, s.producer)
    ensures var s' := ConsumeStep(s, locked); 0 < |s'.q.versions| && M.Roomy(s'.q, s'.producer) && s'.lost == s.lost
  {
    ConsumeStepEffect(s, locked);
  }

  lemma StartLeaves<T>(s: State<T>, op: M.Op)
    requires Inv(s)
    ensures var s' := Next(s, Start(op)); s'.q == s.q && s'.producer == s.producer && s'.lost == s.lost
  {
  }

  lemma SafeStep<T>(s: State<T>, e: Event<T>)
    requires Inv(s) && M.Roomy(s.q, s.producer) && SafeEvent(s, e)
    ensures var s' := Next(s, e); 0 < |s'.q.versions| && M.Roomy(s'.q, s'.producer) && s'.lost == s.lost
  {
    match e
    case Produce(a) => SafeProduce(s, a);
    case Start(op) => StartLeaves(s, op);
    case Consume(locked) => ConsumeLeaves(s, locked);
  }

  lemma {:induction false} SafeRun<T>(s: State<T>, events: seq<Event<T>>)
    requires Inv(s) && M.Roomy(s.q, s.producer) && SafePushes(s, events)
    ensures Run(s, events).lost == s.lost
    decreases |events|
  {
    if events != [] {
      SafeStep(s, events[0]);
      SafeRun(Step(s, events[0]), events[1..]);
    }
  }

  /** With pushes that are safe when they are called no run stores over an element. */
  lemma SafePushesLoseNothing<T>(memory: seq<T>, least: nat, events: seq<Event<T>>)
    requires 0 < |memory| && SafePushes(Init(memory, least), events)
    ensures RunFrom(memory, least, events).lost == multiset{}
  {
    SafeRun(Init(memory, least), events);
  }

  predicate PopsOnly<T>(events: seq<Event<T>>) {
    forall k: nat {:trigger events[k]} :: k < |events| && events[k].Start? ==> events[k].op.Pop?
  }

  predicate Popping<T>(pc: Pc<T>) {
    match pc
    case Rest => true
    case LoadHead(op) => op.Pop?
    case LoadWord(op) => op.Pop?
    case Update(op, _, _) => op.Pop?
    case Copy(op, _, _, _) => op.Pop?
    case Handing(_) => false
  }

  ghost predicate InOrder<T>(s: State<T>)
    requires Inv(s)
  {
    s.popped == s.q.log[..s.q.head] && Popping(s.pc)
  }

  lemma ProduceKeepsOrder<T>(s: State<T>, a: M.Action<T>)
    requires Inv(s) && InOrder(s) && !a.TryClaim?
    ensures InOrder(Step(s, Produce(a)))
  {
    M.ProducerStepOk(s.q, s.producer, a);
    ProduceSimulates(s, a);
  }

  lemma TakenIsNext<T>(s: State<T>)
    requires Inv(s) && Popping(s.pc)
    ensures s.q.head + |Taken(s.pc)| <= |s.q.log| && Taken(s.pc) == s.q.log[s.q.head..s.q.head + |Taken(s.pc)|]
  {
    assert M.ConsumerInv(s.q, Lift(s).consumers[0]);
    if s.pc.Copy? && |s.pc.copied| == s.pc.n { M.CopiedIsLog(s.q, Cached(s)); }
  }

  lemma ConsumeKeepsPrefix<T>(s: State<T>, s': State<T>)
    requires Inv(s) && InOrder(s) && s'.q == M.Claim(s.q, |Taken(s.pc)|) && s'.popped == s.popped + Out(s.pc)
    ensures s'.q.head <= |s'.q.log| && s'.popped == s'.q.log[..s'.q.head]
  {
    TakenIsNext(s);
    PrefixExtends(s.popped, s.q.log, s.q.head, Taken(s.pc));
  }

  lemma ConsumeKeepsOrder<T>(s: State<T>, locked: bool)
    requires Inv(s) && InOrder(s)
    ensures InOrder(Step(s, Consume(locked)))
  {
    ConsumeStepEffect(s, locked);
    ConsumeKeepsPrefix(s, ConsumeStep(s, locked));
    StillPopping(s, locked);
    assert Step(s, Consume(locked)) == ConsumeStep(s, locked);
  }

  lemma PrefixExtends<T>(popped: seq<T>, log: seq<T>, h: nat, taken: seq<T>)
    requires h + |taken| <= |log| && popped == log[..h] && taken == log[h..h + |taken|]
    ensures popped + taken == log[..h + |taken|]
  {
  }

  lemma StillPopping<T>(s: State<T>, locked: bool)
    requires Inv(s) && Popping(s.pc)
    ensures Popping(ConsumeStep(s, locked).pc)
  {
    if s.pc.Copy? { CachedIsSound(s); }
  }

  lemma StepKeepsOrder<T>(s: State<T>, e: Event<T>)
    requires Inv(s) && InOrder(s) && (e.Start? ==> e.op.Pop?)
    ensures InOrder(Step(s, e))
  {
    match e
    case Produce(a) => if !a.TryClaim? { ProduceKeepsOrder(s, a); }
    case Start(op) =>
    case Consume(locked) => ConsumeKeepsOrder(s, locked);
  }

  lemma {:induction false} RunKeepsOrder<T>(s: State<T>, events: seq<Event<T>>)
    requires Inv(s) && InOrder(s) && PopsOnly(events)
    ensures InOrder(Run(s, events))
    decreases |events|
  {
    if events != [] {
      StepKeepsOrder(s, events[0]);
      assert forall k: nat :: k < |events[1..]| ==> events[1..][k] == events[k + 1];
      RunKeepsOrder(Step(s, events[0]), events[1..]);
    }
  }

  lemma NewestReadsLog<T>(q: M.Shared<T>)
    requires M.SharedInv(q)
    ensures 0 < |M.Newest(q).buf| && ReadRange(M.Newest(q).buf, q.head, q.tail - q.head) == q.log[q.head..]
  {
    assert M.VersionInv(M.Newest(q), q.head, q.log);
  }

  /** First-in first-out across any number of growths: the values popped followed by the values
      that the newest buffer holds from head to tail are the values pushed, in order. */
  lemma Fifo<T>(memory: seq<T>, least: nat, events: seq<Event<T>>, s: State<T>)
    requires 0 < |memory| && s == RunFrom(memory, least, events) && PopsOnly(events)
    ensures s.q.head <= s.q.tail && 0 < |s.q.versions| && 0 < |M.Newest(s.q).buf|
    ensures s.popped + ReadRange(M.Newest(s.q).buf, s.q.head, s.q.tail - s.q.head) == s.q.log
  {
    RunKeepsOrder(Init(memory, least), events);
    NewestReadsLog(s.q);
  }

  lemma OneHand<T>(consumers: seq<M.Consumer<T>>)
    requires |consumers| == 1
    ensures Total(M.Hands(consumers)) == M.InHand(consumers[0])
  {
    var bags := M.Hands(consumers);
    assert Total(bags[..0]) == multiset{};
    assert Total(bags) == Total(bags[..0]) + bags[0];
  }

  lemma ConservedIn<T>(s: State<T>)
    requires Inv(s)
    ensures s.q.head <= |s.q.log|
    ensures multiset(s.popped) + M.InHand(Cached(s)) + multiset(s.q.log[s.q.head..]) == multiset(s.q.log)
  {
    var consumers := Lift(s).consumers;
    OneHand(consumers);
    HandsOfOne(s, consumers);
    assert s.q.log == s.q.log[..s.q.head] + s.q.log[s.q.head..];
  }

  lemma HandsOfOne<T>(s: State<T>, consumers: seq<M.Consumer<T>>)
    requires Inv(s) && consumers == Lift(s).consumers && Total(M.Hands(consumers)) == M.InHand(consumers[0])
    ensures s.q.head <= |s.q.log| && multiset(s.q.log[..s.q.head]) == multiset(s.popped) + M.InHand(Cached(s))
  {
    assert M.Balanced(Lift(s));
  }

  /** Whatever the consumer does, nothing is lost and nothing comes twice: what was pushed is handed
      over, in the hands of a thief, or in the queue. */
  lemma Conservation<T>(memory: seq<T>, least: nat, events: seq<Event<T>>, s: State<T>)
    requires 0 < |memory| && s == RunFrom(memory, least, events)
    ensures s.q.head <= |s.q.log|
    ensures multiset(s.popped) + M.InHand(Cached(s)) + multiset(s.q.log[s.q.head..]) == multiset(s.q.log)
  {
    ConservedIn(s);
  }
}
