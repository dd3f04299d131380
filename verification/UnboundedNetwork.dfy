/**
 Work stealing between unbounded queues (src/spmc/unbounded.rs): any number of machines of
 SpmcUnbounded, whose thieves are the producers of other machines.

 Thread `t` is the producer of queue `t`. A thief copies every value straight behind the tail of its
 own queue while it reads it from the source; it publishes its copy when it wins the exchange on the
 head of the source, and forgets it otherwise. A step of a thief is its step in the machine of the
 source, together with its store, publication or retreat in its own.
 */
module UnboundedNetwork {
  import opened Bags
  import opened PushTest
  import opened Ring
  import opened Wrappers
  import M = SpmcUnbounded

  /** The queue that a thief steals from, and its place among the consumers there. */
  datatype Job = Job(from: nat, handle: nat)

  datatype State<T> = State(
    queues: seq<M.State<T>>,
    jobs: seq<Option<Job>>,      // per thread, the steal that it is in
    pushed: multiset<T>,         // everything published for callers of push
    popped: multiset<T>,         // everything handed to callers of pop
    moved: multiset<T>)          // everything published by thieves

  /** A step of a producer or consumer of one queue, or of a thief. */
  datatype Event<T> =
    | Own(i: nat, event: M.Event<T>)
    | StartSteal(thief: nat, from: nat, handle: nat)
    | Thief(thief: nat, locked: bool)

  // ------------------------------------------------------------------ what a thief knows

  /** There is room for so many values. */
  predicate Fits<T>(own: M.State<T>, n: nat)
    requires 0 < |own.q.versions|
  {
    own.q.tail + n <= own.q.head + M.Newest(own.q).cap
  }

  /** The thief has stored these values behind its tail, and nothing else. */
  predicate Stored<T>(own: M.State<T>, vals: seq<T>) {
    if vals == [] then own.producer.Idle?
    else own.producer == M.Filling(vals) && own.q.published == M.NewestId(own.q)
  }

  ghost predicate OnJob<T>(own: M.State<T>, pc: M.Pc<T>)
    requires 0 < |own.q.versions|
  {
    match pc
    case Rest => false
    case LoadHead(op, _) => op.Steal? && Fits(own, op.room) && Stored(own, [])
    case LoadWord(op, _, _) => op.Steal? && Fits(own, op.room) && Stored(own, [])
    case Update(op, _, _, _, _) => op.Steal? && Fits(own, op.room) && Stored(own, [])
    case Copy(op, _, _, _, copied, _) => op.Steal? && Fits(own, op.room) && Stored(own, copied)
    case Handing(vals, _) => Stored(own, vals)
  }

  ghost predicate JobInv<T>(queues: seq<M.State<T>>, t: nat, job: Job)
    requires t < |queues| && 0 < |queues[t].q.versions|
  {
    && job.from < |queues| && job.from != t && job.handle < |queues[job.from].consumers|
    && OnJob(queues[t], queues[job.from].consumers[job.handle].pc)
  }

  ghost predicate Sound<T>(queues: seq<M.State<T>>) {
    forall i: nat {:trigger queues[i]} :: i < |queues| ==> M.Inv(queues[i])
  }

  ghost predicate JobsInv<T>(queues: seq<M.State<T>>, jobs: seq<Option<Job>>)
    requires Sound(queues) && |jobs| == |queues|
  {
    forall t: nat {:trigger jobs[t]} :: t < |jobs| && jobs[t].Some? ==> JobInv(queues, t, jobs[t].value)
  }

  predicate Distinct(jobs: seq<Option<Job>>) {
    forall t: nat, u: nat {:trigger jobs[t], jobs[u]} :: t < u < |jobs| && jobs[t].Some? ==> jobs[t] != jobs[u]
  }

  ghost predicate Inv<T>(s: State<T>) {
    |s.jobs| == |s.queues| && Sound(s.queues) && JobsInv(s.queues, s.jobs) && Distinct(s.jobs)
  }

  // ------------------------------------------------------------------ the machine

  predicate Taken<T>(s: State<T>, i: nat, handle: nat) {
    Some(Job(i, handle)) in s.jobs
  }

  /** A thread that steals does nothing else, and nobody else takes its place among the consumers. */
  predicate Free<T>(s: State<T>, i: nat, e: M.Event<T>)
    requires i < |s.jobs|
  {
    match e
    case Produce(_) => s.jobs[i].None?
    case Join(_) => true
    case Start(c, op) => op.Pop? && !Taken(s, i, c)
    case Consume(c, _) => !Taken(s, i, c)
  }

  /** What a step publishes, and what it hands over. */
  function PublishedBy<T>(m: M.State<T>, e: M.Event<T>): seq<T> {
    if e.Produce? && e.action.Publish? && m.producer.Filling? then m.producer.vals else []
  }

  function OutBy<T>(m: M.State<T>, e: M.Event<T>): seq<T>
    requires M.Inv(m)
  {
    match e
    case Produce(a) => M.ProducerStep(m.q, m.producer, a).out
    case Consume(c, _) => if c < |m.consumers| then M.DeliveredBy(m.q, m.consumers[c]) else []
    case _ => []
  }

  function OwnStep<T>(s: State<T>, i: nat, e: M.Event<T>): State<T>
    requires Inv(s) && i < |s.queues|
  {
    s.(queues := s.queues[i := M.Step(s.queues[i], e)],
       pushed := s.pushed + multiset(PublishedBy(s.queues[i], e)), popped := s.popped + multiset(OutBy(s.queues[i], e)))
  }

  /** The room for a steal is what is free in the own queue, at most its capacity. */
  function RoomOf<T>(own: M.State<T>): nat
    requires M.Inv(own)
  {
    own.q.head + M.Newest(own.q).cap - own.q.tail
  }

  predicate CanStart<T>(s: State<T>, t: nat, i: nat, c: nat)
    requires Inv(s)
  {
    && t < |s.queues| && i < |s.queues| && i != t && c < |s.queues[i].consumers|
    && s.jobs[t].None? && s.queues[t].producer.Idle? && s.queues[i].consumers[c].pc.Rest?
  }

  function Started<T>(s: State<T>, t: nat, i: nat, c: nat): State<T>
    requires Inv(s) && CanStart(s, t, i, c)
  {
    s.(queues := s.queues[i := M.Step(s.queues[i], M.Start(c, M.Steal(RoomOf(s.queues[t]))))],
       jobs := s.jobs[t := Some(Job(i, c))])
  }

  function Source<T>(s: State<T>, t: nat): M.State<T>
    requires Inv(s) && t < |s.jobs| && s.jobs[t].Some?
  {
    s.queues[s.jobs[t].value.from]
  }

  function PcOf<T>(s: State<T>, t: nat): M.Pc<T>
    requires Inv(s) && t < |s.jobs| && s.jobs[t].Some?
  {
    Source(s, t).consumers[s.jobs[t].value.handle].pc
  }

  /** The source after the next step of the thief. */
  function SourceAfter<T>(s: State<T>, t: nat, locked: bool): (m: M.State<T>)
    requires Inv(s) && t < |s.jobs| && s.jobs[t].Some?
    ensures M.Inv(m)
  {
    M.Step(Source(s, t), M.Consume(s.jobs[t].value.handle, locked))
  }

  /** What the thief does to its own queue with the step that takes it from one place to another: it
      stores the value that it just read, publishes what it has won, or forgets what it has lost. */
  function OwnAction<T>(pc: M.Pc<T>, pc': M.Pc<T>): Option<M.Action<T>> {
    if pc.Copy? && pc'.Copy? && pc'.copied != [] then Some(M.Write(pc'.copied[|pc'.copied| - 1]))
    else if pc.Handing? then Some(M.Publish)
    else if pc.Copy? && pc'.LoadWord? then Some(M.Abandon)
    else None
  }

  function OwnAfter<T>(own: M.State<T>, a: Option<M.Action<T>>): (m: M.State<T>)
    requires M.Inv(own)
    ensures M.Inv(m)
  {
    if a.Some? then M.Step(own, M.Produce(a.value)) else own
  }

  function ThiefStep<T>(s: State<T>, t: nat, locked: bool): State<T>
    requires Inv(s) && t < |s.jobs| && s.jobs[t].Some?
  {
    var job, pc := s.jobs[t].value, PcOf(s, t);
    var src := SourceAfter(s, t, locked);
    if job.handle >= |src.consumers| then s
    else
      var pc' := src.consumers[job.handle].pc;
      s.(queues := s.queues[job.from := src][t := OwnAfter(s.queues[t], OwnAction(pc, pc'))],
         jobs := if pc'.Rest? then s.jobs[t := None] else s.jobs,
         moved := s.moved + (if pc.Handing? then multiset(pc.vals) else multiset{}))
  }

  // ------------------------------------------------------------------ what steps of a machine leave alone

  /** A step leaves the consumers alone that do not take it. */
  lemma OthersStay<T>(m: M.State<T>, e: M.Event<T>, h: nat)
    requires M.Inv(m) && h < |m.consumers|
    requires e.Start? || e.Consume? ==> e.consumer != h
    ensures var m' := M.Step(m, e); h < |m'.consumers| && m'.consumers[h] == m.consumers[h]
  {
    match e
    case Produce(_) => assert M.Step(m, e).consumers == m.consumers;
    case Join(_) => assert m.consumers <= M.Step(m, e).consumers;
    case Start(c, op) => StartLeavesOthers(m, c, op, h);
    case Consume(c, locked) => ConsumeLeavesOthers(m, c, locked, h);
  }

  lemma StartLeavesOthers<T>(m: M.State<T>, c: nat, op: M.Op, h: nat)
    requires M.Inv(m) && h < |m.consumers| && c != h
    ensures var m' := M.Step(m, M.Start(c, op)); h < |m'.consumers| && m'.consumers[h] == m.consumers[h]
  {
  }

  lemma ConsumeLeavesOthers<T>(m: M.State<T>, c: nat, locked: bool, h: nat)
    requires M.Inv(m) && h < |m.consumers| && c != h
    ensures var m' := M.Step(m, M.Consume(c, locked)); h < |m'.consumers| && m'.consumers[h] == m.consumers[h]
  {
  }

  /** What consumers do to a queue leaves a thief there that copies into it what it knows. */
  lemma ConsumersLeaveJob<T>(m: M.State<T>, e: M.Event<T>, pc: M.Pc<T>)
    requires M.Inv(m) && !e.Produce? && OnJob(m, pc)
    ensures M.Inv(M.Step(m, e)) && OnJob(M.Step(m, e), pc)
  {
    M.ConsumersLeave(m, e);
  }

  /** Other threads' steps leave a job as it is. */
  lemma JobStays<T>(queues: seq<M.State<T>>, i: nat, e: M.Event<T>, t: nat, job: Job)
    requires i < |queues| && t < |queues| && M.Inv(queues[i]) && M.Inv(queues[t]) && JobInv(queues, t, job)
    requires e.Produce? ==> i != t
    requires (e.Start? || e.Consume?) && job.from == i ==> e.consumer != job.handle
    ensures JobInv(queues[i := M.Step(queues[i], e)], t, job)
  {
    if i == t { ConsumersLeaveJob(queues[t], e, queues[job.from].consumers[job.handle].pc); }
    if i == job.from { OthersStay(queues[i], e, job.handle); }
  }

  lemma OwnStepKeepsInv<T>(s: State<T>, i: nat, e: M.Event<T>)
    requires Inv(s) && i < |s.queues| && Free(s, i, e)
    ensures Inv(OwnStep(s, i, e))
  {
    var s' := OwnStep(s, i, e);
    forall t: nat | t < |s.jobs| && s.jobs[t].Some? ensures JobInv(s'.queues, t, s'.jobs[t].value) {
      assert s.jobs[t] == Some(s.jobs[t].value);
      JobStays(s.queues, i, e, t, s.jobs[t].value);
    }
  }

  lemma StartedKeepsInv<T>(s: State<T>, t: nat, i: nat, c: nat)
    requires Inv(s) && CanStart(s, t, i, c)
    ensures Inv(Started(s, t, i, c))
  {
    var e := M.Start(c, M.Steal(RoomOf(s.queues[t])));
    var s' := Started(s, t, i, c);
    forall u: nat | u < |s'.jobs| && s'.jobs[u].Some? ensures JobInv(s'.queues, u, s'.jobs[u].value) {
      if u == t {
        CalledThere(s.queues[i], c, RoomOf(s.queues[t]));
      } else {
        assert JobInv(s.queues, u, s.jobs[u].value);
        JobStays(s.queues, i, e, u, s.jobs[u].value);
      }
    }
    forall u: nat | u < |s.jobs| && s.jobs[u].Some? ensures s.jobs[u].value != Job(i, c) {
      assert JobInv(s.queues, u, s.jobs[u].value);
    }
  }

  /** A steal is called with the room that is free behind the own tail; in an empty queue that is its
      capacity. */
  lemma StealStarts<T>(s: State<T>, t: nat, i: nat, c: nat)
    requires Inv(s) && CanStart(s, t, i, c)
    ensures var s', own := Step(s, StartSteal(t, i, c)), s.queues[t].q;
            && t < |s'.jobs| && s'.jobs[t] == Some(Job(i, c)) && PcOf(s', t).LoadHead?
            && PcOf(s', t).op.Steal? && own.tail + PcOf(s', t).op.room == own.head + M.Newest(own).cap
            && s'.queues[i].q == s.queues[i].q && s'.queues[t] == s.queues[t]
  {
    CalledThere(s.queues[i], c, RoomOf(s.queues[t]));
    M.ConsumersLeave(s.queues[i], M.Start(c, M.Steal(RoomOf(s.queues[t]))));
    SameHead(s.queues[i], c, RoomOf(s.queues[t]));
  }

  lemma SameHead<T>(m: M.State<T>, c: nat, room: nat)
    requires M.Inv(m)
    ensures M.Step(m, M.Start(c, M.Steal(room))).q == m.q
  {
  }

  lemma CalledThere<T>(m: M.State<T>, c: nat, room: nat)
    requires M.Inv(m) && c < |m.consumers| && m.consumers[c].pc.Rest?
    ensures var m' := M.Step(m, M.Start(c, M.Steal(room)));
            c < |m'.consumers| && m'.consumers[c].pc == M.LoadHead(M.Steal(room), 0)
  {
  }

  // ------------------------------------------------------------------ the steps of a thief

  /** Where the step of a consumer leads. */
  lemma ConsumerGoes<T>(src: M.State<T>, h: nat, locked: bool)
    requires M.Inv(src) && h < |src.consumers|
    ensures var src', c := M.Step(src, M.Consume(h, locked)), src.consumers[h];
            && h < |src'.consumers| && M.ConsumerInv(src.q, c)
            && src'.consumers[h] == M.ConsumerStep(src.q, c, src.least, locked).0
  {
  }

  lemma StoreGoes<T>(own: M.State<T>, vals: seq<T>, v: T)
    requires M.Inv(own) && Stored(own, vals) && Fits(own, |vals| + 1)
    ensures var own' := M.Step(own, M.Produce(M.Write(v)));
            && Stored(own', vals + [v]) && 0 < |own'.q.versions| && forall n: nat :: Fits(own, n) ==> Fits(own', n)
  {
  }

  lemma RetreatGoes<T>(own: M.State<T>, vals: seq<T>)
    requires M.Inv(own) && Stored(own, vals)
    ensures var own' := M.Step(own, M.Produce(M.Abandon)); own'.q == own.q && own'.producer.Idle?
  {
  }

  lemma PublicationGoes<T>(own: M.State<T>, vals: seq<T>)
    requires M.Inv(own) && Stored(own, vals)
    ensures var own' := M.Step(own, M.Produce(M.Publish));
            own'.producer.Idle? && own'.q.log == own.q.log + vals && own'.delivered == own.delivered
  {
  }

  /** Before its copy a thief does nothing in its own queue. */
  lemma LookingProgress<T>(own: M.State<T>, q: M.Shared<T>, c: M.Consumer<T>, least: nat, locked: bool)
    requires M.Inv(own) && M.SharedInv(q) && M.ConsumerInv(q, c) && OnJob(own, c.pc)
    requires c.pc.LoadHead? || c.pc.LoadWord? || c.pc.Update?
    ensures var pc' := M.ConsumerStep(q, c, least, locked).0.pc;
            OwnAction(c.pc, pc').None? && (pc'.Rest? || OnJob(own, pc'))
  {
  }

  lemma HandingProgress<T>(own: M.State<T>, src: M.State<T>, h: nat, locked: bool)
    requires M.Inv(own) && M.Inv(src) && h < |src.consumers| && OnJob(own, src.consumers[h].pc)
    requires src.consumers[h].pc.Handing?
    ensures var src' := M.Step(src, M.Consume(h, locked));
            && h < |src'.consumers| && src'.consumers[h].pc.Rest?
            && var own' := OwnAfter(own, OwnAction(src.consumers[h].pc, src'.consumers[h].pc));
               own'.producer.Idle? && own'.q.log == own.q.log + src.consumers[h].pc.vals
  {
    ConsumerGoes(src, h, locked);
    PublicationGoes(own, src.consumers[h].pc.vals);
  }

  /** After every step a thief still knows what it has stored; at the end its producer is at rest. */
  lemma ThiefProgress<T>(own: M.State<T>, src: M.State<T>, h: nat, locked: bool)
    requires M.Inv(own) && M.Inv(src) && h < |src.consumers| && OnJob(own, src.consumers[h].pc)
    ensures var src' := M.Step(src, M.Consume(h, locked));
            && h < |src'.consumers|
            && var pc, pc' := src.consumers[h].pc, src'.consumers[h].pc;
               var own' := OwnAfter(own, OwnAction(pc, pc'));
               if pc'.Rest? then own'.producer.Idle? else OnJob(own', pc')
  {
    if src.consumers[h].pc.Copy? {
      CopyProgress(own, src, h, locked);
    } else if src.consumers[h].pc.Handing? {
      HandingProgress(own, src, h, locked);
    } else {
      ConsumerGoes(src, h, locked);
      LookingProgress(own, src.q, src.consumers[h], src.least, locked);
    }
  }

  lemma CopyProgress<T>(own: M.State<T>, src: M.State<T>, h: nat, locked: bool)
    requires M.Inv(own) && M.Inv(src) && h < |src.consumers| && OnJob(own, src.consumers[h].pc)
    requires src.consumers[h].pc.Copy?
    ensures var src' := M.Step(src, M.Consume(h, locked));
            && h < |src'.consumers|
            && var pc, pc' := src.consumers[h].pc, src'.consumers[h].pc;
               var own' := OwnAfter(own, OwnAction(pc, pc'));
               !pc'.Rest? && OnJob(own', pc')
  {
    ConsumerGoes(src, h, locked);
    CopyingProgress(own, src.q, src.consumers[h], src.least, locked);
  }

  lemma CopyingProgress<T>(own: M.State<T>, q: M.Shared<T>, c: M.Consumer<T>, least: nat, locked: bool)
    requires M.Inv(own) && M.SharedInv(q) && M.ConsumerInv(q, c) && OnJob(own, c.pc) && c.pc.Copy?
    ensures var pc' := M.ConsumerStep(q, c, least, locked).0.pc;
            !pc'.Rest? && OnJob(OwnAfter(own, OwnAction(c.pc, pc')), pc')
  {
    var Copy(op, head, tail, n, copied, tries) := c.pc;
    var pc' := M.ConsumerStep(q, c, least, locked).0.pc;
    if |copied| < n {
      StoreGoes(own, copied, pc'.copied[|copied|]);
    } else if q.head != head {
      RetreatGoes(own, copied);
    }
  }

  /** The queues after a step of a thief. */
  function ThiefQueues<T>(s: State<T>, t: nat, locked: bool): seq<M.State<T>>
    requires Inv(s) && t < |s.jobs| && s.jobs[t].Some?
  {
    var job := s.jobs[t].value;
    var src := SourceAfter(s, t, locked);
    ConsumerGoes(Source(s, t), job.handle, locked);
    s.queues[job.from := src][t := OwnAfter(s.queues[t], OwnAction(PcOf(s, t), src.consumers[job.handle].pc))]
  }

  /** What the step does to the thief's own queue leaves the jobs of others alone. */
  lemma JobStaysOwn<T>(queues: seq<M.State<T>>, t: nat, a: Option<M.Action<T>>, u: nat, job: Job)
    requires t < |queues| && u < |queues| && u != t && M.Inv(queues[t]) && M.Inv(queues[u]) && JobInv(queues, u, job)
    ensures JobInv(queues[t := OwnAfter(queues[t], a)], u, job)
  {
    if a.Some? { JobStays(queues, t, M.Produce(a.value), u, job); } else { assert queues[t := queues[t]] == queues; }
  }

  lemma JobStaysTwice<T>(s: State<T>, t: nat, locked: bool, u: nat, src: M.State<T>, a: Option<M.Action<T>>)
    requires Inv(s) && t < |s.jobs| && s.jobs[t].Some? && u < |s.jobs| && u != t && s.jobs[u].Some?
    requires src == SourceAfter(s, t, locked)
    ensures var from := s.jobs[t].value.from;
            JobInv(s.queues[from := src][t := OwnAfter(s.queues[t], a)], u, s.jobs[u].value)
  {
    var job, other := s.jobs[t].value, s.jobs[u].value;
    assert JobInv(s.queues, u, other) && JobInv(s.queues, t, job) && s.jobs[t] != s.jobs[u];
    JobStays(s.queues, job.from, M.Consume(job.handle, locked), u, other);
    JobStaysOwn(s.queues[job.from := src], t, a, u, other);
  }

  lemma OwnJobGoesOn<T>(s: State<T>, t: nat, locked: bool)
    requires Inv(s) && t < |s.jobs| && s.jobs[t].Some?
    ensures var queues, job := ThiefQueues(s, t, locked), s.jobs[t].value;
            && |queues| == |s.queues| && job.handle < |queues[job.from].consumers|
            && queues[job.from] == SourceAfter(s, t, locked)
            && (!queues[job.from].consumers[job.handle].pc.Rest? ==> JobInv(queues, t, job))
  {
    assert JobInv(s.queues, t, s.jobs[t].value);
    ThiefProgress(s.queues[t], Source(s, t), s.jobs[t].value.handle, locked);
  }

  /** The step itself. */
  lemma ThiefStepIs<T>(s: State<T>, t: nat, locked: bool)
    requires Inv(s) && t < |s.jobs| && s.jobs[t].Some?
    ensures var s', src, h := ThiefStep(s, t, locked), SourceAfter(s, t, locked), s.jobs[t].value.handle;
            && h < |src.consumers| && s'.queues == ThiefQueues(s, t, locked)
            && s'.jobs == if src.consumers[h].pc.Rest? then s.jobs[t := None] else s.jobs
  {
    ConsumerGoes(Source(s, t), s.jobs[t].value.handle, locked);
  }

  lemma ThiefJobsStay<T>(s: State<T>, t: nat, locked: bool, u: nat, s': State<T>)
    requires Inv(s) && t < |s.jobs| && s.jobs[t].Some? && s' == ThiefStep(s, t, locked)
    requires u < |s.jobs| == |s'.jobs| == |s'.queues| == |s.queues| && s'.jobs[u].Some?
    requires 0 < |s'.queues[u].q.versions|
    ensures JobInv(s'.queues, u, s'.jobs[u].value)
  {
    ThiefStepIs(s, t, locked);
    if u == t {
      OwnJobGoesOn(s, t, locked);
    } else {
      var src := SourceAfter(s, t, locked);
      JobStaysTwice(s, t, locked, u, src, OwnAction(PcOf(s, t), src.consumers[s.jobs[t].value.handle].pc));
    }
  }

  lemma ThiefQueuesSound<T>(s: State<T>, t: nat, locked: bool)
    requires Inv(s) && t < |s.jobs| && s.jobs[t].Some?
    ensures Sound(ThiefQueues(s, t, locked))
  {
  }

  lemma ThiefStepKeepsInv<T>(s: State<T>, t: nat, locked: bool)
    requires Inv(s) && t < |s.jobs| && s.jobs[t].Some?
    ensures Inv(ThiefStep(s, t, locked))
  {
    ThiefStepIs(s, t, locked);
    ThiefQueuesSound(s, t, locked);
    var s' := ThiefStep(s, t, locked);
    assert Distinct(s'.jobs);
    forall u: nat | u < |s'.jobs| && s'.jobs[u].Some? ensures JobInv(s'.queues, u, s'.jobs[u].value) {
      ThiefJobsStay(s, t, locked, u, s');
    }
  }

  // ------------------------------------------------------------------ runs

  function OwnNext<T>(s: State<T>, i: nat, e: M.Event<T>): (s': State<T>)
    requires Inv(s)
    ensures Inv(s')
  {
    if i < |s.queues| && Free(s, i, e) then
      OwnStepKeepsInv(s, i, e);
      OwnStep(s, i, e)
    else s
  }

  function StartNext<T>(s: State<T>, t: nat, i: nat, c: nat): (s': State<T>)
    requires Inv(s)
    ensures Inv(s')
  {
    if CanStart(s, t, i, c) then
      StartedKeepsInv(s, t, i, c);
      Started(s, t, i, c)
    else s
  }

  function ThiefNext<T>(s: State<T>, t: nat, locked: bool): (s': State<T>)
    requires Inv(s)
    ensures Inv(s')
  {
    if t < |s.jobs| && s.jobs[t].Some? then
      ThiefStepKeepsInv(s, t, locked);
      ThiefStep(s, t, locked)
    else s
  }

  function Step<T>(s: State<T>, e: Event<T>): (s': State<T>)
    requires Inv(s)
    ensures Inv(s')
  {
    match e
    case Own(i, event) => OwnNext(s, i, event)
    case StartSteal(t, i, c) => StartNext(s, t, i, c)
    case Thief(t, locked) => ThiefNext(s, t, locked)
  }

  function Run<T>(s: State<T>, events: seq<Event<T>>): (s': State<T>)
    requires Inv(s)
    ensures Inv(s')
    decreases |events|
  {
    if events == [] then s else Run(Step(s, events[0]), events[1..])
  }

  /** Empty queues over arbitrary memory, nobody steals. */
  function Init<T>(memories: seq<seq<T>>, least: nat): (s: State<T>)
    requires forall i :: 0 <= i < |memories| ==> 0 < |memories[i]|
    ensures Inv(s)
  {
    State(seq(|memories|, i requires 0 <= i < |memories| => M.Init(memories[i], least)),
          seq(|memories|, i => None), multiset{}, multiset{}, multiset{})
  }

  function RunFrom<T>(memories: seq<seq<T>>, least: nat, events: seq<Event<T>>): (s: State<T>)
    requires forall i :: 0 <= i < |memories| ==> 0 < |memories[i]|
    ensures Inv(s)
  {
    Run(Init(memories, least), events)
  }

  // ------------------------------------------------------------------ conservation

  function Logs<T>(queues: seq<M.State<T>>): seq<multiset<T>> {
    seq(|queues|, i requires 0 <= i < |queues| => multiset(queues[i].q.log))
  }

  function Outs<T>(queues: seq<M.State<T>>): seq<multiset<T>> {
    seq(|queues|, i requires 0 <= i < |queues| => queues[i].delivered)
  }

  /** What a queue still has: unclaimed, held by its producer, or in the hands of thieves. */
  function Present<T>(m: M.State<T>): multiset<T> {
    (if m.q.head <= |m.q.log| then multiset(m.q.log[m.q.head..]) else multiset{})
    + M.Held(m.producer) + Total(M.Hands(m.consumers))
  }

  function Presents<T>(queues: seq<M.State<T>>): seq<multiset<T>> {
    seq(|queues|, i requires 0 <= i < |queues| => Present(queues[i]))
  }

  /** All that was published was pushed or moved, and all that was delivered was popped or moved. */
  ghost predicate Ledger<T>(s: State<T>) {
    Total(Logs(s.queues)) == s.pushed + s.moved && Total(Outs(s.queues)) == s.popped + s.moved
  }

  lemma LogsUpdate<T>(queues: seq<M.State<T>>, i: nat, m: M.State<T>, vals: multiset<T>)
    requires i < |queues| && multiset(m.q.log) == multiset(queues[i].q.log) + vals
    ensures Total(Logs(queues[i := m])) == Total(Logs(queues)) + vals
  {
    TotalUpdate(Logs(queues), i, multiset(m.q.log));
    assert Logs(queues[i := m]) == Logs(queues)[i := multiset(m.q.log)];
    Cancel(Total(Logs(queues[i := m])), multiset(queues[i].q.log), Total(Logs(queues)), vals);
  }

  lemma OutsUpdate<T>(queues: seq<M.State<T>>, i: nat, m: M.State<T>, vals: multiset<T>)
    requires i < |queues| && m.delivered == queues[i].delivered + vals
    ensures Total(Outs(queues[i := m])) == Total(Outs(queues)) + vals
  {
    TotalUpdate(Outs(queues), i, m.delivered);
    assert Outs(queues[i := m]) == Outs(queues)[i := m.delivered];
    Cancel(Total(Outs(queues[i := m])), queues[i].delivered, Total(Outs(queues)), vals);
  }

  lemma Cancel<T>(a: multiset<T>, x: multiset<T>, b: multiset<T>, y: multiset<T>)
    requires a + x == b + (x + y)
    ensures a == b + y
  {
    forall v: T ensures a[v] == (b + y)[v] { assert (a + x)[v] == (b + (x + y))[v]; }
  }

  lemma ProducerLog<T>(q: M.Shared<T>, p: M.Producer<T>, a: M.Action<T>)
    requires M.SharedInv(q) && M.ProducerInv(q, p)
    ensures M.ProducerStep(q, p, a).q.log == q.log + (if a.Publish? && p.Filling? then p.vals else [])
  {
  }

  /** A step of a queue publishes and delivers what it is said to. */
  lemma StepFlows<T>(m: M.State<T>, e: M.Event<T>)
    requires M.Inv(m)
    ensures M.Step(m, e).q.log == m.q.log + PublishedBy(m, e)
    ensures M.Step(m, e).delivered == m.delivered + multiset(OutBy(m, e))
  {
    match e
    case Produce(a) =>
      ProducerLog(m.q, m.producer, a);
      assert M.Step(m, e) == M.ProduceStep(m, a);
    case Consume(c, locked) =>
      M.ConsumersLeave(m, e);
      if c < |m.consumers| { assert M.Step(m, e) == M.ConsumeStep(m, c, locked); }
    case _ =>
      M.ConsumersLeave(m, e);
  }

  /** One queue publishes and delivers more, to callers. */
  lemma LedgerAfter<T>(s: State<T>, i: nat, m: M.State<T>, published: multiset<T>, out: multiset<T>)
    requires Ledger(s) && i < |s.queues| && multiset(m.q.log) == multiset(s.queues[i].q.log) + published
    requires m.delivered == s.queues[i].delivered + out
    ensures Ledger(s.(queues := s.queues[i := m], pushed := s.pushed + published, popped := s.popped + out))
  {
    LogsUpdate(s.queues, i, m, published);
    OutsUpdate(s.queues, i, m, out);
    assert s.pushed + s.moved + published == s.pushed + published + s.moved;
    assert s.popped + s.moved + out == s.popped + out + s.moved;
  }

  lemma OwnStepLedger<T>(s: State<T>, i: nat, e: M.Event<T>)
    requires Inv(s) && Ledger(s) && i < |s.queues|
    ensures Ledger(OwnStep(s, i, e))
  {
    StepFlows(s.queues[i], e);
    LedgerAfter(s, i, M.Step(s.queues[i], e), multiset(PublishedBy(s.queues[i], e)), multiset(OutBy(s.queues[i], e)));
  }

  /** The start of a call publishes and delivers nothing. */
  lemma StartedLedger<T>(s: State<T>, t: nat, i: nat, c: nat)
    requires Inv(s) && Ledger(s) && CanStart(s, t, i, c)
    ensures Ledger(Started(s, t, i, c))
  {
    var e := M.Start(c, M.Steal(RoomOf(s.queues[t])));
    StepFlows(s.queues[i], e);
    LedgerStays(s, i, M.Step(s.queues[i], e), s.jobs[t := Some(Job(i, c))]);
  }

  lemma LedgerStays<T>(s: State<T>, i: nat, m: M.State<T>, jobs: seq<Option<Job>>)
    requires Ledger(s) && i < |s.queues|
    requires m.q.log == s.queues[i].q.log && m.delivered == s.queues[i].delivered
    ensures Ledger(s.(queues := s.queues[i := m], jobs := jobs))
  {
    LogsUpdate(s.queues, i, m, multiset{});
    OutsUpdate(s.queues, i, m, multiset{});
  }

  /** The source delivers nothing before the thief publishes, and then what the thief had in hand. */
  lemma SourceFlows<T>(src: M.State<T>, h: nat, locked: bool, own: M.State<T>)
    requires M.Inv(src) && M.Inv(own) && h < |src.consumers| && OnJob(own, src.consumers[h].pc)
    ensures var src', pc := M.Step(src, M.Consume(h, locked)), src.consumers[h].pc;
            && src'.q.log == src.q.log
            && src'.delivered == src.delivered + multiset(if pc.Handing? then pc.vals else [])
  {
    StepFlows(src, M.Consume(h, locked));
  }

  /** The own queue of the thief publishes this and nothing else, and delivers nothing. */
  lemma OwnFlows<T>(own: M.State<T>, pc: M.Pc<T>, pc': M.Pc<T>)
    requires M.Inv(own) && OnJob(own, pc)
    ensures var own' := OwnAfter(own, OwnAction(pc, pc'));
            && own'.q.log == own.q.log + (if pc.Handing? then pc.vals else [])
            && own'.delivered == own.delivered
  {
    var a := OwnAction(pc, pc');
    if pc.Handing? {
      PublicationGoes(own, pc.vals);
    } else if a.Some? {
      StepFlows(own, M.Produce(a.value));
      NothingOut(own, a.value);
    }
  }

  lemma NothingOut<T>(own: M.State<T>, a: M.Action<T>)
    requires M.Inv(own) && (a.Write? || a.Abandon? || a.Publish?)
    ensures OutBy(own, M.Produce(a)) == []
  {
  }

  lemma MovedLedger<T>(s: State<T>, i: nat, src: M.State<T>, t: nat, own: M.State<T>, vals: multiset<T>,
                       jobs: seq<Option<Job>>)
    requires Ledger(s) && i < |s.queues| && t < |s.queues| && i != t
    requires multiset(src.q.log) == multiset(s.queues[i].q.log) && src.delivered == s.queues[i].delivered + vals
    requires multiset(own.q.log) == multiset(s.queues[t].q.log) + vals && own.delivered == s.queues[t].delivered
    ensures Ledger(s.(queues := s.queues[i := src][t := own], jobs := jobs, moved := s.moved + vals))
  {
    var queues := s.queues[i := src];
    LogsUpdate(s.queues, i, src, multiset{});
    OutsUpdate(s.queues, i, src, vals);
    LogsUpdate(queues, t, own, vals);
    OutsUpdate(queues, t, own, multiset{});
    assert s.pushed + s.moved + vals == s.pushed + (s.moved + vals);
    assert s.popped + s.moved + vals == s.popped + (s.moved + vals);
  }

  lemma ThiefStepLedger<T>(s: State<T>, t: nat, locked: bool)
    requires Inv(s) && Ledger(s) && t < |s.jobs| && s.jobs[t].Some?
    ensures Ledger(ThiefStep(s, t, locked))
  {
    var job, pc := s.jobs[t].value, PcOf(s, t);
    assert JobInv(s.queues, t, job);
    ThiefStepIs(s, t, locked);
    var src := SourceAfter(s, t, locked);
    var pc' := src.consumers[job.handle].pc;
    SourceFlows(Source(s, t), job.handle, locked, s.queues[t]);
    OwnFlows(s.queues[t], pc, pc');
    var vals := if pc.Handing? then multiset(pc.vals) else multiset{};
    MovedLedger(s, job.from, src, t, OwnAfter(s.queues[t], OwnAction(pc, pc')), vals, ThiefStep(s, t, locked).jobs);
  }

  lemma {:induction false} RunKeepsLedger<T>(s: State<T>, events: seq<Event<T>>)
    requires Inv(s) && Ledger(s)
    ensures Ledger(Run(s, events))
    decreases |events|
  {
    if events != [] {
      StepKeepsLedger(s, events[0]);
      RunKeepsLedger(Step(s, events[0]), events[1..]);
    }
  }

  lemma OwnNextLedger<T>(s: State<T>, i: nat, e: M.Event<T>)
    requires Inv(s) && Ledger(s)
    ensures Ledger(OwnNext(s, i, e))
  {
    if i < |s.queues| && Free(s, i, e) { OwnStepLedger(s, i, e); }
  }

  lemma StartNextLedger<T>(s: State<T>, t: nat, i: nat, c: nat)
    requires Inv(s) && Ledger(s)
    ensures Ledger(StartNext(s, t, i, c))
  {
    if CanStart(s, t, i, c) { StartedLedger(s, t, i, c); }
  }

  lemma ThiefNextLedger<T>(s: State<T>, t: nat, locked: bool)
    requires Inv(s) && Ledger(s)
    ensures Ledger(ThiefNext(s, t, locked))
  {
    if t < |s.jobs| && s.jobs[t].Some? { ThiefStepLedger(s, t, locked); }
  }

  lemma StepKeepsLedger<T>(s: State<T>, e: Event<T>)
    requires Inv(s) && Ledger(s)
    ensures Ledger(Step(s, e))
  {
    match e
    case Own(i, event) => OwnNextLedger(s, i, event);
    case StartSteal(t, i, c) => StartNextLedger(s, t, i, c);
    case Thief(t, locked) => ThiefNextLedger(s, t, locked);
  }

  /** In each queue what was published is present or delivered. */
  lemma {:induction false} TotalsAgree<T>(queues: seq<M.State<T>>)
    requires Sound(queues)
    ensures Total(Logs(queues)) == Total(Presents(queues)) + Total(Outs(queues))
  {
    if queues != [] {
      var n := |queues| - 1;
      var rest := queues[..n];
      TotalsAgree(rest);
      M.AllOfTheLog(queues[n]);
      OneMoreQueue(queues, rest, n);
      AddThree(Total(Logs(rest)), Total(Presents(rest)), Total(Outs(rest)), multiset(queues[n].q.log),
               Present(queues[n]), queues[n].delivered);
    }
  }

  lemma OneMoreQueue<T>(queues: seq<M.State<T>>, rest: seq<M.State<T>>, n: nat)
    requires |queues| == n + 1 && rest == queues[..n]
    ensures Total(Logs(queues)) == Total(Logs(rest)) + multiset(queues[n].q.log)
    ensures Total(Presents(queues)) == Total(Presents(rest)) + Present(queues[n])
    ensures Total(Outs(queues)) == Total(Outs(rest)) + queues[n].delivered
  {
    assert Logs(queues)[..n] == Logs(rest);
    assert Presents(queues)[..n] == Presents(rest);
    assert Outs(queues)[..n] == Outs(rest);
  }

  lemma AddThree<T>(a: multiset<T>, b: multiset<T>, c: multiset<T>, x: multiset<T>, y: multiset<T>, z: multiset<T>)
    requires a == b + c && x == y + z
    ensures a + x == (b + y) + (c + z)
  {
  }

  /** Conservation in every run of any number of unbounded queues, producers, thieves and consumers, up
      to the first store of a push over an element that nobody took: what was pushed is in the queues,
      held by a producer, in the hands of a thief, or popped. */
  lemma Conservation<T>(memories: seq<seq<T>>, least: nat, events: seq<Event<T>>)
    requires forall i :: 0 <= i < |memories| ==> 0 < |memories[i]|
    ensures var s := RunFrom(memories, least, events); s.pushed == Total(Presents(s.queues)) + s.popped
  {
    StartsLedger(memories, least);
    RunKeepsLedger(Init(memories, least), events);
    ConservedIn(RunFrom(memories, least, events));
  }

  lemma StartsLedger<T>(memories: seq<seq<T>>, least: nat)
    requires forall i :: 0 <= i < |memories| ==> 0 < |memories[i]|
    ensures Ledger(Init(memories, least))
  {
    var s0 := Init(memories, least);
    TotalOfNothing(Logs(s0.queues));
    TotalOfNothing(Outs(s0.queues));
  }

  lemma ConservedIn<T>(s: State<T>)
    requires Sound(s.queues) && Ledger(s)
    ensures s.pushed == Total(Presents(s.queues)) + s.popped
  {
    TotalsAgree(s.queues);
    CancelMoved(s.pushed, s.moved, Total(Presents(s.queues)), s.popped);
  }

  lemma CancelMoved<T>(a: multiset<T>, x: multiset<T>, b: multiset<T>, y: multiset<T>)
    requires a + x == b + (y + x)
    ensures a == b + y
  {
    forall v: T ensures a[v] == (b + y)[v] { assert (a + x)[v] == (b + (y + x))[v]; }
  }

  // ------------------------------------------------------------------ safe pushes

  /** A push is called when its test is safe (`PushTest.TestIsSafeIff`). */
  ghost predicate SafeEvent<T>(s: State<T>, e: Event<T>)
    requires Inv(s)
  {
    e.Own? && e.i < |s.queues| ==> M.SafeEvent(s.queues[e.i], e.event)
  }

  ghost predicate SafePushes<T>(s: State<T>, events: seq<Event<T>>)
    requires Inv(s)
    decreases |events|
  {
    events == [] || (SafeEvent(s, events[0]) && SafePushes(Step(s, events[0]), events[1..]))
  }

  /** Nothing was stored over, and no push under way will. */
  ghost predicate Unharmed<T>(queues: seq<M.State<T>>)
    requires Sound(queues)
  {
    forall i: nat {:trigger queues[i]} :: i < |queues| ==>
      queues[i].lost == multiset{} && M.Roomy(queues[i].q, queues[i].producer)
  }

  lemma UnharmedStep<T>(queues: seq<M.State<T>>, i: nat, e: M.Event<T>)
    requires Sound(queues) && Unharmed(queues) && i < |queues| && M.SafeEvent(queues[i], e)
    ensures Sound(queues[i := M.Step(queues[i], e)]) && Unharmed(queues[i := M.Step(queues[i], e)])
  {
    M.RoomyStep(queues[i], e);
  }

  lemma UnharmedThief<T>(s: State<T>, t: nat, locked: bool)
    requires Inv(s) && Unharmed(s.queues) && t < |s.jobs| && s.jobs[t].Some?
    ensures Sound(ThiefQueues(s, t, locked)) && Unharmed(ThiefQueues(s, t, locked))
  {
    var job := s.jobs[t].value;
    assert JobInv(s.queues, t, job);
    UnharmedStep(s.queues, job.from, M.Consume(job.handle, locked));
    ConsumerGoes(Source(s, t), job.handle, locked);
    var queues := s.queues[job.from := SourceAfter(s, t, locked)];
    UnharmedAction(queues, t, OwnAction(PcOf(s, t), queues[job.from].consumers[job.handle].pc));
  }

  lemma UnharmedAction<T>(queues: seq<M.State<T>>, t: nat, a: Option<M.Action<T>>)
    requires Sound(queues) && Unharmed(queues) && t < |queues| && (a.Some? ==> !a.value.Push?)
    ensures Sound(queues[t := OwnAfter(queues[t], a)]) && Unharmed(queues[t := OwnAfter(queues[t], a)])
  {
    if a.Some? { UnharmedStep(queues, t, M.Produce(a.value)); } else { assert queues[t := queues[t]] == queues; }
  }

  lemma SafeStep<T>(s: State<T>, e: Event<T>)
    requires Inv(s) && Unharmed(s.queues) && SafeEvent(s, e)
    ensures Unharmed(Step(s, e).queues)
  {
    match e
    case Own(i, event) => if i < |s.queues| && Free(s, i, event) { UnharmedStep(s.queues, i, event); }
    case StartSteal(t, i, c) =>
      if CanStart(s, t, i, c) { UnharmedStep(s.queues, i, M.Start(c, M.Steal(RoomOf(s.queues[t])))); }
    case Thief(t, locked) =>
      if t < |s.jobs| && s.jobs[t].Some? {
        UnharmedThief(s, t, locked);
        ThiefStepIs(s, t, locked);
      }
  }

  lemma {:induction false} SafeRun<T>(s: State<T>, events: seq<Event<T>>)
    requires Inv(s) && Unharmed(s.queues) && SafePushes(s, events)
    ensures Unharmed(Run(s, events).queues)
    decreases |events|
  {
    if events != [] {
      SafeStep(s, events[0]);
      SafeRun(Step(s, events[0]), events[1..]);
    }
  }

  /** With pushes that are safe when they are called no run stores over an element. */
  lemma SafePushesLoseNothing<T>(memories: seq<seq<T>>, least: nat, events: seq<Event<T>>, i: nat)
    requires forall i :: 0 <= i < |memories| ==> 0 < |memories[i]|
    requires SafePushes(Init(memories, least), events) && i < |RunFrom(memories, least, events).queues|
    ensures RunFrom(memories, least, events).queues[i].lost == multiset{}
  {
    SafeRun(Init(memories, least), events);
  }

  // ------------------------------------------------------------------ what a steal moves

  /** The exchange of a thief that finds the head of the source where it was loaded: the source gives
      up its oldest values, and the thief has exactly these in hand, rotated. */
  lemma ThiefWins<T>(s: State<T>, t: nat, locked: bool)
    requires Inv(s) && t < |s.jobs| && s.jobs[t].Some?
    requires var pc := PcOf(s, t); pc.Copy? && |pc.copied| == pc.n && Source(s, t).q.head == pc.head
    ensures var s', q, pc := Step(s, Thief(t, locked)), Source(s, t).q, PcOf(s, t);
            var cap := q.versions[Source(s, t).consumers[s.jobs[t].value.handle].version].cap;
            && t < |s'.jobs| && s'.jobs[t] == s.jobs[t] && Source(s', t).q == M.Claim(q, pc.n)
            && 0 < cap && pc.head + pc.n <= q.tail && pc.n <= cap
            && pc.op.Steal? && M.Amount(pc.op, pc.head, pc.tail, pc.n) && pc.tail <= q.tail
            && PcOf(s', t).Handing? && PcOf(s', t).vals == Expected(q.log, true, pc.head, pc.n, cap)
            && s'.queues[t] == s.queues[t]
  {
    assert JobInv(s.queues, t, s.jobs[t].value);
    SourceWins(Source(s, t), s.jobs[t].value.handle, locked);
    ThiefGoesOn(s, t, locked);
  }

  /** A thief that is not done has its place in the source after the step. */
  lemma ThiefGoesOn<T>(s: State<T>, t: nat, locked: bool)
    requires Inv(s) && t < |s.jobs| && s.jobs[t].Some?
    ensures var s', src, h := Step(s, Thief(t, locked)), SourceAfter(s, t, locked), s.jobs[t].value.handle;
            && h < |src.consumers|
            && (!src.consumers[h].pc.Rest? ==>
                  && t < |s'.jobs| && s'.jobs[t] == s.jobs[t] && Source(s', t) == src
                  && PcOf(s', t) == src.consumers[h].pc
                  && s'.queues[t] == OwnAfter(s.queues[t], OwnAction(PcOf(s, t), src.consumers[h].pc)))
  {
    assert JobInv(s.queues, t, s.jobs[t].value);
    ThiefStepIs(s, t, locked);
    assert Step(s, Thief(t, locked)) == ThiefStep(s, t, locked);
  }

  lemma SourceWins<T>(src: M.State<T>, h: nat, locked: bool)
    requires M.Inv(src) && h < |src.consumers|
    requires var pc := src.consumers[h].pc;
             pc.Copy? && pc.op.Steal? && |pc.copied| == pc.n && src.q.head == pc.head
    ensures var src', pc := M.Step(src, M.Consume(h, locked)), src.consumers[h].pc;
            && src.consumers[h].version < |src.q.versions|
            && var cap := src.q.versions[src.consumers[h].version].cap;
               && src'.q == M.Claim(src.q, pc.n) && h < |src'.consumers|
               && 0 < cap && pc.head + pc.n <= src.q.tail && pc.n <= cap
               && M.Amount(pc.op, pc.head, pc.tail, pc.n) && pc.tail <= src.q.tail
               && src'.consumers[h].pc == M.Handing(Expected(src.q.log, true, pc.head, pc.n, cap), pc.tries)
  {
    M.ReadSafety(src, h, locked);
    ConsumerGoes(src, h, locked);
  }

  /** Its next step appends what it has in hand to its own queue and ends the steal. */
  lemma ThiefPublishes<T>(s: State<T>, t: nat, locked: bool)
    requires Inv(s) && t < |s.jobs| && s.jobs[t].Some? && PcOf(s, t).Handing?
    ensures var s' := Step(s, Thief(t, locked));
            && |s'.queues| == |s.queues| && t < |s'.jobs| && s'.jobs[t].None? && s'.queues[t].producer.Idle?
            && s'.queues[t].q.log == s.queues[t].q.log + PcOf(s, t).vals
  {
    assert Step(s, Thief(t, locked)) == ThiefStep(s, t, locked);
    ThiefStepPublishes(s, t, locked);
  }

  lemma ThiefStepPublishes<T>(s: State<T>, t: nat, locked: bool)
    requires Inv(s) && t < |s.jobs| && s.jobs[t].Some? && PcOf(s, t).Handing?
    ensures var s' := ThiefStep(s, t, locked);
            && |s'.queues| == |s.queues| && t < |s'.jobs| && s'.jobs[t].None? && s'.queues[t].producer.Idle?
            && s'.queues[t].q.log == s.queues[t].q.log + PcOf(s, t).vals
  {
    var job := s.jobs[t].value;
    assert JobInv(s.queues, t, job);
    ThiefStepIs(s, t, locked);
    HandingProgress(s.queues[t], Source(s, t), job.handle, locked);
  }

  /** Whatever others do in between leaves the thief what it has in hand, and its queue's log. */
  lemma OthersLeaveThief<T>(s: State<T>, t: nat, e: Event<T>)
    requires Inv(s) && t < |s.jobs| && s.jobs[t].Some? && !(e.Thief? && e.thief == t)
    ensures var s' := Step(s, e);
            && |s'.jobs| == |s.jobs| && |s'.queues| == |s.queues| && s'.jobs[t] == s.jobs[t]
            && PcOf(s', t) == PcOf(s, t) && s'.queues[t].q.log == s.queues[t].q.log
  {
    assert JobInv(s.queues, t, s.jobs[t].value);
    match e
    case Own(i, event) => if i < |s.queues| && Free(s, i, event) { OwnLeavesThief(s, t, i, event); }
    case StartSteal(u, i, c) => if CanStart(s, u, i, c) { StartLeavesThief(s, t, u, i, c); }
    case Thief(u, locked) => if u < |s.jobs| && s.jobs[u].Some? { ThiefLeavesThief(s, t, u, locked); }
  }

  /** One step of a queue. */
  lemma StepLeavesThief<T>(queues: seq<M.State<T>>, i: nat, e: M.Event<T>, t: nat, job: Job)
    requires Sound(queues) && i < |queues| && t < |queues| && job.from < |queues|
    requires job.handle < |queues[job.from].consumers|
    requires (e.Start? || e.Consume?) && job.from == i ==> e.consumer != job.handle
    requires e.Produce? && i == t ==> !e.action.Publish?
    ensures var queues' := queues[i := M.Step(queues[i], e)];
            && Sound(queues') && job.handle < |queues'[job.from].consumers|
            && queues'[job.from].consumers[job.handle] == queues[job.from].consumers[job.handle]
            && queues'[t].q.log == queues[t].q.log
  {
    if i == job.from { OthersStay(queues[i], e, job.handle); }
    StepFlows(queues[i], e);
  }

  lemma OwnLeavesThief<T>(s: State<T>, t: nat, i: nat, e: M.Event<T>)
    requires Inv(s) && t < |s.jobs| && s.jobs[t].Some? && i < |s.queues| && Free(s, i, e)
    ensures var s', job := OwnStep(s, i, e), s.jobs[t].value;
            && job.from < |s.queues| && job.handle < |s'.queues[job.from].consumers|
            && s'.queues[job.from].consumers[job.handle].pc == PcOf(s, t) && s'.queues[t].q.log == s.queues[t].q.log
  {
    assert JobInv(s.queues, t, s.jobs[t].value) && s.jobs[t] == Some(s.jobs[t].value);
    StepLeavesThief(s.queues, i, e, t, s.jobs[t].value);
  }

  lemma StartLeavesThief<T>(s: State<T>, t: nat, u: nat, i: nat, c: nat)
    requires Inv(s) && t < |s.jobs| && s.jobs[t].Some? && CanStart(s, u, i, c)
    ensures var s', job := Started(s, u, i, c), s.jobs[t].value;
            && job.from < |s.queues| && job.handle < |s'.queues[job.from].consumers| && s'.jobs[t] == s.jobs[t]
            && s'.queues[job.from].consumers[job.handle].pc == PcOf(s, t) && s'.queues[t].q.log == s.queues[t].q.log
  {
    assert JobInv(s.queues, t, s.jobs[t].value);
    StepLeavesThief(s.queues, i, M.Start(c, M.Steal(RoomOf(s.queues[u]))), t, s.jobs[t].value);
  }

  /** The step that a thief takes in its own queue. */
  lemma ActionLeavesThief<T>(queues: seq<M.State<T>>, u: nat, a: Option<M.Action<T>>, t: nat, job: Job)
    requires Sound(queues) && u < |queues| && t < |queues| && u != t && job.from < |queues|
    requires job.handle < |queues[job.from].consumers|
    ensures var queues' := queues[u := OwnAfter(queues[u], a)];
            && job.handle < |queues'[job.from].consumers|
            && queues'[job.from].consumers[job.handle] == queues[job.from].consumers[job.handle]
            && queues'[t].q.log == queues[t].q.log
  {
    if a.Some? {
      StepLeavesThief(queues, u, M.Produce(a.value), t, job);
    } else {
      assert queues[u := queues[u]] == queues;
    }
  }

  lemma ThiefQueuesLeave<T>(s: State<T>, t: nat, u: nat, locked: bool, src: M.State<T>, a: Option<M.Action<T>>)
    requires Inv(s) && t < |s.jobs| && s.jobs[t].Some? && u < |s.jobs| && u != t && s.jobs[u].Some?
    requires src == SourceAfter(s, u, locked)
    ensures var queues, job := s.queues[s.jobs[u].value.from := src][u := OwnAfter(s.queues[u], a)], s.jobs[t].value;
            && job.from < |queues| && job.handle < |queues[job.from].consumers|
            && queues[job.from].consumers[job.handle].pc == PcOf(s, t) && queues[t].q.log == s.queues[t].q.log
  {
    var job, other := s.jobs[t].value, s.jobs[u].value;
    assert JobInv(s.queues, t, job) && JobInv(s.queues, u, other) && s.jobs[t] != s.jobs[u];
    StepLeavesThief(s.queues, other.from, M.Consume(other.handle, locked), t, job);
    ActionLeavesThief(s.queues[other.from := src], u, a, t, job);
  }

  lemma ThiefLeavesThief<T>(s: State<T>, t: nat, u: nat, locked: bool)
    requires Inv(s) && t < |s.jobs| && s.jobs[t].Some? && u < |s.jobs| && u != t && s.jobs[u].Some?
    ensures var s', job := ThiefStep(s, u, locked), s.jobs[t].value;
            && |s'.jobs| == |s.jobs| && |s'.queues| == |s.queues|
            && job.from < |s.queues| && job.handle < |s'.queues[job.from].consumers| && s'.jobs[t] == s.jobs[t]
            && s'.queues[job.from].consumers[job.handle].pc == PcOf(s, t) && s'.queues[t].q.log == s.queues[t].q.log
  {
    ThiefStepIs(s, u, locked);
    var src := SourceAfter(s, u, locked);
    ThiefQueuesLeave(s, t, u, locked, src, OwnAction(PcOf(s, u), src.consumers[s.jobs[u].value.handle].pc));
  }

  /** A steal that wins its exchange: whatever other threads do before the publication, the source has
      given up its oldest values and the queue of the thief ends with exactly these, rotated. */
  lemma {:induction false} LootArrives<T>(s: State<T>, t: nat, others: seq<Event<T>>, locked: bool)
    requires Inv(s) && t < |s.jobs| && s.jobs[t].Some? && PcOf(s, t).Handing?
    requires forall k :: 0 <= k < |others| ==> !(others[k].Thief? && others[k].thief == t)
    ensures var s' := Step(Run(s, others), Thief(t, locked));
            && |s'.queues| == |s.queues| && t < |s'.jobs| && s'.jobs[t].None?
            && s'.queues[t].q.log == s.queues[t].q.log + PcOf(s, t).vals
    decreases |others|
  {
    if others == [] {
      ThiefPublishes(s, t, locked);
    } else {
      OthersLeaveThief(s, t, others[0]);
      LootArrives(Step(s, others[0]), t, others[1..], locked);
    }
  }
}
