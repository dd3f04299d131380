/**
 Which calls of the multi-producer multi-consumer bounded queue end without the help of other threads
 (src/mpmc/const_bounded.rs): a thread that runs alone, whatever the others were doing when they
 stopped, ends its call within six steps or never.

 The traits promise that `lock_free_pop` and `lock_free_maybe_push` are lock-free. The pop keeps
 this promise; the push breaks it exactly while the oldest ticket of a full queue is being written.
 */
module MpmcProgress {
  import opened Mpmc
  import opened Ring

  /** Thread `t` alone takes `k` steps; its exchanges do not fail for no reason. */
  function Alone<T>(s: State<T>, t: nat, k: nat): (s': State<T>)
    requires WellFormed(s) && t < |s.threads|
    ensures WellFormed(s') && |s'.threads| == |s.threads|
    decreases k
  {
    if k == 0 then s else Alone(Step(s, t, Go(false)), t, k - 1)
  }

  /** The call of thread `t` needs another thread to go on first: a push needs the writer of the
      ticket one lap before the tail, and `pop`, but not `lock_free_pop`, the reader of that ticket
      when the queue is empty. */
  ghost predicate Waits<T>(s: State<T>, t: nat)
    requires WellFormed(s) && t < |s.threads|
  {
    var pc := s.threads[t];
    || (Pushing(pc) && s.tail >= s.cap && s.tail - s.cap in s.writers)
    || (Popping(pc) && !pc.lockFree && s.tail == s.head && PreviousLapHolds(s, s.head))
  }

  /** The most steps that the call at `pc` takes alone when it waits for nobody. */
  function StepsLeft<T>(pc: Pc<T>, head: nat, tail: nat): (n: nat)
    ensures n <= 6
  {
    match pc
    case PushMark(_) => 1
    case PushWrite(_, _) => 2
    case PushCas(_, loaded) => if loaded == tail then 3 else 5
    case PushTest(_, loaded) => if loaded == tail then 4 else 6
    case PushLoad(_) => 5
    case PopFree(_, _) => 1
    case PopRead(_) => 2
    case PopCas(_, loaded) => if loaded == head then 3 else 5
    case PopTest(_, loaded) => if loaded == head then 4 else 6
    case PopReload(lf, loaded) => if lf && loaded == head then 1 else 5
    case PopLoad(_) => 5
    case LenTail(loaded) => if loaded == head then 1 else 3
    case LenLoad => 2
    case _ => 0
  }

  predicate Busy<T>(s: State<T>, t: nat)
    requires t < |s.threads|
  {
    !Resting(s.threads[t])
  }

  // ------------------------------------------------------------------ a call that waits for nobody

  /** One step alone ends the call or leaves fewer steps of it, and it still waits for nobody. */
  ghost predicate Nearer<T>(s: State<T>, s': State<T>, t: nat)
    requires WellFormed(s) && WellFormed(s') && t < |s.threads| && t < |s'.threads|
  {
    Resting(s'.threads[t])
    || (!Waits(s', t) && StepsLeft(s'.threads[t], s'.head, s'.tail) < StepsLeft(s.threads[t], s.head, s.tail))
  }

  lemma PushIsNearer<T>(s: State<T>, t: nat)
    requires Inv(s) && t < |s.threads| && Pushing(s.threads[t]) && !Waits(s, t)
    ensures Nearer(s, Step(s, t, Go(false)), t)
  {
    assert ThreadInv(s, t);
    match s.threads[t]
    case PushTest(v, tail) => PushAnswers(s, t, v, tail);
    case PushCas(_, _) => ExchangeDecides(s, t, false);
    case _ =>
  }

  lemma PopIsNearer<T>(s: State<T>, t: nat)
    requires Inv(s) && t < |s.threads| && Popping(s.threads[t]) && !Waits(s, t)
    ensures Nearer(s, Step(s, t, Go(false)), t)
  {
    assert ThreadInv(s, t);
    if s.threads[t].PopTest? { PopTestIsNearer(s, t); }
    if s.threads[t].PopCas? { ExchangeDecides(s, t, false); }
  }

  lemma PopTestIsNearer<T>(s: State<T>, t: nat)
    requires Inv(s) && t < |s.threads| && s.threads[t].PopTest? && !Waits(s, t)
    ensures Nearer(s, Step(s, t, Go(false)), t)
  {
    assert ThreadInv(s, t);
    PopAnswers(s, t, s.threads[t].lockFree, s.threads[t].head);
  }

  lemma StepIsNearer<T>(s: State<T>, t: nat)
    requires Inv(s) && t < |s.threads| && Busy(s, t) && !Waits(s, t)
    ensures Nearer(s, Step(s, t, Go(false)), t)
  {
    assert ThreadInv(s, t);
    if Pushing(s.threads[t]) {
      PushIsNearer(s, t);
    } else if Popping(s.threads[t]) {
      PopIsNearer(s, t);
    } else if s.threads[t].LenTail? {
      LenMeans(s, t, s.threads[t].head);
    }
  }

  lemma {:induction false} EndsAlone<T>(s: State<T>, t: nat)
    requires Inv(s) && t < |s.threads| && !Waits(s, t)
    ensures exists k: nat :: k <= StepsLeft(s.threads[t], s.head, s.tail) && !Busy(Alone(s, t, k), t)
    decreases StepsLeft(s.threads[t], s.head, s.tail)
  {
    if Busy(s, t) {
      var s1 := Step(s, t, Go(false));
      StepKeepsInv(s, t, Go(false));
      StepIsNearer(s, t);
      if Busy(s1, t) {
        EndsAlone(s1, t);
        var k: nat :| k <= StepsLeft(s1.threads[t], s1.head, s1.tail) && !Busy(Alone(s1, t, k), t);
        assert Alone(s, t, k + 1) == Alone(s1, t, k);
      } else {
        assert Alone(s, t, 1) == Alone(s1, t, 0);
      }
    } else {
      assert Alone(s, t, 0) == s;
    }
  }

  // ------------------------------------------------------------------ a call that waits

  /** Alone, a call that waits goes on waiting. */
  lemma StillWaits<T>(s: State<T>, t: nat)
    requires Inv(s) && t < |s.threads| && Waits(s, t)
    ensures Waits(Step(s, t, Go(false)), t) && Busy(Step(s, t, Go(false)), t)
  {
    if Pushing(s.threads[t]) { PushStillWaits(s, t); } else { PopStillWaits(s, t); }
  }

  lemma PushStillWaits<T>(s: State<T>, t: nat)
    requires Inv(s) && t < |s.threads| && Pushing(s.threads[t]) && Waits(s, t)
    ensures Waits(Step(s, t, Go(false)), t) && Busy(Step(s, t, Go(false)), t)
  {
    assert ThreadInv(s, t);
    match s.threads[t]
    case PushTest(v, tail) => PushAnswers(s, t, v, tail);
    case PushCas(_, tail) =>
      ExchangeDecides(s, t, false);
      PreviousLapCell(s, tail);
    case _ =>
  }

  lemma PopStillWaits<T>(s: State<T>, t: nat)
    requires Inv(s) && t < |s.threads| && Popping(s.threads[t]) && Waits(s, t)
    ensures Waits(Step(s, t, Go(false)), t) && Busy(Step(s, t, Go(false)), t)
  {
    assert ThreadInv(s, t);
    match s.threads[t]
    case PopTest(lf, head) => PopAnswers(s, t, lf, head);
    case PopCas(_, _) => ExchangeDecides(s, t, false);
    case _ =>
  }

  lemma WaitersAreBusy<T>(s: State<T>, t: nat)
    requires WellFormed(s) && t < |s.threads| && Waits(s, t)
    ensures Busy(s, t)
  {
  }

  lemma StepStillWaits<T>(s: State<T>, t: nat)
    requires Inv(s) && t < |s.threads| && Waits(s, t)
    ensures var s' := Step(s, t, Go(false)); Inv(s') && t < |s'.threads| && Waits(s', t)
  {
    StepKeepsInv(s, t, Go(false));
    StillWaits(s, t);
  }

  lemma AloneStep<T>(s: State<T>, t: nat, k: nat)
    requires WellFormed(s) && t < |s.threads|
    ensures var s' := Step(s, t, Go(false));
            WellFormed(s') && t < |s'.threads| && Alone(s, t, k + 1) == Alone(s', t, k)
  {
  }

  lemma OneStepMore<T>(s: State<T>, t: nat, k: nat)
    requires WellFormed(s) && t < |s.threads|
    requires var s' := Step(s, t, Go(false)); WellFormed(s') && t < |s'.threads| && Busy(Alone(s', t, k), t)
    ensures Busy(Alone(s, t, k + 1), t)
  {
    AloneStep(s, t, k);
  }

  lemma {:induction false} NeverEndsAlone<T>(s: State<T>, t: nat, k: nat)
    requires Inv(s) && t < |s.threads| && Waits(s, t)
    ensures Busy(Alone(s, t, k), t)
    decreases k
  {
    if k == 0 {
      WaitersAreBusy(s, t);
    } else {
      StepStillWaits(s, t);
      NeverEndsAlone(Step(s, t, Go(false)), t, k - 1);
      OneStepMore(s, t, k - 1);
    }
  }

  // ------------------------------------------------------------------ who needs help

  /** From every state that a run can reach: a call ends within six steps of its thread alone, or
      it waits for another thread, and then no number of steps of its thread alone ends it. */
  lemma EndsAloneIff<T>(s: State<T>, t: nat)
    requires Inv(s) && t < |s.threads|
    ensures (exists k: nat :: !Busy(Alone(s, t, k), t)) <==> !Waits(s, t)
    ensures !Waits(s, t) ==> exists k: nat :: k <= 6 && !Busy(Alone(s, t, k), t)
  {
    if Waits(s, t) {
      forall k: nat ensures Busy(Alone(s, t, k), t) { NeverEndsAlone(s, t, k); }
    } else {
      EndsAlone(s, t);
    }
  }

  /** `lock_free_pop` and `len` never need another thread. */
  lemma LockFreePopEnds<T>(s: State<T>, t: nat)
    requires Inv(s) && t < |s.threads| && !Pushing(s.threads[t])
    requires Popping(s.threads[t]) ==> s.threads[t].lockFree
    ensures exists k: nat :: k <= 6 && !Busy(Alone(s, t, k), t)
  {
    EndsAloneIff(s, t);
  }

  /** A push needs another thread exactly while the queue is full and its oldest ticket, the one
      at the head, is still being written. */
  lemma PushEndsIff<T>(s: State<T>, t: nat)
    requires Inv(s) && t < |s.threads| && Pushing(s.threads[t])
    ensures (exists k: nat :: !Busy(Alone(s, t, k), t)) <==> !(s.tail == s.head + s.cap && s.head in s.writers)
  {
    EndsAloneIff(s, t);
  }

  // ------------------------------------------------------------------ a push that needs help

  function After<T>(s: State<T>, e: Event<T>): (s': State<T>)
    requires WellFormed(s)
    ensures WellFormed(s')
  {
    if e.thread < |s.threads| then Step(s, e.thread, e.action) else s
  }

  lemma RunStep<T>(s: State<T>, e: Event<T>, events: seq<Event<T>>)
    requires WellFormed(s)
    ensures Run(s, [e] + events) == Run(After(s, e), events)
  {
    assert ([e] + events)[1..] == events;
  }

  lemma {:induction false} RunConcat<T>(s: State<T>, xs: seq<Event<T>>, ys: seq<Event<T>>)
    requires WellFormed(s)
    ensures Run(s, xs + ys) == Run(Run(s, xs), ys)
    decreases |xs|
  {
    if xs == [] {
      assert xs + ys == ys;
    } else {
      RunConcat(After(s, xs[0]), xs[1..], ys);
      RunStep(s, xs[0], xs[1..]);
      RunStep(s, xs[0], xs[1..] + ys);
      assert [xs[0]] + xs[1..] == xs && [xs[0]] + (xs[1..] + ys) == xs + ys;
    }
  }

  lemma RunOn<T>(memory: seq<T>, threads: nat, xs: seq<Event<T>>, ys: seq<Event<T>>)
    requires 2 <= |memory|
    ensures RunFrom(memory, threads, xs + ys) == Run(RunFrom(memory, threads, xs), ys)
  {
    RunConcat(Init(|memory|, threads, memory), xs, ys);
  }

  /** The events of `k` steps of thread `t`. */
  function Steps<T>(t: nat, k: nat): (events: seq<Event<T>>)
    ensures |events| == k
  {
    if k == 0 then [] else [Event(t, Go(false))] + Steps(t, k - 1)
  }

  lemma {:induction false} AloneIsRun<T>(s: State<T>, t: nat, k: nat)
    requires WellFormed(s) && t < |s.threads|
    ensures Run(s, Steps(t, k)) == Alone(s, t, k)
    decreases k
  {
    if k > 0 {
      AloneStep(s, t, k - 1);
      AloneIsRun(Step(s, t, Go(false)), t, k - 1);
      RunStep(s, Event(t, Go(false)), Steps(t, k - 1));
    }
  }

  lemma {:induction false} AloneConcat<T>(s: State<T>, t: nat, j: nat, k: nat)
    requires WellFormed(s) && t < |s.threads|
    ensures Alone(s, t, j + k) == Alone(Alone(s, t, j), t, k)
    decreases j
  {
    if j > 0 {
      AloneStep(s, t, j - 1);
      AloneStep(s, t, j + k - 1);
      AloneConcat(Step(s, t, Go(false)), t, j - 1, k);
    }
  }

  lemma {:induction false} AloneKeepsInv<T>(s: State<T>, t: nat, k: nat)
    requires Inv(s) && t < |s.threads|
    ensures Inv(Alone(s, t, k))
    decreases k
  {
    if k > 0 {
      StepKeepsInv(s, t, Go(false));
      AloneStep(s, t, k - 1);
      AloneKeepsInv(Step(s, t, Go(false)), t, k - 1);
    }
  }

  /** In the first lap every slot that the tail names is free. */
  lemma FirstLapIsFree<T>(s: State<T>)
    requires Inv(s) && s.tail < s.cap
    ensures CellOf(s, s.tail).state == s.tail
  {
    CurrentOrPrevious(s, s.tail);
  }

  /** In the first lap a push that starts at the load of tail and runs alone wins the next ticket. */
  lemma FirstLapPush<T>(s: State<T>, t: nat, v: T)
    requires Inv(s) && t < |s.threads| && s.tail < s.cap && s.threads[t] == PushLoad(v)
    ensures Alone(s, t, 3) == WinTail(s, t, v)
  {
    FirstLapIsFree(s);
    var s1 := Step(s, t, Go(false));
    var s2 := Step(s1, t, Go(false));
    assert s1 == Goto(s, t, PushTest(v, s.tail));
    assert s2 == Goto(s, t, PushCas(v, s.tail));
    assert Step(s2, t, Go(false)) == WinTail(s, t, v);
    assert Alone(s, t, 3) == Alone(s1, t, 2) == Alone(s2, t, 1) == Alone(Step(s2, t, Go(false)), t, 0);
  }

  /** Then it stores its value and ends, and all other threads are where they were. */
  lemma FirstLapEnd<T>(s: State<T>, t: nat, v: T)
    requires Inv(s) && t < |s.threads| && s.tail < s.cap
    ensures var s' := Alone(WinTail(s, t, v), t, 2);
      && s'.cap == s.cap && s'.head == s.head && s'.tail == s.tail + 1
      && s'.threads == s.threads[t := Idle] && s'.writers == s.writers
  {
    var s1 := WinTail(s, t, v);
    var s2 := WriteValue(s1, t, v, s.tail);
    var s3 := MarkAsOccupied(s2, t, s.tail);
    assert Step(s1, t, Go(false)) == s2;
    assert Step(s2, t, Go(false)) == s3;
    assert Alone(s1, t, 2) == Alone(s2, t, 1) == Alone(s3, t, 0) == s3;
    assert s.tail !in s.writers;
    assert s3.writers == s.writers;
  }

  /** A push of the first lap that runs alone from its call to its end. */
  lemma FirstLapCall<T>(s: State<T>, t: nat, v: T)
    requires Inv(s) && t < |s.threads| && s.tail < s.cap && Resting(s.threads[t])
    ensures var s' := Run(s, [Event(t, StartPush(v))] + Steps(t, 5));
      && Inv(s') && s'.cap == s.cap && s'.head == s.head && s'.tail == s.tail + 1
      && s'.threads == s.threads[t := Idle] && s'.writers == s.writers
  {
    var s1 := Goto(s, t, PushLoad(v));
    StepKeepsInv(s, t, StartPush(v));
    RunStep(s, Event(t, StartPush(v)), Steps(t, 5));
    AloneIsRun(s1, t, 5);
    AloneKeepsInv(s1, t, 5);
    AloneConcat(s1, t, 3, 2);
    FirstLapPush(s1, t, v);
    FirstLapEnd(s1, t, v);
  }

  /** Thread 0 has won ticket 0 and stopped; thread 1 rests and has pushed all tickets after it. */
  ghost predicate Stopped<T>(s: State<T>, cap: nat, a: T, tail: nat) {
    && Inv(s) && s.cap == cap && s.head == 0 && s.tail == tail && 0 in s.writers
    && s.threads == [PushWrite(a, 0), Idle]
  }

  /** Thread 0 calls a push of `a` and stops when it has won its ticket. */
  function StopEvents<T>(a: T): seq<Event<T>> {
    [Event(0, StartPush(a))] + Steps(0, 3)
  }

  /** Thread 1 pushes `b` from the call to the end. */
  function PushEvents<T>(b: T): seq<Event<T>> {
    [Event(1, StartPush(b))] + Steps(1, 5)
  }

  /** Thread 0 stops with its ticket and thread 1 pushes until `tail` tickets are won. */
  function FillEvents<T>(a: T, b: T, tail: nat): seq<Event<T>> {
    if tail <= 1 then StopEvents(a) else FillEvents(a, b, tail - 1) + PushEvents(b)
  }

  lemma StopFirst<T>(memory: seq<T>, a: T)
    requires 2 <= |memory|
    ensures Stopped(RunFrom(memory, 2, StopEvents(a)), |memory|, a, 1)
  {
    var s := Init(|memory|, 2, memory);
    var s1 := Goto(s, 0, PushLoad(a));
    InitHasInv(|memory|, 2, memory);
    StepKeepsInv(s, 0, StartPush(a));
    RunStep(s, Event(0, StartPush(a)), Steps(0, 3));
    AloneIsRun(s1, 0, 3);
    AloneKeepsInv(s1, 0, 3);
    FirstLapPush(s1, 0, a);
  }

  lemma StopNext<T>(s: State<T>, cap: nat, a: T, b: T, tail: nat)
    requires Stopped(s, cap, a, tail) && tail < cap
    ensures Stopped(Run(s, PushEvents(b)), cap, a, tail + 1)
  {
    FirstLapCall(s, 1, b);
  }

  lemma StopMore<T>(memory: seq<T>, events: seq<Event<T>>, a: T, b: T, tail: nat)
    requires 2 <= |memory| && tail < |memory| && Stopped(RunFrom(memory, 2, events), |memory|, a, tail)
    ensures Stopped(RunFrom(memory, 2, events + PushEvents(b)), |memory|, a, tail + 1)
  {
    StopNext(RunFrom(memory, 2, events), |memory|, a, b, tail);
    RunOn(memory, 2, events, PushEvents(b));
  }

  lemma {:induction false} ReachesStopped<T>(memory: seq<T>, a: T, b: T, tail: nat)
    requires 2 <= |memory| && 1 <= tail <= |memory|
    ensures Stopped(RunFrom(memory, 2, FillEvents(a, b, tail)), |memory|, a, tail)
    decreases tail
  {
    if tail == 1 {
      StopFirst(memory, a);
    } else {
      ReachesStopped(memory, a, b, tail - 1);
      StopMore(memory, FillEvents(a, b, tail - 1), a, b, tail - 1);
    }
  }

  /** Thread `t` is at the start of a push of `v` that it cannot end alone. */
  ghost predicate NeedsHelp<T>(s: State<T>, t: nat, v: T)
    requires WellFormed(s)
  {
    t < |s.threads| && s.threads[t] == PushLoad(v) && forall k: nat :: Busy(Alone(s, t, k), t)
  }

  lemma LastPushWaits<T>(s: State<T>, a: T, b: T)
    requires Stopped(s, s.cap, a, s.cap)
    ensures NeedsHelp(Run(s, [Event(1, StartPush(b))]), 1, b)
  {
    var s1 := Goto(s, 1, PushLoad(b));
    StepKeepsInv(s, 1, StartPush(b));
    RunStep(s, Event(1, StartPush(b)), []);
    forall k: nat ensures Busy(Alone(s1, 1, k), 1) { NeverEndsAlone(s1, 1, k); }
  }

  /** The push is not lock-free, whatever the capacity: in this run thread 0 stops between winning
      the first ticket and storing its value, thread 1 fills the queue, and then its next push
      never ends alone. */
  lemma SomePushWaits<T>(memory: seq<T>, a: T, b: T)
    requires 2 <= |memory|
    ensures NeedsHelp(RunFrom(memory, 2, FillEvents(a, b, |memory|) + [Event(1, StartPush(b))]), 1, b)
  {
    ReachesStopped(memory, a, b, |memory|);
    LastPushWaits(RunFrom(memory, 2, FillEvents(a, b, |memory|)), a, b);
    RunOn(memory, 2, FillEvents(a, b, |memory|), [Event(1, StartPush(b))]);
  }
}
