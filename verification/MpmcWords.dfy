/**
 The multi-producer multi-consumer bounded queue on machine words (src/mpmc/const_bounded.rs): head,
 tail, slot states and the counters that threads have loaded are words that wrap, and slots are found
 by the remainder of a word.

 As long as no thread falls a whole window behind, every run of this machine is a run of Mpmc, whose
 counters do not wrap.
 */
module MpmcWords {
  import opened Counters
  import opened Ring
  import M = Mpmc

  datatype Cell<T> = Cell(state: nat, value: T)

  /** The places of the threads are those of Mpmc, with words for counters. */
  datatype State<T> = State(cap: nat, modulus: nat, head: nat, tail: nat, cells: seq<Cell<T>>, threads: seq<M.Pc<T>>)

  predicate WellFormed<T>(s: State<T>) {
    2 <= s.cap && |s.cells| == s.cap && 0 < s.modulus
  }

  // ------------------------------------------------------------------ the machine

  function CellOf<T>(s: State<T>, word: nat): Cell<T>
    requires WellFormed(s)
  {
    s.cells[word % s.cap]
  }

  function SetCell<T>(s: State<T>, word: nat, cell: Cell<T>): seq<Cell<T>>
    requires WellFormed(s)
  {
    s.cells[word % s.cap := cell]
  }

  function Goto<T>(s: State<T>, t: nat, pc: M.Pc<T>): State<T>
    requires t < |s.threads|
  {
    s.(threads := s.threads[t := pc])
  }

  function AfterPushTest<T>(s: State<T>, value: T, tail: nat, state: nat): M.Pc<T>
    requires WellFormed(s)
  {
    if tail == state then M.PushCas(value, tail)
    else if tail == WrappingAdd(state, s.cap - 1, s.modulus) then M.PushErr(value)
    else M.PushLoad(value)
  }

  function AfterPopTest<T>(s: State<T>, lockFree: bool, head: nat, state: nat): M.Pc<T>
    requires WellFormed(s)
  {
    if WrappingAdd(head, 1, s.modulus) == state then M.PopCas(lockFree, head)
    else if head == state then M.PopNone
    else M.PopReload(lockFree, head)
  }

  function Next<T>(s: State<T>, pc: M.Pc<T>): M.Pc<T>
    requires WellFormed(s)
  {
    match pc
    case PushLoad(v) => M.PushTest(v, s.tail)
    case PushTest(v, tail) => AfterPushTest(s, v, tail, CellOf(s, tail).state)
    case PushCas(v, _) => M.PushTest(v, s.tail)
    case PopLoad(lf) => M.PopTest(lf, s.head)
    case PopTest(lf, head) => AfterPopTest(s, lf, head, CellOf(s, head).state)
    case PopCas(lf, _) => M.PopTest(lf, s.head)
    case PopReload(lf, head) => if s.head == head && lf then M.PopShouldWait else M.PopTest(lf, s.head)
    case LenLoad => M.LenTail(s.head)
    case LenTail(head) =>
      var len := WrappingSub(s.tail, head, s.modulus);
      if len > s.cap then M.LenLoad else M.LenDone(len)
    case _ => pc
  }

  function Step<T>(s: State<T>, t: nat, a: M.Action<T>): (s': State<T>)
    requires WellFormed(s) && t < |s.threads|
    ensures WellFormed(s')
  {
    match a
    case StartPush(v) => if M.Resting(s.threads[t]) then Goto(s, t, M.PushLoad(v)) else s
    case StartPop(lf) => if M.Resting(s.threads[t]) then Goto(s, t, M.PopLoad(lf)) else s
    case StartLen => if M.Resting(s.threads[t]) then Goto(s, t, M.LenLoad) else s
    case Go(spurious) =>
      match s.threads[t]
      case PushCas(v, tail) =>
        if s.tail == tail && !spurious then
          s.(tail := WrappingAdd(tail, 1, s.modulus), threads := s.threads[t := M.PushWrite(v, tail)])
        else Goto(s, t, Next(s, s.threads[t]))
      case PushWrite(v, tail) =>
        s.(cells := SetCell(s, tail, CellOf(s, tail).(value := v)), threads := s.threads[t := M.PushMark(tail)])
      case PushMark(tail) =>
        s.(cells := SetCell(s, tail, CellOf(s, tail).(state := WrappingAdd(tail, 1, s.modulus))),
           threads := s.threads[t := M.Idle])
      case PopCas(lf, head) =>
        if s.head == head && !spurious then
          s.(head := WrappingAdd(head, 1, s.modulus), threads := s.threads[t := M.PopRead(head)])
        else Goto(s, t, Next(s, s.threads[t]))
      case PopRead(head) => Goto(s, t, M.PopFree(head, CellOf(s, head).value))
      case PopFree(head, _) =>
        s.(cells := SetCell(s, head, CellOf(s, head).(state := WrappingAdd(head, s.cap, s.modulus))),
           threads := s.threads[t := M.Idle])
      case _ => Goto(s, t, Next(s, s.threads[t]))
  }

  function Run<T>(s: State<T>, events: seq<M.Event<T>>): (s': State<T>)
    requires WellFormed(s)
    ensures WellFormed(s')
    decreases |events|
  {
    if events == [] then s
    else
      var e := events[0];
      Run(if e.thread < |s.threads| then Step(s, e.thread, e.action) else s, events[1..])
  }

  // ------------------------------------------------------------------ the words of a state

  function PcWords<T>(pc: M.Pc<T>, modulus: nat): M.Pc<T>
    requires 0 < modulus
  {
    match pc
    case PushTest(v, tail) => M.PushTest(v, tail % modulus)
    case PushCas(v, tail) => M.PushCas(v, tail % modulus)
    case PushWrite(v, tail) => M.PushWrite(v, tail % modulus)
    case PushMark(tail) => M.PushMark(tail % modulus)
    case PopTest(lf, head) => M.PopTest(lf, head % modulus)
    case PopCas(lf, head) => M.PopCas(lf, head % modulus)
    case PopReload(lf, head) => M.PopReload(lf, head % modulus)
    case PopRead(head) => M.PopRead(head % modulus)
    case PopFree(head, v) => M.PopFree(head % modulus, v)
    case LenTail(head) => M.LenTail(head % modulus)
    case _ => pc
  }

  function CellWords<T>(c: M.Cell<T>, modulus: nat): Cell<T>
    requires 0 < modulus
  {
    Cell(c.state % modulus, c.value)
  }

  function Words<T>(s: M.State<T>, modulus: nat): State<T>
    requires 0 < modulus
  {
    State(s.cap, modulus, s.head % modulus, s.tail % modulus,
          seq(|s.cells|, i requires 0 <= i < |s.cells| => CellWords(s.cells[i], modulus)),
          seq(|s.threads|, t requires 0 <= t < |s.threads| => PcWords(s.threads[t], modulus)))
  }

  /** A counter that a thread has loaded is not a whole window behind. */
  predicate Near(counter: nat, tail: nat, cap: nat, modulus: nat) {
    tail + 2 * cap < counter + modulus
  }

  predicate NearPc<T>(s: M.State<T>, pc: M.Pc<T>, modulus: nat) {
    match pc
    case PushTest(_, tail) => Near(tail, s.tail, s.cap, modulus)
    case PushCas(_, tail) => Near(tail, s.tail, s.cap, modulus)
    case PopTest(_, head) => Near(head, s.tail, s.cap, modulus)
    case PopCas(_, head) => Near(head, s.tail, s.cap, modulus)
    case PopReload(_, head) => Near(head, s.tail, s.cap, modulus)
    case LenTail(head) => Near(head, s.tail, s.cap, modulus)
    case _ => true
  }

  /** The capacity divides the word, which leaves a window of its own, and no thread is behind. */
  predicate InWindow<T>(s: M.State<T>, modulus: nat) {
    && 0 < s.cap && 3 * s.cap < modulus && modulus % s.cap == 0
    && (forall t: nat {:trigger s.threads[t]} :: t < |s.threads| ==> NearPc(s, s.threads[t], modulus))
  }

  // ------------------------------------------------------------------ the simulation

  /** The slot of the word is the slot of the counter. */
  lemma SlotOfWord(p: nat, cap: nat, modulus: nat)
    requires 0 < cap && 0 < modulus && modulus % cap == 0
    ensures (p % modulus) % cap == Slot(p, cap)
  {
    IndexAgreesIff(cap, modulus);
    assert IndexAgrees(p, cap, modulus);
    SlotIsRemainder(p, cap);
  }

  lemma CellAgrees<T>(s: M.State<T>, p: nat, modulus: nat)
    requires M.WellFormed(s) && 0 < modulus && modulus % s.cap == 0
    ensures CellOf(Words(s, modulus), p % modulus) == CellWords(M.CellOf(s, p), modulus)
  {
    SlotOfWord(p, s.cap, modulus);
  }

  lemma SetCellAgrees<T>(s: M.State<T>, p: nat, modulus: nat, cell: M.Cell<T>, s': M.State<T>)
    requires M.WellFormed(s) && 0 < modulus && modulus % s.cap == 0 && s'.cells == M.SetCell(s, p, cell)
    ensures Words(s', modulus).cells == SetCell(Words(s, modulus), p % modulus, CellWords(cell, modulus))
  {
    SlotOfWord(p, s.cap, modulus);
  }

  lemma GotoAgrees<T>(s: M.State<T>, t: nat, pc: M.Pc<T>, modulus: nat)
    requires 0 < modulus && t < |s.threads|
    ensures Words(M.Goto(s, t, pc), modulus) == Goto(Words(s, modulus), t, PcWords(pc, modulus))
  {
    assert Words(M.Goto(s, t, pc), modulus).threads == Words(s, modulus).threads[t := PcWords(pc, modulus)];
  }

  lemma PushTestAgrees<T>(s: M.State<T>, v: T, tail: nat, modulus: nat)
    requires M.Inv(s) && InWindow(s, modulus) && tail <= s.tail && Near(tail, s.tail, s.cap, modulus)
    ensures PcWords(M.Next(s, M.PushTest(v, tail)), modulus)
         == Next(Words(s, modulus), PcWords(M.PushTest(v, tail), modulus))
  {
    CellAgrees(s, tail, modulus);
    M.WordTestsAgree(s, Slot(tail, s.cap), tail, modulus);
  }

  lemma PopTestAgrees<T>(s: M.State<T>, lf: bool, head: nat, modulus: nat)
    requires M.Inv(s) && InWindow(s, modulus) && head <= s.head && Near(head, s.tail, s.cap, modulus)
    ensures PcWords(M.Next(s, M.PopTest(lf, head)), modulus)
         == Next(Words(s, modulus), PcWords(M.PopTest(lf, head), modulus))
  {
    CellAgrees(s, head, modulus);
    M.WordTestsAgree(s, Slot(head, s.cap), head, modulus);
  }

  lemma NextAgrees<T>(s: M.State<T>, t: nat, modulus: nat)
    requires M.Inv(s) && InWindow(s, modulus) && t < |s.threads|
    ensures PcWords(M.Next(s, s.threads[t]), modulus) == Next(Words(s, modulus), PcWords(s.threads[t], modulus))
  {
    assert M.ThreadInv(s, t) && NearPc(s, s.threads[t], modulus);
    match s.threads[t]
    case PushTest(v, tail) => PushTestAgrees(s, v, tail, modulus);
    case PopTest(lf, head) => PopTestAgrees(s, lf, head, modulus);
    case PopReload(_, head) => SameWordIff(s.head, head, modulus);
    case LenTail(head) => LengthAgrees(head, s.tail, modulus);
    case _ =>
  }

  lemma NextStepAgrees<T>(s: M.State<T>, t: nat, modulus: nat)
    requires M.Inv(s) && InWindow(s, modulus) && t < |s.threads|
    ensures Words(M.Goto(s, t, M.Next(s, s.threads[t])), modulus)
         == Goto(Words(s, modulus), t, Next(Words(s, modulus), Words(s, modulus).threads[t]))
  {
    NextAgrees(s, t, modulus);
    GotoAgrees(s, t, M.Next(s, s.threads[t]), modulus);
  }

  lemma PushStepAgrees<T>(s: M.State<T>, t: nat, spurious: bool, modulus: nat)
    requires M.Inv(s) && InWindow(s, modulus) && t < |s.threads|
    requires s.threads[t].PushCas? || s.threads[t].PushWrite? || s.threads[t].PushMark?
    ensures Words(M.Step(s, t, M.Go(spurious)), modulus) == Step(Words(s, modulus), t, M.Go(spurious))
  {
    assert M.ThreadInv(s, t) && NearPc(s, s.threads[t], modulus);
    var s', pc := M.Step(s, t, M.Go(spurious)), s.threads[t];
    GotoAgrees(s, t, s'.threads[t], modulus);
    AddAgrees(pc.tail, 1, modulus);
    match pc
    case PushCas(v, tail) =>
      SameWordIff(s.tail, tail, modulus);
      NextStepAgrees(s, t, modulus);
    case PushWrite(v, tail) =>
      CellAgrees(s, tail, modulus);
      SetCellAgrees(s, tail, modulus, M.CellOf(s, tail).(value := v), s');
    case PushMark(tail) =>
      CellAgrees(s, tail, modulus);
      SetCellAgrees(s, tail, modulus, M.CellOf(s, tail).(state := M.OccupiedCode(tail), full := true), s');
  }

  lemma PopCasAgrees<T>(s: M.State<T>, t: nat, spurious: bool, modulus: nat)
    requires M.Inv(s) && InWindow(s, modulus) && t < |s.threads| && s.threads[t].PopCas?
    ensures Words(M.Step(s, t, M.Go(spurious)), modulus) == Step(Words(s, modulus), t, M.Go(spurious))
  {
    assert M.ThreadInv(s, t) && NearPc(s, s.threads[t], modulus);
    GotoAgrees(s, t, M.Step(s, t, M.Go(spurious)).threads[t], modulus);
    AddAgrees(s.threads[t].head, 1, modulus);
    SameWordIff(s.head, s.threads[t].head, modulus);
    NextStepAgrees(s, t, modulus);
  }

  lemma PopFreeAgrees<T>(s: M.State<T>, t: nat, head: nat, v: T, modulus: nat)
    requires M.Inv(s) && InWindow(s, modulus) && t < |s.threads| && s.threads[t] == M.PopFree(head, v)
    ensures Words(M.MarkAsFree(s, t, head, v), modulus) == Step(Words(s, modulus), t, M.Go(false))
  {
    var s' := M.MarkAsFree(s, t, head, v);
    var cell := M.CellOf(s, head).(state := M.FreeCode(head, s.cap), ticket := head + s.cap, full := false);
    GotoAgrees(s, t, M.Idle, modulus);
    CellAgrees(s, head, modulus);
    AddAgrees(head, s.cap, modulus);
    SetCellAgrees(s, head, modulus, cell, s');
  }

  lemma PopStepAgrees<T>(s: M.State<T>, t: nat, spurious: bool, modulus: nat)
    requires M.Inv(s) && InWindow(s, modulus) && t < |s.threads|
    requires s.threads[t].PopCas? || s.threads[t].PopRead? || s.threads[t].PopFree?
    ensures Words(M.Step(s, t, M.Go(spurious)), modulus) == Step(Words(s, modulus), t, M.Go(spurious))
  {
    match s.threads[t]
    case PopCas(_, _) => PopCasAgrees(s, t, spurious, modulus);
    case PopRead(head) =>
      CellAgrees(s, head, modulus);
      GotoAgrees(s, t, M.PopFree(head, M.CellOf(s, head).value), modulus);
    case PopFree(head, v) => PopFreeAgrees(s, t, head, v, modulus);
  }

  /** Every step on words is the step on the counters behind them. */
  lemma StepAgrees<T>(s: M.State<T>, t: nat, a: M.Action<T>, modulus: nat)
    requires M.Inv(s) && InWindow(s, modulus) && t < |s.threads|
    ensures Words(M.Step(s, t, a), modulus) == Step(Words(s, modulus), t, a)
  {
    var pc := s.threads[t];
    if !a.Go? {
      GotoAgrees(s, t, M.Step(s, t, a).threads[t], modulus);
    } else if pc.PushCas? || pc.PushWrite? || pc.PushMark? {
      PushStepAgrees(s, t, a.spurious, modulus);
    } else if pc.PopCas? || pc.PopRead? || pc.PopFree? {
      PopStepAgrees(s, t, a.spurious, modulus);
    } else {
      NextStepAgrees(s, t, modulus);
    }
  }

  /** No thread ever falls a window behind. */
  ghost predicate StaysInWindow<T>(s: M.State<T>, events: seq<M.Event<T>>, modulus: nat)
    requires M.WellFormed(s)
    decreases |events|
  {
    && InWindow(s, modulus)
    && (events == []
        || var e := events[0];
           var s' := if e.thread < |s.threads| then M.Step(s, e.thread, e.action) else s;
           M.WellFormed(s') && StaysInWindow(s', events[1..], modulus))
  }

  lemma {:induction false} RunAgrees<T>(s: M.State<T>, events: seq<M.Event<T>>, modulus: nat)
    requires M.Inv(s) && StaysInWindow(s, events, modulus)
    ensures Words(M.Run(s, events), modulus) == Run(Words(s, modulus), events)
    decreases |events|
  {
    if events != [] {
      var e := events[0];
      if e.thread < |s.threads| {
        M.StepKeepsInv(s, e.thread, e.action);
        StepAgrees(s, e.thread, e.action, modulus);
        RunAgrees(M.Step(s, e.thread, e.action), events[1..], modulus);
      } else {
        RunAgrees(s, events[1..], modulus);
      }
    }
  }

  function Init<T>(memory: seq<T>, threads: nat, modulus: nat): (s: State<T>)
    requires 2 <= |memory| < modulus
    ensures WellFormed(s)
  {
    State(|memory|, modulus, 0, 0, seq(|memory|, i requires 0 <= i < |memory| => Cell(i, memory[i])),
          seq(threads, t => M.Idle))
  }

  /** Refinement: a run of the queue on words is the run of the queue on counters, seen through the
      word size, as long as no thread falls a whole window behind. So all that holds there holds here. */
  lemma Refines<T>(memory: seq<T>, threads: nat, events: seq<M.Event<T>>, modulus: nat)
    requires 2 <= |memory| < modulus
    requires StaysInWindow(M.Init(|memory|, threads, memory), events, modulus)
    ensures Run(Init(memory, threads, modulus), events) == Words(M.RunFrom(memory, threads, events), modulus)
  {
    M.InitHasInv(|memory|, threads, memory);
    RunAgrees(M.Init(|memory|, threads, memory), events, modulus);
    InitAgrees(memory, threads, modulus);
  }

  lemma InitAgrees<T>(memory: seq<T>, threads: nat, modulus: nat)
    requires 2 <= |memory| < modulus
    ensures Words(M.Init(|memory|, threads, memory), modulus) == Init(memory, threads, modulus)
  {
    forall i: nat | i < |memory| ensures i % modulus == i { RemainderUnique(i, 0, i, modulus); }
    RemainderUnique(0, 0, 0, modulus);
    var w := Words(M.Init(|memory|, threads, memory), modulus);
    assert w.cells == Init(memory, threads, modulus).cells;
    assert w.threads == Init(memory, threads, modulus).threads;
  }

  /** A run that is too short to wrap the tail stays in the window, whoever is delayed. */
  lemma {:induction false} ShortRunsStay<T>(s: M.State<T>, events: seq<M.Event<T>>, modulus: nat)
    requires M.WellFormed(s) && 3 * s.cap < modulus && modulus % s.cap == 0
    requires s.tail + |events| + 2 * s.cap < modulus
    ensures StaysInWindow(s, events, modulus)
    decreases |events|
  {
    if events != [] {
      var e := events[0];
      var s' := if e.thread < |s.threads| then M.Step(s, e.thread, e.action) else s;
      ShortRunsStay(s', events[1..], modulus);
    }
  }
}
