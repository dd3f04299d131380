/**
 The multi-producer multi-consumer bounded queue (src/mpmc/const_bounded.rs): every slot has
 an atomic state, producers win tickets of `tail`, consumers win tickets of `head`.

 The machine runs any number of threads; each atomic load, store or compare-and-exchange and
 each move of a value in or out of a slot is one step. Counters do not wrap here; the module
 MpmcWords has the same machine on wrapping words.
 */
module Mpmc {
  import opened Ring
  import Counters

  // ------------------------------------------------------------------ the slot state

  function OccupiedCode(currentTail: nat): nat {
    currentTail + 1
  }

  function FreeCode(currentHead: nat, cap: nat): nat {
    currentHead + cap
  }

  predicate IsSlotFree(currentTail: nat, state: nat) {
    currentTail == state
  }

  predicate IsSlotOccupied(currentHead: nat, state: nat) {
    currentHead + 1 == state
  }

  predicate IsQueueEmpty(currentHead: nat, state: nat) {
    currentHead == state
  }

  predicate IsQueueFull(currentTail: nat, state: nat, cap: nat) {
    currentTail == state + cap - 1
  }

  // ------------------------------------------------------------------ the machine

  /** A slot: its atomic state and its value. `ticket` and `full` only record, for the proof,
      which ticket the state is the code of. */
  datatype Cell<T> = Cell(state: nat, value: T, ticket: nat, full: bool)

  /** Where a thread stands in `maybe_push` or in the body shared by `pop` and `lock_free_pop`. */
  datatype Pc<T> =
    | Idle
    | PushLoad(value: T)
    | PushTest(value: T, tail: nat)
    | PushCas(value: T, tail: nat)
    | PushWrite(value: T, tail: nat)
    | PushMark(tail: nat)
    | PushErr(value: T)
    | PopLoad(lockFree: bool)
    | PopTest(lockFree: bool, head: nat)
    | PopCas(lockFree: bool, head: nat)
    | PopReload(lockFree: bool, head: nat)
    | PopRead(head: nat)
    | PopFree(head: nat, value: T)
    | PopNone
    | PopShouldWait
    | LenLoad
    | LenTail(head: nat)
    | LenDone(len: nat)

  datatype State<T> = State(
    cap: nat, head: nat, tail: nat, cells: seq<Cell<T>>, threads: seq<Pc<T>>,
    pushed: seq<T>,             // the value of each tail ticket won
    returned: map<nat, T>,      // the value returned for each head ticket
    writers: map<nat, nat>,     // ticket -> thread between its tail CAS and its publication
    readers: map<nat, nat>)     // ticket -> thread between its head CAS and its release

  /** `Go(true)` is a step in which a weak compare-and-exchange fails for no reason. */
  datatype Action<T> = StartPush(value: T) | StartPop(lockFree: bool) | StartLen | Go(spurious: bool)
  datatype Event<T> = Event(thread: nat, action: Action<T>)

  predicate Resting<T>(pc: Pc<T>) {
    pc.Idle? || pc.PushErr? || pc.PopNone? || pc.PopShouldWait? || pc.LenDone?
  }

  function Init<T>(cap: nat, threads: nat, memory: seq<T>): State<T>
    requires |memory| == cap
  {
    State(cap, 0, 0, seq(cap, i requires 0 <= i < cap => Cell(i, memory[i], i, false)),
          seq(threads, i => Idle), [], map[], map[], map[])
  }

  predicate WellFormed<T>(s: State<T>) {
    2 <= s.cap && |s.cells| == s.cap
  }

  function CellOf<T>(s: State<T>, ticket: nat): Cell<T>
    requires WellFormed(s)
  {
    s.cells[Slot(ticket, s.cap)]
  }

  function SetCell<T>(s: State<T>, ticket: nat, cell: Cell<T>): seq<Cell<T>>
    requires WellFormed(s)
  {
    s.cells[Slot(ticket, s.cap) := cell]
  }

  function Goto<T>(s: State<T>, t: nat, pc: Pc<T>): State<T>
    requires t < |s.threads|
  {
    s.(threads := s.threads[t := pc])
  }

  /** `maybe_push` decides by the state of the slot that its tail names. */
  function AfterPushTest<T>(value: T, tail: nat, state: nat, cap: nat): Pc<T> {
    if IsSlotFree(tail, state) then PushCas(value, tail)
    else if IsQueueFull(tail, state, cap) then PushErr(value)
    else PushLoad(value)
  }

  /** The pop body decides by the state of the slot that its head names. */
  function AfterPopTest<T>(lockFree: bool, head: nat, state: nat): Pc<T> {
    if IsSlotOccupied(head, state) then PopCas(lockFree, head)
    else if IsQueueEmpty(head, state) then PopNone
    else PopReload(lockFree, head)
  }

  function WinTail<T>(s: State<T>, t: nat, value: T): State<T>
    requires t < |s.threads|
  {
    s.(tail := s.tail + 1, pushed := s.pushed + [value], writers := s.writers[s.tail := t],
       threads := s.threads[t := PushWrite(value, s.tail)])
  }

  function WriteValue<T>(s: State<T>, t: nat, value: T, tail: nat): State<T>
    requires WellFormed(s) && t < |s.threads|
  {
    s.(cells := SetCell(s, tail, CellOf(s, tail).(value := value)), threads := s.threads[t := PushMark(tail)])
  }

  function MarkAsOccupied<T>(s: State<T>, t: nat, tail: nat): State<T>
    requires WellFormed(s) && t < |s.threads|
  {
    s.(cells := SetCell(s, tail, CellOf(s, tail).(state := OccupiedCode(tail), full := true)),
       writers := s.writers - {tail}, threads := s.threads[t := Idle])
  }

  function WinHead<T>(s: State<T>, t: nat): State<T>
    requires t < |s.threads|
  {
    s.(head := s.head + 1, readers := s.readers[s.head := t], threads := s.threads[t := PopRead(s.head)])
  }

  function MarkAsFree<T>(s: State<T>, t: nat, head: nat, value: T): State<T>
    requires WellFormed(s) && t < |s.threads|
  {
    var cell := CellOf(s, head).(state := FreeCode(head, s.cap), ticket := head + s.cap, full := false);
    s.(cells := SetCell(s, head, cell), returned := s.returned[head := value],
       readers := s.readers - {head}, threads := s.threads[t := Idle])
  }

  /** Where a thread goes by a load, or by a compare-and-exchange that it loses. */
  function Next<T>(s: State<T>, pc: Pc<T>): Pc<T>
    requires WellFormed(s)
  {
    match pc
    case PushLoad(v) => PushTest(v, s.tail)
    case PushTest(v, tail) => AfterPushTest(v, tail, CellOf(s, tail).state, s.cap)
    case PushCas(v, _) => PushTest(v, s.tail)
    case PopLoad(lf) => PopTest(lf, s.head)
    case PopTest(lf, head) => AfterPopTest(lf, head, CellOf(s, head).state)
    case PopCas(lf, _) => PopTest(lf, s.head)
    case PopReload(lf, head) =>
      // `pop` backs off and tries again; `lock_free_pop` gives up
      if s.head == head && lf then PopShouldWait else PopTest(lf, s.head)
    case LenLoad => LenTail(s.head)
    case LenTail(head) =>
      // a length over the capacity means that head moved on before tail was loaded
      if head + s.cap < s.tail || s.tail < head then LenLoad else LenDone(s.tail - head)
    case _ => pc
  }

  /** One step of thread `t`. */
  function Step<T>(s: State<T>, t: nat, a: Action<T>): State<T>
    requires WellFormed(s) && t < |s.threads|
  {
    match a
    case StartPush(v) => if Resting(s.threads[t]) then Goto(s, t, PushLoad(v)) else s
    case StartPop(lf) => if Resting(s.threads[t]) then Goto(s, t, PopLoad(lf)) else s
    case StartLen => if Resting(s.threads[t]) then Goto(s, t, LenLoad) else s
    case Go(spurious) =>
      match s.threads[t]
      case PushCas(v, tail) =>
        if s.tail == tail && !spurious then WinTail(s, t, v) else Goto(s, t, Next(s, s.threads[t]))
      case PushWrite(v, tail) => WriteValue(s, t, v, tail)
      case PushMark(tail) => MarkAsOccupied(s, t, tail)
      case PopCas(lf, head) =>
        if s.head == head && !spurious then WinHead(s, t) else Goto(s, t, Next(s, s.threads[t]))
      case PopRead(head) => Goto(s, t, PopFree(head, CellOf(s, head).value))
      case PopFree(head, v) => MarkAsFree(s, t, head, v)
      case _ => Goto(s, t, Next(s, s.threads[t]))
  }

  function Run<T>(s: State<T>, events: seq<Event<T>>): (s': State<T>)
    requires WellFormed(s)
    ensures WellFormed(s')
    decreases |events|
  {
    if events == [] then s
    else
      var e := events[0];
      Run(if e.thread < |s.threads| then Step(s, e.thread, e.action) else s, events[1..])
  }

  // ------------------------------------------------------------------ the invariant

  ghost predicate Counts<T>(s: State<T>) {
    && WellFormed(s)
    && |s.pushed| == s.tail
    && s.head <= s.tail <= s.head + s.cap
  }

  /** The state of slot `i` is the free or the occupied code of a ticket of that slot, the
      newest one claimed or the next one to claim; a slot between codes has an owner. */
  ghost predicate CellInv<T>(s: State<T>, i: nat)
    requires Counts(s) && i < s.cap
  {
    var c := s.cells[i];
    && Slot(c.ticket, s.cap) == i
    && c.state == (if c.full then OccupiedCode(c.ticket) else c.ticket)
    && c.ticket < s.head + s.cap && s.tail <= c.ticket + s.cap
    && (c.full ==> c.ticket < s.tail && c.value == s.pushed[c.ticket]
                   && (c.ticket < s.head ==> c.ticket in s.readers))
    && (!c.full ==> s.head <= c.ticket && (c.ticket < s.tail ==> c.ticket in s.writers))
  }

  ghost predicate Writing<T>(pc: Pc<T>, ticket: nat) {
    (pc.PushWrite? && pc.tail == ticket) || (pc.PushMark? && pc.tail == ticket)
  }

  ghost predicate Reading<T>(pc: Pc<T>, ticket: nat) {
    (pc.PopRead? && pc.head == ticket) || (pc.PopFree? && pc.head == ticket)
  }

  ghost predicate Owners<T>(s: State<T>)
    requires Counts(s)
  {
    && (forall k :: k in s.writers ==> s.head <= k < s.tail && s.writers[k] < |s.threads|
                                       && Writing(s.threads[s.writers[k]], k))
    && (forall k :: k in s.readers ==> k < s.head && s.readers[k] < |s.threads|
                                       && Reading(s.threads[s.readers[k]], k))
    && (forall k: nat :: k < s.head ==> k in s.readers || k in s.returned)
    && (forall k :: k in s.returned ==> k < s.head && k !in s.readers && s.returned[k] == s.pushed[k])
  }

  ghost predicate ThreadInv<T>(s: State<T>, t: nat)
    requires Counts(s) && t < |s.threads|
  {
    match s.threads[t]
    case PushTest(_, tail) => tail <= s.tail
    case PushCas(_, tail) =>
      tail <= s.tail && (s.tail == tail ==> CellOf(s, tail).ticket == tail && !CellOf(s, tail).full)
    case PushWrite(v, tail) =>
      && tail < s.tail && tail in s.writers && s.writers[tail] == t && s.pushed[tail] == v
      && CellOf(s, tail).ticket == tail && !CellOf(s, tail).full
    case PushMark(tail) =>
      && tail < s.tail && tail in s.writers && s.writers[tail] == t
      && CellOf(s, tail).ticket == tail && !CellOf(s, tail).full && CellOf(s, tail).value == s.pushed[tail]
    case PopTest(_, head) => head <= s.head
    case PopReload(_, head) => head <= s.head
    case LenTail(head) => head <= s.head
    case PopCas(_, head) =>
      head <= s.head && (s.head == head ==> CellOf(s, head).ticket == head && CellOf(s, head).full)
    case PopRead(head) =>
      && head < s.head && head in s.readers && s.readers[head] == t
      && CellOf(s, head).ticket == head && CellOf(s, head).full
    case PopFree(head, v) =>
      && head < s.head && head in s.readers && s.readers[head] == t
      && CellOf(s, head).ticket == head && CellOf(s, head).full && v == s.pushed[head]
    case _ => true
  }

  ghost predicate Inv<T>(s: State<T>) {
    && Counts(s)
    && (forall i: nat {:trigger CellInv(s, i)} :: i < s.cap ==> CellInv(s, i))
    && Owners(s)
    && (forall t: nat {:trigger ThreadInv(s, t)} :: t < |s.threads| ==> ThreadInv(s, t))
  }

  /** The only ticket of a slot whose code can be mistaken for that of `k` is `k` itself. */
  lemma CodesDistinct(a: nat, b: nat, cap: nat)
    requires 2 <= cap && Slot(a, cap) == Slot(b, cap)
    ensures a + 1 != b && a + cap != b + 1
  {
    if a + 1 == b { SlotsDiffer(a, b, cap); }
    if a + cap == b + 1 { SlotsDiffer(a, b, cap); }
  }

  /** Ticket `b` would take the value stored for ticket `a` of the same slot for a free slot. */
  predicate LooksFree(a: nat, b: nat, cap: nat)
    requires 0 < cap
  {
    Slot(a, cap) == Slot(b, cap) && IsSlotFree(b, OccupiedCode(a))
  }

  /** Why a queue of one slot is not allowed: the codes keep stored values apart from free slots
      exactly with two slots or more. */
  lemma CodesDistinctIff(cap: nat)
    requires 0 < cap
    ensures (forall a: nat, b: nat :: !LooksFree(a, b, cap)) <==> 2 <= cap
  {
    if 2 <= cap {
      forall a: nat, b: nat ensures !LooksFree(a, b, cap) {
        if Slot(a, cap) == Slot(b, cap) { CodesDistinct(a, b, cap); }
      }
    } else {
      assert LooksFree(0, 1, cap);
    }
  }

  lemma OwnerCells<T>(s: State<T>, k: nat)
    requires Inv(s)
    ensures k in s.readers ==> CellOf(s, k).ticket == k && CellOf(s, k).full
    ensures k in s.writers ==> CellOf(s, k).ticket == k && !CellOf(s, k).full
  {
    if k in s.readers { assert ThreadInv(s, s.readers[k]); }
    if k in s.writers { assert ThreadInv(s, s.writers[k]); }
  }

  lemma OwnersAreBusy<T>(s: State<T>, k: nat)
    requires Inv(s)
    ensures k in s.readers ==> s.readers[k] < |s.threads| && !Resting(s.threads[s.readers[k]])
    ensures k in s.writers ==> s.writers[k] < |s.threads| && !Resting(s.threads[s.writers[k]])
  {
  }

  lemma StepKeepsInv<T>(s: State<T>, t: nat, a: Action<T>)
    requires Inv(s) && t < |s.threads|
    ensures Inv(Step(s, t, a))
  {
    assert ThreadInv(s, t);
    if !a.Go? {
      if Resting(s.threads[t]) { GotoKeepsInv(s, t, Step(s, t, a).threads[t]); }
    } else {
      GoKeepsInv(s, t, a.spurious);
    }
  }

  lemma GoKeepsInv<T>(s: State<T>, t: nat, spurious: bool)
    requires Inv(s) && t < |s.threads|
    ensures Inv(Step(s, t, Go(spurious)))
  {
    var pc := s.threads[t];
    if pc.PushCas? || pc.PushWrite? || pc.PushMark? {
      PushGoKeepsInv(s, t, spurious);
    } else if pc.PopCas? || pc.PopRead? || pc.PopFree? {
      PopGoKeepsInv(s, t, spurious);
    } else {
      NextKeepsInv(s, t);
    }
  }

  lemma PushGoKeepsInv<T>(s: State<T>, t: nat, spurious: bool)
    requires Inv(s) && t < |s.threads|
    requires s.threads[t].PushCas? || s.threads[t].PushWrite? || s.threads[t].PushMark?
    ensures Inv(Step(s, t, Go(spurious)))
  {
    match s.threads[t]
    case PushCas(v, tail) =>
      if s.tail == tail && !spurious { WinTailKeepsInv(s, t, v); } else { NextKeepsInv(s, t); }
    case PushWrite(v, tail) => WriteValueKeepsInv(s, t, v, tail);
    case PushMark(tail) => MarkAsOccupiedKeepsInv(s, t, tail);
  }

  lemma PopGoKeepsInv<T>(s: State<T>, t: nat, spurious: bool)
    requires Inv(s) && t < |s.threads|
    requires s.threads[t].PopCas? || s.threads[t].PopRead? || s.threads[t].PopFree?
    ensures Inv(Step(s, t, Go(spurious)))
  {
    match s.threads[t]
    case PopCas(_, head) =>
      if s.head == head && !spurious { WinHeadKeepsInv(s, t); } else { NextKeepsInv(s, t); }
    case PopRead(head) => PopReadKeepsInv(s, t, head);
    case PopFree(head, v) => MarkAsFreeKeepsInv(s, t, head, v);
  }

  /** A thread that owned no slot moved to a place where it owns none. */
  lemma GotoKeepsInv<T>(s: State<T>, t: nat, pc: Pc<T>)
    requires Inv(s) && t < |s.threads|
    requires !s.threads[t].PushWrite? && !s.threads[t].PushMark? && !s.threads[t].PopRead? && !s.threads[t].PopFree?
    requires ThreadInv(Goto(s, t, pc), t)
    ensures Inv(Goto(s, t, pc))
  {
    var s' := Goto(s, t, pc);
    forall i: nat | i < s'.cap ensures CellInv(s', i) { assert CellInv(s, i); }
    forall u: nat | u < |s'.threads| ensures ThreadInv(s', u) { assert ThreadInv(s, u); }
  }

  lemma NextKeepsInv<T>(s: State<T>, t: nat)
    requires Inv(s) && t < |s.threads|
    requires !s.threads[t].PushWrite? && !s.threads[t].PushMark? && !s.threads[t].PopRead? && !s.threads[t].PopFree?
    ensures Inv(Goto(s, t, Next(s, s.threads[t])))
  {
    assert ThreadInv(s, t);
    if s.threads[t].PushTest? {
      AfterPushTestFits(s, t);
    } else if s.threads[t].PopTest? {
      AfterPopTestFits(s, t);
    }
    GotoKeepsInv(s, t, Next(s, s.threads[t]));
  }

  lemma AfterPushTestFits<T>(s: State<T>, t: nat)
    requires Inv(s) && t < |s.threads| && s.threads[t].PushTest?
    ensures ThreadInv(Goto(s, t, Next(s, s.threads[t])), t)
  {
    var tail := s.threads[t].tail;
    assert ThreadInv(s, t) && CellInv(s, Slot(tail, s.cap));
    CodesDistinct(CellOf(s, tail).ticket, tail, s.cap);
  }

  lemma AfterPopTestFits<T>(s: State<T>, t: nat)
    requires Inv(s) && t < |s.threads| && s.threads[t].PopTest?
    ensures ThreadInv(Goto(s, t, Next(s, s.threads[t])), t)
  {
    var head := s.threads[t].head;
    assert ThreadInv(s, t) && CellInv(s, Slot(head, s.cap));
    CodesDistinct(head, CellOf(s, head).ticket, s.cap);
  }

  lemma WinTailKeepsInv<T>(s: State<T>, t: nat, v: T)
    requires Inv(s) && t < |s.threads| && s.threads[t] == PushCas(v, s.tail)
    ensures Inv(WinTail(s, t, v))
  {
    var s' := WinTail(s, t, v);
    assert ThreadInv(s, t) && CellInv(s, Slot(s.tail, s.cap));
    forall i: nat | i < s'.cap ensures CellInv(s', i) {
      assert CellInv(s, i);
      LapOfTicket(s.cells[i].ticket, s.tail, s.cap);
    }
    forall u: nat | u < |s'.threads| ensures ThreadInv(s', u) { assert ThreadInv(s, u); }
  }

  /** A ticket one whole lap behind `b` is of the same slot. */
  lemma LapOfTicket(a: nat, b: nat, cap: nat)
    requires 0 < cap
    ensures a + cap == b ==> Slot(a, cap) == Slot(b, cap)
  {
  }

  lemma WinHeadKeepsInv<T>(s: State<T>, t: nat)
    requires Inv(s) && t < |s.threads| && s.threads[t].PopCas? && s.threads[t].head == s.head
    ensures Inv(WinHead(s, t))
  {
    var s' := WinHead(s, t);
    assert ThreadInv(s, t) && CellInv(s, Slot(s.head, s.cap));
    OwnerCells(s, s.head);
    forall i: nat | i < s'.cap ensures CellInv(s', i) { WinHeadKeepsCell(s, t, i); }
    forall u: nat | u < |s'.threads| ensures ThreadInv(s', u) { assert ThreadInv(s, u); }
  }

  lemma WinHeadKeepsCell<T>(s: State<T>, t: nat, i: nat)
    requires Inv(s) && t < |s.threads| && s.threads[t].PopCas? && s.threads[t].head == s.head
    requires i < s.cap && s.head < s.tail
    ensures CellInv(WinHead(s, t), i)
  {
    assert ThreadInv(s, t) && CellInv(s, Slot(s.head, s.cap)) && CellInv(s, i);
    OwnerCells(s, s.head);
  }

  lemma WriteValueKeepsInv<T>(s: State<T>, t: nat, v: T, tail: nat)
    requires Inv(s) && t < |s.threads| && s.threads[t] == PushWrite(v, tail)
    ensures Inv(WriteValue(s, t, v, tail))
  {
    var s' := WriteValue(s, t, v, tail);
    assert ThreadInv(s, t);
    forall i: nat | i < s'.cap ensures CellInv(s', i) { assert CellInv(s, i); }
    forall u: nat | u < |s'.threads| ensures ThreadInv(s', u) { assert ThreadInv(s, u); }
  }

  lemma MarkAsOccupiedKeepsInv<T>(s: State<T>, t: nat, tail: nat)
    requires Inv(s) && t < |s.threads| && s.threads[t] == PushMark(tail)
    ensures Inv(MarkAsOccupied(s, t, tail))
  {
    var s' := MarkAsOccupied(s, t, tail);
    assert ThreadInv(s, t);
    forall i: nat | i < s'.cap ensures CellInv(s', i) { assert CellInv(s, i); }
    forall u: nat | u < |s'.threads| ensures ThreadInv(s', u) { assert ThreadInv(s, u); }
  }

  lemma PopReadKeepsInv<T>(s: State<T>, t: nat, head: nat)
    requires Inv(s) && t < |s.threads| && s.threads[t] == PopRead(head)
    ensures Inv(Goto(s, t, PopFree(head, CellOf(s, head).value)))
  {
    var s' := Goto(s, t, PopFree(head, CellOf(s, head).value));
    assert ThreadInv(s, t) && CellInv(s, Slot(head, s.cap));
    forall i: nat | i < s'.cap ensures CellInv(s', i) { assert CellInv(s, i); }
    forall u: nat | u < |s'.threads| ensures ThreadInv(s', u) { assert ThreadInv(s, u); }
  }

  lemma MarkAsFreeKeepsInv<T>(s: State<T>, t: nat, head: nat, v: T)
    requires Inv(s) && t < |s.threads| && s.threads[t] == PopFree(head, v)
    ensures Inv(MarkAsFree(s, t, head, v))
  {
    var s' := MarkAsFree(s, t, head, v);
    assert ThreadInv(s, t);
    forall i: nat | i < s'.cap ensures CellInv(s', i) { assert CellInv(s, i); }
    forall u: nat | u < |s'.threads| ensures ThreadInv(s', u) { assert ThreadInv(s, u); }
  }

  lemma InitHasInv<T>(cap: nat, threads: nat, memory: seq<T>)
    requires 2 <= cap == |memory|
    ensures Inv(Init(cap, threads, memory))
  {
  }

  /** The invariant holds in every run of any number of threads. */
  lemma {:induction false} RunKeepsInv<T>(s: State<T>, events: seq<Event<T>>)
    requires Inv(s)
    ensures Inv(Run(s, events))
    decreases |events|
  {
    if events != [] {
      var e := events[0];
      if e.thread < |s.threads| {
        StepKeepsInv(s, e.thread, e.action);
        RunKeepsInv(Step(s, e.thread, e.action), events[1..]);
      } else {
        RunKeepsInv(s, events[1..]);
      }
    }
  }

  // ------------------------------------------------------------------ what every run guarantees

  function RunFrom<T>(memory: seq<T>, threads: nat, events: seq<Event<T>>): (s: State<T>)
    requires 2 <= |memory|
    ensures WellFormed(s)
  {
    Run(Init(|memory|, threads, memory), events)
  }

  lemma ReachedHasInv<T>(memory: seq<T>, threads: nat, events: seq<Event<T>>)
    requires 2 <= |memory|
    ensures Inv(RunFrom(memory, threads, events))
  {
    InitHasInv(|memory|, threads, memory);
    RunKeepsInv(Init(|memory|, threads, memory), events);
  }

  /** An unread ticket is the one its slot is about. */
  lemma CellOfUnread<T>(s: State<T>, k: nat)
    requires Inv(s) && s.head <= k < s.tail
    ensures CellOf(s, k).ticket == k && CellInv(s, Slot(k, s.cap))
  {
    assert CellInv(s, Slot(k, s.cap));
    SameSlotNearby(CellOf(s, k).ticket, k, s.cap);
  }

  lemma SameSlotNearby(a: nat, b: nat, cap: nat)
    requires 0 < cap && Slot(a, cap) == Slot(b, cap) && a < b + cap && b < a + cap
    ensures a == b
  {
    if a < b { SlotsDiffer(a, b, cap); }
    if b < a { SlotsDiffer(b, a, cap); }
  }

  /** A ticketed first-in first-out queue, in every run: the pop that won head ticket `k` returns
      the value of the push that won tail ticket `k`; every ticket below head was returned or is
      being returned by exactly one thread; every ticket from head to tail is stored in its slot,
      published, or still being written. No initial memory content is ever returned. */
  lemma TicketedFifo<T>(memory: seq<T>, threads: nat, events: seq<Event<T>>)
    requires 2 <= |memory|
    ensures var s := RunFrom(memory, threads, events);
      && s.head <= s.tail == |s.pushed| && s.tail <= s.head + s.cap
      && (forall k :: k in s.returned ==> k < s.head && s.returned[k] == s.pushed[k])
      && (forall k: nat :: k < s.head ==> (k in s.returned <==> k !in s.readers))
      && (forall k: nat :: s.head <= k < s.tail ==>
            k in s.writers || (CellOf(s, k).state == OccupiedCode(k) && CellOf(s, k).value == s.pushed[k]))
  {
    ReachedHasInv(memory, threads, events);
    var s := RunFrom(memory, threads, events);
    forall k: nat | s.head <= k < s.tail
      ensures k in s.writers || (CellOf(s, k).state == OccupiedCode(k) && CellOf(s, k).value == s.pushed[k])
    {
      CellOfUnread(s, k);
    }
  }

  /** With no call in progress, every ticket below head was returned and every ticket from head
      to tail is published: nothing is lost and nothing is left half done. */
  lemma QuiescentFifo<T>(memory: seq<T>, threads: nat, events: seq<Event<T>>)
    requires 2 <= |memory|
    requires var s := RunFrom(memory, threads, events);
             forall t: nat :: t < |s.threads| ==> Resting(s.threads[t])
    ensures var s := RunFrom(memory, threads, events);
      && s.head <= s.tail == |s.pushed|
      && (forall k: nat :: k < s.head ==> k in s.returned && s.returned[k] == s.pushed[k])
      && (forall k: nat :: s.head <= k < s.tail ==>
            CellOf(s, k).state == OccupiedCode(k) && CellOf(s, k).value == s.pushed[k])
  {
    TicketedFifo(memory, threads, events);
    ReachedHasInv(memory, threads, events);
    var s := RunFrom(memory, threads, events);
    forall k: nat ensures k !in s.readers && k !in s.writers { OwnersAreBusy(s, k); }
  }

  /** A ticket is returned at most once: the release of ticket `head` finds it not yet returned,
      and no later step takes a returned ticket back. */
  lemma ReturnedOnce<T>(memory: seq<T>, threads: nat, events: seq<Event<T>>, t: nat, a: Action<T>)
    requires 2 <= |memory| && t < |RunFrom(memory, threads, events).threads|
    ensures var s := RunFrom(memory, threads, events);
            var s' := Step(s, t, a);
            && (s.threads[t].PopFree? ==> s.threads[t].head !in s.returned)
            && (s'.returned == s.returned
                || (s.threads[t].PopFree? && s.threads[t].head < |s.pushed|
                    && s'.returned == s.returned[s.threads[t].head := s.pushed[s.threads[t].head]]))
  {
    ReachedHasInv(memory, threads, events);
    assert ThreadInv(RunFrom(memory, threads, events), t);
  }

  ghost predicate Owns<T>(pc: Pc<T>, ticket: nat) {
    Writing(pc, ticket) || Reading(pc, ticket)
  }

  lemma OwnedCell<T>(s: State<T>, t: nat, k: nat)
    requires Inv(s) && t < |s.threads| && Owns(s.threads[t], k)
    ensures CellOf(s, k).ticket == k
    ensures if CellOf(s, k).full then k in s.readers && s.readers[k] == t
            else k in s.writers && s.writers[k] == t
  {
    assert ThreadInv(s, t);
  }

  /** No two threads are ever between winning a ticket and storing the state of the same slot,
      so no write of a value overlaps a read or a write. */
  lemma SlotExclusive<T>(memory: seq<T>, threads: nat, events: seq<Event<T>>, t: nat, k: nat, u: nat, l: nat)
    requires 2 <= |memory|
    requires var s := RunFrom(memory, threads, events);
             t < |s.threads| && u < |s.threads| && Owns(s.threads[t], k) && Owns(s.threads[u], l)
    requires Slot(k, |memory|) == Slot(l, |memory|)
    ensures t == u && k == l
  {
    ReachedHasInv(memory, threads, events);
    RunKeepsCapacity(Init(|memory|, threads, memory), events);
    OwnedCell(RunFrom(memory, threads, events), t, k);
    OwnedCell(RunFrom(memory, threads, events), u, l);
  }

  lemma StepKeepsCapacity<T>(s: State<T>, t: nat, a: Action<T>)
    requires WellFormed(s) && t < |s.threads|
    ensures Step(s, t, a).cap == s.cap && s.head <= Step(s, t, a).head
  {
  }

  lemma {:induction false} RunKeepsCapacity<T>(s: State<T>, events: seq<Event<T>>)
    requires WellFormed(s)
    ensures Run(s, events).cap == s.cap && s.head <= Run(s, events).head
    decreases |events|
  {
    if events != [] {
      var e := events[0];
      if e.thread < |s.threads| { StepKeepsCapacity(s, e.thread, e.action); }
      RunKeepsCapacity(if e.thread < |s.threads| then Step(s, e.thread, e.action) else s, events[1..]);
    }
  }

  /** Every slot state is the free or the occupied code of a ticket of that slot. */
  lemma StateIsACode<T>(memory: seq<T>, threads: nat, events: seq<Event<T>>, i: nat)
    requires 2 <= |memory| && i < RunFrom(memory, threads, events).cap
    ensures var s := RunFrom(memory, threads, events);
            var c := s.cells[i];
            Slot(c.ticket, s.cap) == i && (c.state == c.ticket || c.state == OccupiedCode(c.ticket))
  {
    ReachedHasInv(memory, threads, events);
    assert CellInv(RunFrom(memory, threads, events), i);
  }

  // ------------------------------------------------------------------ what a failure means

  /** The ticket one lap before `k` still occupies the slot: unread, or being read. */
  ghost predicate PreviousLapHolds<T>(s: State<T>, k: nat) {
    k >= s.cap && k - s.cap !in s.writers && (s.head <= k - s.cap || k - s.cap in s.readers)
  }

  /** For a current ticket, the slot is about this ticket or about the one a lap before. */
  lemma CurrentOrPrevious<T>(s: State<T>, k: nat)
    requires Inv(s) && s.head <= k <= s.tail && s.tail <= k + s.cap
    ensures CellInv(s, Slot(k, s.cap))
    ensures CellOf(s, k).ticket == k || CellOf(s, k).ticket + s.cap == k
  {
    assert CellInv(s, Slot(k, s.cap));
    var a := CellOf(s, k).ticket;
    if a != k {
      if k < a + s.cap {
        SameSlotNearby(a, k, s.cap);
      } else {
        LapOfTicket(a, a + s.cap, s.cap);
        SameSlotNearby(a + s.cap, k, s.cap);
      }
    }
  }

  lemma PreviousLapCell<T>(s: State<T>, k: nat)
    requires Inv(s)
    ensures k >= s.cap && k - s.cap in s.readers ==> CellOf(s, k).ticket == k - s.cap && CellOf(s, k).full
    ensures k >= s.cap && k - s.cap in s.writers ==> CellOf(s, k).ticket == k - s.cap && !CellOf(s, k).full
  {
    if k >= s.cap {
      OwnerCells(s, k - s.cap);
      LapOfTicket(k - s.cap, k, s.cap);
    }
  }

  /** `Err` from push: decided exactly when, as the state is loaded, the loaded tail is current
      and the value one lap before is unread (the queue is full) or being read. */
  lemma PushErrMeans<T>(s: State<T>, t: nat, v: T, tail: nat)
    requires Inv(s) && t < |s.threads| && s.threads[t] == PushTest(v, tail)
    ensures Step(s, t, Go(false)).threads[t].PushErr? <==> tail == s.tail && PreviousLapHolds(s, tail)
  {
    assert ThreadInv(s, t) && CellInv(s, Slot(tail, s.cap));
    var a := CellOf(s, tail).ticket;
    CodesDistinct(a, tail, s.cap);
    CodesDistinct(tail, a, s.cap);
    if tail == s.tail {
      CurrentOrPrevious(s, tail);
      PreviousLapCell(s, tail);
    }
  }

  /** The three answers of the pop body for a current head, decided by the state load. `None`
      says that ticket `head` is not published: never claimed, or still being written.
      The third branch, which `lock_free_pop` reports as `ShouldWait`, needs an empty queue whose
      previous reader of this slot has not finished. */
  lemma PopAnswers<T>(s: State<T>, t: nat, lf: bool, head: nat)
    requires Inv(s) && t < |s.threads| && s.threads[t] == PopTest(lf, head)
    ensures var pc := Step(s, t, Go(false)).threads[t];
      && (head < s.head ==> !pc.PopNone?)
      && (head == s.head ==>
            && (pc.PopCas? <==> head < s.tail && head !in s.writers)
            && (pc.PopReload? <==> s.tail == head && PreviousLapHolds(s, head))
            && (pc.PopNone? <==> head in s.writers || (s.tail == head && !PreviousLapHolds(s, head))))
  {
    assert ThreadInv(s, t) && CellInv(s, Slot(head, s.cap));
    var a := CellOf(s, head).ticket;
    CodesDistinct(head, a, s.cap);
    CodesDistinct(a, head, s.cap);
    if head == s.head {
      OwnerCells(s, head);
      CurrentOrPrevious(s, head);
      PreviousLapCell(s, head);
    }
  }

  /** `ShouldWait` from `lock_free_pop`: at its last state load head and tail were equal to the
      loaded head, and a reader of the ticket one lap before was still in flight. */
  lemma ShouldWaitMeans<T>(s: State<T>, t: nat, head: nat, between: seq<Event<T>>)
    requires Inv(s) && t < |s.threads| && s.threads[t] == PopTest(true, head)
    requires Step(s, t, Go(false)).threads[t].PopReload?
    requires var late := Run(Step(s, t, Go(false)), between);
             && t < |late.threads| && late.threads[t] == PopReload(true, head)
             && Step(late, t, Go(false)).threads[t].PopShouldWait?
    ensures s.head == s.tail == head && head >= s.cap && head - s.cap in s.readers
  {
    assert ThreadInv(s, t);
    RunKeepsCapacity(Step(s, t, Go(false)), between);
    PopAnswers(s, t, true, head);
  }

  /** `len` answers with a bound on the length at the load of tail and never more than the
      capacity, and it starts over exactly when a whole capacity of tickets lies behind tail. */
  lemma LenMeans<T>(s: State<T>, t: nat, head: nat)
    requires Inv(s) && t < |s.threads| && s.threads[t] == LenTail(head)
    ensures var pc := Step(s, t, Go(false)).threads[t];
      && (pc.LenDone? ==> s.tail - s.head <= pc.len <= s.cap)
      && (pc.LenLoad? ==> head < s.head)
      && (head == s.head ==> pc == LenDone(s.tail - s.head))
  {
    assert ThreadInv(s, t);
  }

  // ------------------------------------------------------------------ how a call goes on and ends

  /** A state load of push answers for a current tail by what holds the slot: it is free when the
      ticket one lap before was returned, `Err` when that ticket holds it, and a new try while
      that ticket is still being written. A tail that is behind is never answered with `Err`. */
  lemma PushAnswers<T>(s: State<T>, t: nat, v: T, tail: nat)
    requires Inv(s) && t < |s.threads| && s.threads[t] == PushTest(v, tail)
    ensures var pc := Step(s, t, Go(false)).threads[t];
      && (tail < s.tail ==> pc == PushLoad(v) || pc == PushCas(v, tail))
      && (tail == s.tail ==>
            && (pc == PushCas(v, tail) <==> tail < s.cap || tail - s.cap in s.returned)
            && (pc == PushErr(v) <==> PreviousLapHolds(s, tail))
            && (pc == PushLoad(v) <==> tail >= s.cap && tail - s.cap in s.writers))
  {
    assert ThreadInv(s, t) && CellInv(s, Slot(tail, s.cap));
    PushErrMeans(s, t, v, tail);
    if tail == s.tail {
      CurrentOrPrevious(s, tail);
      PreviousLapCell(s, tail);
      if tail >= s.cap { LapOfTicket(tail - s.cap, tail, s.cap); }
    }
  }

  /** A weak exchange wins the ticket of an unmoved counter unless it fails for no reason. When it
      loses, nothing changes but that the call goes on with the counter as it is now, and the
      counter has grown unless the failure was for no reason. */
  lemma ExchangeDecides<T>(s: State<T>, t: nat, spurious: bool)
    requires Inv(s) && t < |s.threads|
    ensures var (pc, s') := (s.threads[t], Step(s, t, Go(spurious)));
      && (pc.PushCas? && pc.tail == s.tail && !spurious ==>
            && s'.tail == s.tail + 1 && s'.pushed == s.pushed + [pc.value]
            && s'.threads[t] == PushWrite(pc.value, s.tail) && s.tail in s'.writers && s'.writers[s.tail] == t)
      && (pc.PushCas? && (pc.tail != s.tail || spurious) ==>
            s' == Goto(s, t, PushTest(pc.value, s.tail)) && (spurious || pc.tail < s.tail))
      && (pc.PopCas? && pc.head == s.head && !spurious ==>
            && s.head < s.tail && s.head !in s.writers && s'.head == s.head + 1
            && s'.threads[t] == PopRead(s.head) && s.head in s'.readers && s'.readers[s.head] == t)
      && (pc.PopCas? && (pc.head != s.head || spurious) ==>
            s' == Goto(s, t, PopTest(pc.lockFree, s.head)) && (spurious || pc.head < s.head))
  {
    assert ThreadInv(s, t);
    if s.threads[t].PopCas? && s.threads[t].head == s.head {
      OwnerCells(s, s.head);
      assert CellInv(s, Slot(s.head, s.cap));
    }
  }

  /** A push that has not won its ticket. */
  predicate Pushing<T>(pc: Pc<T>) {
    pc.PushLoad? || pc.PushTest? || pc.PushCas?
  }

  /** A pop that has not won its ticket. */
  predicate Popping<T>(pc: Pc<T>) {
    pc.PopLoad? || pc.PopTest? || pc.PopCas? || pc.PopReload?
  }

  /** A push that has not won its ticket keeps its value: it goes on with it, wins the next tail
      ticket for it or hands it back. One that has won its ticket stores the value and ends. */
  ghost predicate PushGoesOn<T>(s: State<T>, pc: Pc<T>, s': State<T>, pc': Pc<T>) {
    if Pushing(pc) then
      || (s'.pushed == s.pushed && Pushing(pc') && pc'.value == pc.value)
      || (s'.pushed == s.pushed && pc' == PushErr(pc.value))
      || (s'.pushed == s.pushed + [pc.value] && pc' == PushWrite(pc.value, s.tail))
    else
      && s'.pushed == s.pushed
      && (pc.PushWrite? ==> pc' == PushMark(pc.tail))
      && (pc.PushMark? ==> pc' == Idle)
  }

  /** A pop stays what it is, `pop` or `lock_free_pop`, until it has won a ticket or ends. */
  ghost predicate PopGoesOn<T>(pc: Pc<T>, pc': Pc<T>) {
    if Popping(pc) then
      || (Popping(pc') && pc'.lockFree == pc.lockFree)
      || pc'.PopRead? || pc'.PopNone? || (pc'.PopShouldWait? && pc.lockFree)
    else
      && (pc.PopRead? ==> pc'.PopFree? && pc'.head == pc.head)
      && (pc.PopFree? ==> pc' == Idle)
  }

  /** No call is forgotten or turned into another one: a step goes on with the call that its
      thread makes, and leaves the calls of all other threads where they are. */
  lemma CallsGoOn<T>(s: State<T>, t: nat, a: Action<T>, u: nat)
    requires WellFormed(s) && t < |s.threads| && u < |s.threads|
    ensures var s' := Step(s, t, a);
      && |s'.threads| == |s.threads|
      && (u != t ==> s'.threads[u] == s.threads[u])
      && (!a.Go? && !Resting(s.threads[t]) ==> s' == s)
      && (a.Go? ==> PushGoesOn(s, s.threads[t], s', s'.threads[t]) && PopGoesOn(s.threads[t], s'.threads[t]))
  {
    if a.Go? {
      PushesGoOn(s, t, a.spurious);
      PopsGoOn(s, t, a.spurious);
    }
  }

  lemma PushesGoOn<T>(s: State<T>, t: nat, spurious: bool)
    requires WellFormed(s) && t < |s.threads|
    ensures var s' := Step(s, t, Go(spurious)); PushGoesOn(s, s.threads[t], s', s'.threads[t])
  {
  }

  lemma PopsGoOn<T>(s: State<T>, t: nat, spurious: bool)
    requires WellFormed(s) && t < |s.threads|
    ensures PopGoesOn(s.threads[t], Step(s, t, Go(spurious)).threads[t])
  {
  }

  /** An answer, or waiting for a reader. */
  predicate Answering<T>(pc: Pc<T>) {
    pc.PushErr? || pc.PopNone? || pc.PopShouldWait? || pc.PopReload? || pc.LenDone?
  }

  /** From where a thread goes to each of the answers, and to waiting for a reader. */
  predicate AnswerFits<T(==)>(pc: Pc<T>, pc': Pc<T>, head: nat) {
    match pc'
    case PushErr(v) => pc.PushTest? && pc.value == v
    case PopNone => pc.PopTest?
    case PopReload(lf, loaded) => pc == PopTest(lf, loaded)
    case PopShouldWait => pc == PopReload(true, head)
    case LenDone(_) => pc.LenTail?
    case _ => true
  }

  lemma NextAnswers<T>(s: State<T>, pc: Pc<T>)
    requires WellFormed(s)
    ensures Next(s, pc) == pc || AnswerFits(pc, Next(s, pc), s.head)
  {
  }

  lemma GoAnswers<T>(s: State<T>, t: nat, spurious: bool)
    requires WellFormed(s) && t < |s.threads|
    ensures var pc' := Step(s, t, Go(spurious)).threads[t]; Answering(pc') ==> pc' == Next(s, s.threads[t])
  {
    match s.threads[t]
    case PushWrite(_, tail) => assert Step(s, t, Go(spurious)).threads[t] == PushMark(tail);
    case PushMark(_) => assert Step(s, t, Go(spurious)).threads[t] == Idle;
    case PopRead(_) => assert Step(s, t, Go(spurious)).threads[t].PopFree?;
    case PopFree(_, _) => assert Step(s, t, Go(spurious)).threads[t] == Idle;
    case _ =>
  }

  lemma OthersStay<T>(s: State<T>, t: nat, a: Action<T>, u: nat)
    requires WellFormed(s) && t < |s.threads| && u < |s.threads| && u != t
    ensures |Step(s, t, a).threads| == |s.threads| && Step(s, t, a).threads[u] == s.threads[u]
  {
  }

  /** Only a step of the thread itself leads it to an answer, and only by a load of its call. */
  lemma AnswersOnlyFrom<T>(s: State<T>, u: nat, a: Action<T>, t: nat)
    requires WellFormed(s) && u < |s.threads| && t < |s.threads|
    requires var pc' := Step(s, u, a).threads[t]; pc' != s.threads[t] && Answering(pc')
    ensures u == t && a.Go? && Step(s, u, a).threads[t] == Next(s, s.threads[t])
    ensures AnswerFits(s.threads[t], Step(s, u, a).threads[t], s.head)
  {
    if u != t {
      OthersStay(s, u, a, t);
    } else if a.Go? {
      GoAnswers(s, t, a.spurious);
      NextAnswers(s, s.threads[t]);
    }
  }

  /** A thread comes to the answer `None` only by the state load of its own pop, with the loaded
      head current and its ticket not published. */
  lemma NoneMeans<T>(s: State<T>, u: nat, a: Action<T>, t: nat)
    requires Inv(s) && u < |s.threads| && t < |s.threads|
    requires !s.threads[t].PopNone? && Step(s, u, a).threads[t].PopNone?
    ensures u == t && s.threads[t].PopTest? && s.threads[t].head == s.head
    ensures s.head in s.writers || (s.tail == s.head && !PreviousLapHolds(s, s.head))
  {
    AnswersOnlyFrom(s, u, a, t);
    assert ThreadInv(s, t);
    PopAnswers(s, t, s.threads[t].lockFree, s.threads[t].head);
  }

  /** A thread comes to the answer `Err` only by the state load of its own push, with the loaded
      tail current and the slot held by the previous lap, and the value is the one pushed. */
  lemma ErrMeans<T>(s: State<T>, u: nat, a: Action<T>, t: nat)
    requires Inv(s) && u < |s.threads| && t < |s.threads|
    requires !s.threads[t].PushErr? && Step(s, u, a).threads[t].PushErr?
    ensures u == t && s.threads[t] == PushTest(Step(s, u, a).threads[t].value, s.tail)
    ensures PreviousLapHolds(s, s.tail)
  {
    AnswersOnlyFrom(s, u, a, t);
    PushErrMeans(s, t, s.threads[t].value, s.threads[t].tail);
  }

  /** A thread comes to an answer of `len` only by its own load of tail, within the bounds there:
      no less than the length, no more than the capacity, and exact for an unmoved head. */
  lemma LenAnswerMeans<T>(s: State<T>, u: nat, a: Action<T>, t: nat)
    requires Inv(s) && u < |s.threads| && t < |s.threads|
    requires !s.threads[t].LenDone? && Step(s, u, a).threads[t].LenDone?
    ensures u == t && s.threads[t].LenTail?
    ensures s.tail - s.head <= Step(s, u, a).threads[t].len <= s.cap
    ensures s.threads[t].head == s.head ==> Step(s, u, a).threads[t].len == s.tail - s.head
  {
    AnswersOnlyFrom(s, u, a, t);
    LenMeans(s, t, s.threads[t].head);
  }

  /** Event `n` is a state load in which thread `t`, a `lock_free_pop`, finds the queue empty and
      the reader of the ticket one lap before its loaded head still at work. */
  ghost predicate FindsReader<T>(s0: State<T>, events: seq<Event<T>>, n: nat, t: nat, head: nat)
    requires WellFormed(s0)
  {
    && n < |events| && events[n].thread == t
    && var s := Run(s0, events[..n]);
    && t < |s.threads| && s.threads[t] == PopTest(true, head)
    && s.head == s.tail == head && head >= s.cap && head - s.cap in s.readers
  }

  /** A thread comes to wait for a reader only by a state load of its own pop; when head has not
      moved since it was loaded, the queue is empty and the reader of the previous lap at work. */
  lemma ReloadMeans<T>(s: State<T>, u: nat, a: Action<T>, t: nat, lf: bool, head: nat)
    requires Inv(s) && u < |s.threads| && t < |s.threads|
    requires s.threads[t] != PopReload(lf, head) && Step(s, u, a).threads[t] == PopReload(lf, head)
    ensures u == t && s.threads[t] == PopTest(lf, head) && head <= s.head
    ensures s.head == head ==> s.tail == head && head >= s.cap && head - s.cap in s.readers
  {
    AnswersOnlyFrom(s, u, a, t);
    assert ThreadInv(s, t);
    PopAnswers(s, t, lf, head);
  }

  lemma FoundLater<T>(s: State<T>, events: seq<Event<T>>, n: nat, t: nat, head: nat)
    requires WellFormed(s) && events != []
    requires var e := events[0];
             FindsReader(if e.thread < |s.threads| then Step(s, e.thread, e.action) else s, events[1..], n, t, head)
    ensures FindsReader(s, events, n + 1, t, head)
  {
    assert events[..n + 1][1..] == events[1..][..n];
  }

  /** A thread that waits for a reader with head where it was found that reader at work. */
  lemma {:induction false} WaitersFoundReader<T>(s: State<T>, events: seq<Event<T>>, t: nat, head: nat)
    requires Inv(s) && t < |s.threads| && s.threads[t] != PopReload(true, head)
    requires var late := Run(s, events);
             t < |late.threads| && late.threads[t] == PopReload(true, head) && late.head == head
    ensures exists n: nat :: FindsReader(s, events, n, t, head)
    decreases |events|
  {
    if events != [] {
      var e := events[0];
      var s1 := if e.thread < |s.threads| then Step(s, e.thread, e.action) else s;
      StepIsWaiting(s, e, t, head);
      if s1.threads[t] == PopReload(true, head) {
        RunKeepsCapacity(s1, events[1..]);
        assert FindsReader(s, events, 0, t, head);
      } else {
        WaitersFoundReader(s1, events[1..], t, head);
        var n: nat :| FindsReader(s1, events[1..], n, t, head);
        FoundLater(s, events, n, t, head);
      }
    }
  }

  lemma StepIsWaiting<T>(s: State<T>, e: Event<T>, t: nat, head: nat)
    requires Inv(s) && t < |s.threads| && s.threads[t] != PopReload(true, head)
    ensures var s1 := if e.thread < |s.threads| then Step(s, e.thread, e.action) else s;
      && Inv(s1) && |s1.threads| == |s.threads| && s.head <= s1.head
      && (s1.threads[t] == PopReload(true, head) ==>
            && e.thread == t && s.threads[t] == PopTest(true, head) && head <= s.head
            && (s.head == head ==> s.tail == head && head >= s.cap && head - s.cap in s.readers))
  {
    if e.thread < |s.threads| {
      var s1 := Step(s, e.thread, e.action);
      StepKeepsInv(s, e.thread, e.action);
      StepKeepsCapacity(s, e.thread, e.action);
      CallsGoOn(s, e.thread, e.action, t);
      if s1.threads[t] == PopReload(true, head) { ReloadMeans(s, e.thread, e.action, t, true, head); }
    }
  }

  /** Whenever a thread of any run comes to the answer `ShouldWait`, its call is a `lock_free_pop`
      and a state load of the thread in this run found the queue empty with head as it is now and the reader
      of the ticket one lap before still at work. */
  lemma ShouldWaitFoundReader<T>(s0: State<T>, events: seq<Event<T>>, u: nat, a: Action<T>, t: nat)
    requires Inv(s0) && (forall i: nat :: i < |s0.threads| ==> Resting(s0.threads[i]))
    requires var s := Run(s0, events);
             && u < |s.threads| && t < |s.threads|
             && !s.threads[t].PopShouldWait? && Step(s, u, a).threads[t].PopShouldWait?
    ensures var s := Run(s0, events);
      && u == t && s.threads[t] == PopReload(true, s.head)
      && exists n: nat :: FindsReader(s0, events, n, t, s.head)
  {
    var s := Run(s0, events);
    RunKeepsThreads(s0, events);
    AnswersOnlyFrom(s, u, a, t);
    WaitersFoundReader(s0, events, t, s.head);
  }

  lemma {:induction false} RunKeepsThreads<T>(s: State<T>, events: seq<Event<T>>)
    requires WellFormed(s)
    ensures |Run(s, events).threads| == |s.threads|
    decreases |events|
  {
    if events != [] {
      var e := events[0];
      if e.thread < |s.threads| { CallsGoOn(s, e.thread, e.action, e.thread); }
      RunKeepsThreads(if e.thread < |s.threads| then Step(s, e.thread, e.action) else s, events[1..]);
    }
  }

  // ------------------------------------------------------------------ wrapping words

  /** The four tests on words of `modulus` values answer as they do on the counters, for every
      slot state of every run, as long as the loaded counter is not a whole window behind. */
  lemma WordTestsAgree<T>(s: State<T>, i: nat, counter: nat, modulus: nat)
    requires Inv(s) && i < s.cap && 2 * s.cap < modulus
    requires counter <= s.tail && s.tail + 2 * s.cap < counter + modulus
    ensures var state := s.cells[i].state;
      && (IsSlotFree(counter % modulus, state % modulus) <==> IsSlotFree(counter, state))
      && (IsQueueEmpty(counter % modulus, state % modulus) <==> IsQueueEmpty(counter, state))
      && ((Counters.WrappingAdd(counter % modulus, 1, modulus) == state % modulus) <==> IsSlotOccupied(counter, state))
      && ((counter % modulus == Counters.WrappingAdd(state % modulus, s.cap - 1, modulus))
          <==> IsQueueFull(counter, state, s.cap))
  {
    assert CellInv(s, i);
    var state := s.cells[i].state;
    Counters.SameWordIff(counter, state, modulus);
    Counters.SameWordIff(counter + 1, state, modulus);
    Counters.SameWordIff(counter, state + s.cap - 1, modulus);
    Counters.AddAgrees(counter, 1, modulus);
    Counters.AddAgrees(state, s.cap - 1, modulus);
  }
}
