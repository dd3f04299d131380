/**
 The cell that holds the newest buffer version: `NaiveRWLock` used as a `SyncCell`
 (src/naive_rw_lock.rs, src/sync_cell.rs).

 A stored value is two words wide here and each word is read or written in a step of its
 own, so a reader that overlapped a writer would see a half-stored value.
 */
module VersionCell {

  /** Where a thread stands in `try_with`, or in `try_store` and the `swap` loop around it. */
  datatype Pc<T> =
    | Rest
    | ReadLoad
    | ReadCas(seen: int)
    | ReadFirst
    | ReadSecond(first: T)
    | ReadDrop(first: T, second: T)
    | ReadSome(first: T, second: T)
    | ReadNone
    | StoreTry(value: (T, T), swap: bool)
    | StoreFirst(value: (T, T))
    | StoreSecond(value: (T, T))
    | StoreDrop(value: (T, T))
    | StoreErr(value: (T, T))

  datatype Entry<T> = Entry(value: (T, T), thread: nat)

  /** A call of `try_store` or `swap`, entered when it begins; how it ended. */
  datatype Outcome = Running | Stored | Refused
  datatype Call<T> = Call(value: (T, T), swap: bool, outcome: Outcome)

  datatype State<T> = State(
    state: int, first: T, second: T, threads: seq<Pc<T>>,
    stored: seq<Entry<T>>,      // every value ever stored completely, the initial one first
    calls: seq<seq<Call<T>>>,   // per thread, its calls that store, in order
    readers: set<nat>,          // threads that hold a read guard
    writers: set<nat>)          // threads that hold the write guard

  datatype Action<T> = StartTryWith | StartTryStore(value: (T, T)) | StartSwap(value: (T, T)) | Go(spurious: bool)
  datatype Event<T> = Event(thread: nat, action: Action<T>)

  predicate Resting<T>(pc: Pc<T>) {
    pc.Rest? || pc.ReadSome? || pc.ReadNone? || pc.StoreErr?
  }

  /** The initial value is entered under a thread number that no thread has. */
  function Init<T>(value: (T, T), threads: nat): State<T> {
    State(0, value.0, value.1, seq(threads, i => Rest), [Entry(value, threads)], seq(threads, i => []), {}, {})
  }

  predicate WellFormed<T>(s: State<T>) {
    |s.calls| == |s.threads| && 0 < |s.stored|
  }

  function Goto<T>(s: State<T>, t: nat, pc: Pc<T>): State<T>
    requires t < |s.threads|
  {
    s.(threads := s.threads[t := pc])
  }

  function WinRead<T>(s: State<T>, t: nat): State<T>
    requires t < |s.threads|
  {
    s.(state := s.state + 1, readers := s.readers + {t}, threads := s.threads[t := ReadFirst])
  }

  function DropRead<T>(s: State<T>, t: nat, first: T, second: T): State<T>
    requires t < |s.threads|
  {
    s.(state := s.state - 1, readers := s.readers - {t}, threads := s.threads[t := ReadSome(first, second)])
  }

  function WinWrite<T>(s: State<T>, t: nat, value: (T, T)): State<T>
    requires t < |s.threads|
  {
    s.(state := -1, writers := s.writers + {t}, threads := s.threads[t := StoreFirst(value)])
  }

  function WriteFirst<T>(s: State<T>, t: nat, value: (T, T)): State<T>
    requires t < |s.threads|
  {
    s.(first := value.0, threads := s.threads[t := StoreSecond(value)])
  }

  function WriteSecond<T>(s: State<T>, t: nat, value: (T, T)): State<T>
    requires t < |s.threads|
  {
    s.(second := value.1, stored := s.stored + [Entry(value, t)], threads := s.threads[t := StoreDrop(value)])
  }

  function DropWrite<T>(s: State<T>, t: nat): State<T>
    requires t < |s.threads| == |s.calls|
  {
    s.(state := 0, writers := s.writers - {t}, calls := s.calls[t := Ended(s.calls[t], Stored)],
       threads := s.threads[t := Rest])
  }

  /** The last call ends. */
  function Ended<T>(calls: seq<Call<T>>, outcome: Outcome): seq<Call<T>> {
    if calls == [] then [] else calls[..|calls| - 1] + [Last(calls).(outcome := outcome)]
  }

  function Last<A>(calls: seq<A>): A
    requires calls != []
  {
    calls[|calls| - 1]
  }

  function BeginStore<T>(s: State<T>, t: nat, value: (T, T), swap: bool): State<T>
    requires t < |s.threads| == |s.calls|
  {
    s.(calls := s.calls[t := s.calls[t] + [Call(value, swap, Running)]],
       threads := s.threads[t := StoreTry(value, swap)])
  }

  function RefuseStore<T>(s: State<T>, t: nat, value: (T, T)): State<T>
    requires t < |s.threads| == |s.calls|
  {
    s.(calls := s.calls[t := Ended(s.calls[t], Refused)], threads := s.threads[t := StoreErr(value)])
  }

  function Step<T>(s: State<T>, t: nat, a: Action<T>): (s': State<T>)
    requires WellFormed(s) && t < |s.threads|
    ensures WellFormed(s')
  {
    match a
    case StartTryWith => if Resting(s.threads[t]) then Goto(s, t, ReadLoad) else s
    case StartTryStore(v) => if Resting(s.threads[t]) then BeginStore(s, t, v, false) else s
    case StartSwap(v) => if Resting(s.threads[t]) then BeginStore(s, t, v, true) else s
    case Go(spurious) =>
      match s.threads[t]
      case ReadLoad => Goto(s, t, if s.state != -1 then ReadCas(s.state) else ReadNone)
      case ReadCas(seen) =>
        if s.state == seen && !spurious then WinRead(s, t)
        else Goto(s, t, if s.state != -1 then ReadCas(s.state) else ReadNone)
      case ReadFirst => Goto(s, t, ReadSecond(s.first))
      case ReadSecond(x) => Goto(s, t, ReadDrop(x, s.second))
      case ReadDrop(x, y) => DropRead(s, t, x, y)
      case StoreTry(v, swap) =>
        if s.state == 0 then WinWrite(s, t, v)
        else if swap then Goto(s, t, StoreTry(v, true))
        else RefuseStore(s, t, v)
      case StoreFirst(v) => WriteFirst(s, t, v)
      case StoreSecond(v) => WriteSecond(s, t, v)
      case StoreDrop(_) => DropWrite(s, t)
      case _ => s
  }

  function Run<T>(s: State<T>, events: seq<Event<T>>): (s': State<T>)
    requires WellFormed(s)
    ensures WellFormed(s')
    decreases |events|
  {
    if events == [] then s
    else
      var e := events[0];
      Run(if e.thread < |s.threads| then Step(s, e.thread, e.action) else s, events[1..])
  }

  // ------------------------------------------------------------------ the invariant

  predicate HoldsRead<T>(pc: Pc<T>) {
    pc.ReadFirst? || pc.ReadSecond? || pc.ReadDrop?
  }

  predicate HoldsWrite<T>(pc: Pc<T>) {
    pc.StoreFirst? || pc.StoreSecond? || pc.StoreDrop?
  }

  predicate Storing<T>(pc: Pc<T>) {
    pc.StoreTry? || HoldsWrite(pc)
  }

  /** What a thread stored, in the order of the cell. */
  function ValuesBy<T>(stored: seq<Entry<T>>, t: nat): seq<(T, T)> {
    if stored == [] then []
    else ValuesBy(stored[..|stored| - 1], t) + (if Last(stored).thread == t then [Last(stored).value] else [])
  }

  /** The values of the calls that ended with `Ok`, in the order of the calls. */
  function ValuesOf<T>(calls: seq<Call<T>>): seq<(T, T)> {
    if calls == [] then []
    else ValuesOf(calls[..|calls| - 1]) + (if Last(calls).outcome.Stored? then [Last(calls).value] else [])
  }

  function Latest<T>(s: State<T>): (T, T)
    requires WellFormed(s)
  {
    s.stored[|s.stored| - 1].value
  }

  ghost predicate LockInv<T>(s: State<T>) {
    && WellFormed(s)
    && s.state == (if s.writers == {} then |s.readers| else -1)
    && (s.writers != {} ==> s.readers == {})
    && (forall t, u :: t in s.writers && u in s.writers ==> t == u)
    && (forall t :: t in s.readers ==> t < |s.threads|)
    && (forall t :: t in s.writers ==> t < |s.threads|)
    && (s.writers == {} ==> (s.first, s.second) == Latest(s))
  }

  ghost predicate ThreadInv<T>(s: State<T>, t: nat)
    requires WellFormed(s) && t < |s.threads|
  {
    var pc := s.threads[t];
    && (HoldsRead(pc) <==> t in s.readers)
    && (HoldsWrite(pc) <==> t in s.writers)
    && ValuesBy(s.stored, t) == ValuesOf(s.calls[t]) + (if pc.StoreDrop? then [pc.value] else [])
    && (Storing(pc) ==> s.calls[t] != [] && Last(s.calls[t]).value == pc.value && Last(s.calls[t]).outcome.Running?)
    && (pc.StoreTry? ==> Last(s.calls[t]).swap == pc.swap)
    && (forall k :: 0 <= k < |s.calls[t]| && s.calls[t][k].swap ==> !s.calls[t][k].outcome.Refused?)
    && (pc.StoreErr? ==> s.calls[t] != [] && Last(s.calls[t]) == Call(pc.value, false, Refused))
    && (forall k :: 0 <= k < |s.calls[t]| - (if Storing(pc) then 1 else 0) ==> !s.calls[t][k].outcome.Running?)
    && (pc.ReadCas? ==> pc.seen != -1)
    && (pc.ReadSecond? ==> pc.first == s.first)
    && (pc.ReadDrop? ==> (pc.first, pc.second) == Latest(s))
    && (pc.ReadSome? ==> exists i :: 0 <= i < |s.stored| && s.stored[i].value == (pc.first, pc.second))
    && (pc.StoreSecond? ==> pc.value.0 == s.first)
    && (pc.StoreDrop? ==> (s.first, s.second) == Latest(s))
  }

  ghost predicate Inv<T>(s: State<T>) {
    && LockInv(s)
    && (forall t: nat {:trigger ThreadInv(s, t)} :: t < |s.threads| ==> ThreadInv(s, t))
  }

  lemma InitHasInv<T>(value: (T, T), threads: nat)
    ensures Inv(Init(value, threads))
  {
    var s := Init(value, threads);
    forall t: nat | t < threads ensures ThreadInv(s, t) {
      assert s.stored[..0] == [];
    }
  }

  lemma StepKeepsInv<T>(s: State<T>, t: nat, a: Action<T>)
    requires Inv(s) && t < |s.threads|
    ensures Inv(Step(s, t, a))
  {
    assert ThreadInv(s, t);
    if a.StartTryWith? {
      if Resting(s.threads[t]) { GotoKeepsInv(s, t, ReadLoad); }
    } else if !a.Go? {
      if Resting(s.threads[t]) { BeginStoreKeepsInv(s, t, a.value, a.StartSwap?); }
    } else if HoldsWrite(s.threads[t]) || s.threads[t].StoreTry? {
      StoreGoKeepsInv(s, t, a.spurious);
    } else {
      ReadGoKeepsInv(s, t, a.spurious);
    }
  }

  lemma StoreGoKeepsInv<T>(s: State<T>, t: nat, spurious: bool)
    requires Inv(s) && t < |s.threads| && (HoldsWrite(s.threads[t]) || s.threads[t].StoreTry?)
    ensures Inv(Step(s, t, Go(spurious)))
  {
    assert ThreadInv(s, t);
    match s.threads[t]
    case StoreTry(v, swap) =>
      if s.state == 0 { WinWriteKeepsInv(s, t, v); }
      else if swap { GotoKeepsInv(s, t, StoreTry(v, true)); }
      else { RefuseStoreKeepsInv(s, t, v); }
    case StoreFirst(v) => WriteFirstKeepsInv(s, t, v);
    case StoreSecond(v) => WriteSecondKeepsInv(s, t, v);
    case StoreDrop(v) => DropWriteKeepsInv(s, t, v);
  }

  lemma ReadGoKeepsInv<T>(s: State<T>, t: nat, spurious: bool)
    requires Inv(s) && t < |s.threads| && !HoldsWrite(s.threads[t]) && !s.threads[t].StoreTry?
    ensures Inv(Step(s, t, Go(spurious)))
  {
    assert ThreadInv(s, t);
    var pc := s.threads[t];
    if pc.ReadCas? && s.state == pc.seen && !spurious {
      WinReadKeepsInv(s, t);
    } else if pc.ReadDrop? {
      DropReadKeepsInv(s, t, pc.first, pc.second);
    } else {
      GotoKeepsInv(s, t, Step(s, t, Go(spurious)).threads[t]);
    }
  }

  /** A thread moved on without touching the lock, its word or its guard. */
  lemma GotoKeepsInv<T>(s: State<T>, t: nat, pc: Pc<T>)
    requires Inv(s) && t < |s.threads| && ThreadInv(Goto(s, t, pc), t)
    ensures Inv(Goto(s, t, pc))
  {
    var s' := Goto(s, t, pc);
    forall u: nat | u < |s'.threads| ensures ThreadInv(s', u) { assert ThreadInv(s, u); }
  }

  lemma WinReadKeepsInv<T>(s: State<T>, t: nat)
    requires Inv(s) && t < |s.threads| && s.threads[t] == ReadCas(s.state)
    ensures Inv(WinRead(s, t))
  {
    var s' := WinRead(s, t);
    assert ThreadInv(s, t);
    forall u: nat | u < |s'.threads| ensures ThreadInv(s', u) { assert ThreadInv(s, u); }
  }

  lemma DropReadKeepsInv<T>(s: State<T>, t: nat, x: T, y: T)
    requires Inv(s) && t < |s.threads| && s.threads[t] == ReadDrop(x, y)
    ensures Inv(DropRead(s, t, x, y))
  {
    var s' := DropRead(s, t, x, y);
    assert ThreadInv(s, t);
    assert s.stored[|s.stored| - 1].value == (x, y);
    forall u: nat | u < |s'.threads| ensures ThreadInv(s', u) { assert ThreadInv(s, u); }
  }

  lemma WinWriteKeepsInv<T>(s: State<T>, t: nat, v: (T, T))
    requires Inv(s) && t < |s.threads| && s.threads[t].StoreTry? && s.threads[t].value == v && s.state == 0
    ensures Inv(WinWrite(s, t, v))
  {
    var s' := WinWrite(s, t, v);
    assert ThreadInv(s, t);
    assert s.readers == {};
    assert t in s'.writers;
    forall u: nat | u < |s'.threads| ensures ThreadInv(s', u) { assert ThreadInv(s, u); }
  }

  lemma WriteFirstKeepsInv<T>(s: State<T>, t: nat, v: (T, T))
    requires Inv(s) && t < |s.threads| && s.threads[t] == StoreFirst(v)
    ensures Inv(WriteFirst(s, t, v))
  {
    var s' := WriteFirst(s, t, v);
    assert ThreadInv(s, t);
    forall u: nat | u < |s'.threads| ensures ThreadInv(s', u) { assert ThreadInv(s, u); }
  }

  lemma WriteSecondKeepsInv<T>(s: State<T>, t: nat, v: (T, T))
    requires Inv(s) && t < |s.threads| && s.threads[t] == StoreSecond(v)
    ensures Inv(WriteSecond(s, t, v))
  {
    var s' := WriteSecond(s, t, v);
    assert ThreadInv(s, t);
    assert s'.stored[..|s'.stored| - 1] == s.stored;
    forall u: nat | u < |s'.threads| ensures ThreadInv(s', u) {
      assert ThreadInv(s, u);
      if s.threads[u].ReadSome? {
        var i :| 0 <= i < |s.stored| && s.stored[i].value == (s.threads[u].first, s.threads[u].second);
        assert s'.stored[i] == s.stored[i];
      }
    }
  }

  lemma DropWriteKeepsInv<T>(s: State<T>, t: nat, v: (T, T))
    requires Inv(s) && t < |s.threads| && s.threads[t] == StoreDrop(v)
    ensures Inv(DropWrite(s, t))
  {
    var s' := DropWrite(s, t);
    assert ThreadInv(s, t);
    assert s'.writers == {};
    EndedValues(s.calls[t], Stored);
    forall u: nat | u < |s'.threads| ensures ThreadInv(s', u) { assert ThreadInv(s, u); }
  }

  /** Ending a call adds its value exactly if it was stored. */
  lemma EndedValues<T>(calls: seq<Call<T>>, outcome: Outcome)
    requires calls != [] && Last(calls).outcome.Running?
    ensures ValuesOf(Ended(calls, outcome)) == ValuesOf(calls) + (if outcome.Stored? then [Last(calls).value] else [])
  {
    assert Ended(calls, outcome)[..|calls| - 1] == calls[..|calls| - 1];
  }

  lemma BeginStoreKeepsInv<T>(s: State<T>, t: nat, v: (T, T), swap: bool)
    requires Inv(s) && t < |s.threads| && Resting(s.threads[t])
    ensures Inv(BeginStore(s, t, v, swap))
  {
    var s' := BeginStore(s, t, v, swap);
    assert ThreadInv(s, t);
    assert s'.calls[t][..|s.calls[t]|] == s.calls[t];
    forall u: nat | u < |s'.threads| ensures ThreadInv(s', u) { assert ThreadInv(s, u); }
  }

  lemma RefuseStoreKeepsInv<T>(s: State<T>, t: nat, v: (T, T))
    requires Inv(s) && t < |s.threads| && s.threads[t] == StoreTry(v, false)
    ensures Inv(RefuseStore(s, t, v))
  {
    var s' := RefuseStore(s, t, v);
    assert ThreadInv(s, t);
    EndedValues(s.calls[t], Refused);
    forall u: nat | u < |s'.threads| ensures ThreadInv(s', u) { assert ThreadInv(s, u); }
  }

  lemma {:induction false} RunKeepsInv<T>(s: State<T>, events: seq<Event<T>>)
    requires Inv(s)
    ensures Inv(Run(s, events))
    decreases |events|
  {
    if events != [] {
      var e := events[0];
      if e.thread < |s.threads| {
        StepKeepsInv(s, e.thread, e.action);
        RunKeepsInv(Step(s, e.thread, e.action), events[1..]);
      } else {
        RunKeepsInv(s, events[1..]);
      }
    }
  }

  // ------------------------------------------------------------------ what every run guarantees

  function RunFrom<T>(value: (T, T), threads: nat, events: seq<Event<T>>): (s: State<T>)
    ensures WellFormed(s)
  {
    Run(Init(value, threads), events)
  }

  lemma ReachedHasInv<T>(value: (T, T), threads: nat, events: seq<Event<T>>)
    ensures Inv(RunFrom(value, threads, events))
  {
    InitHasInv(value, threads);
    RunKeepsInv(Init(value, threads), events);
  }

  /** The state word is -1 exactly when a writer holds the lock, who is then the only holder of
      any guard; otherwise it is the number of threads that hold a read guard. */
  lemma StateCountsHolders<T>(value: (T, T), threads: nat, events: seq<Event<T>>)
    ensures var s := RunFrom(value, threads, events);
      var readers := set t: nat | t < |s.threads| && HoldsRead(s.threads[t]);
      var writers := set t: nat | t < |s.threads| && HoldsWrite(s.threads[t]);
      && (s.state == -1 <==> writers != {})
      && (s.state != -1 ==> s.state == |readers|)
      && (writers != {} ==> readers == {} && |writers| == 1)
  {
    ReachedHasInv(value, threads, events);
    var s := RunFrom(value, threads, events);
    var readers := set t: nat | t < |s.threads| && HoldsRead(s.threads[t]);
    var writers := set t: nat | t < |s.threads| && HoldsWrite(s.threads[t]);
    forall t: nat | t < |s.threads|
      ensures (t in readers <==> t in s.readers) && (t in writers <==> t in s.writers)
    {
      assert ThreadInv(s, t);
    }
    assert readers == s.readers && writers == s.writers;
    if t :| t in writers {
      assert writers == {t};
    }
  }

  /** `try_with` never observes a half-stored value: the two words that it hands over are one
      value that was stored, the newest one while the read guard was held. */
  lemma ReadsAreWhole<T>(value: (T, T), threads: nat, events: seq<Event<T>>, t: nat)
    requires t < |RunFrom(value, threads, events).threads|
    ensures var s := RunFrom(value, threads, events);
      && (s.threads[t].ReadDrop? ==> (s.threads[t].first, s.threads[t].second) == Latest(s) == (s.first, s.second))
      && (s.threads[t].ReadSome? ==>
            exists i :: 0 <= i < |s.stored| && s.stored[i].value == (s.threads[t].first, s.threads[t].second))
  {
    ReachedHasInv(value, threads, events);
    assert ThreadInv(RunFrom(value, threads, events), t);
  }

  /** A call that returns `Ok` stored its own value, exactly once, and one that returns `Err` gave its
      value back and stored nothing: what a thread between calls has stored, in order, are the
      values of its calls that ended with `Ok`. Every `swap` ended so; `Err` is for `try_store` only. */
  lemma StoredExactlyOnce<T>(value: (T, T), threads: nat, events: seq<Event<T>>, t: nat)
    requires t < |RunFrom(value, threads, events).threads|
    requires Resting(RunFrom(value, threads, events).threads[t])
    ensures var s := RunFrom(value, threads, events);
            && ValuesBy(s.stored, t) == ValuesOf(s.calls[t])
            && (forall call :: call in s.calls[t] ==> !call.outcome.Running? && (call.swap ==> call.outcome.Stored?))
            && (s.threads[t].StoreErr? ==>
                  s.calls[t] != [] && Last(s.calls[t]) == Call(s.threads[t].value, false, Refused))
  {
    ReachedHasInv(value, threads, events);
    assert ThreadInv(RunFrom(value, threads, events), t);
  }

  /** A call is entered with its value and as what it is. */
  lemma CallsAreEntered<T>(s: State<T>, t: nat, value: (T, T))
    requires Inv(s) && t < |s.threads| && Resting(s.threads[t])
    ensures Step(s, t, StartTryStore(value)).calls[t] == s.calls[t] + [Call(value, false, Running)]
    ensures Step(s, t, StartSwap(value)).calls[t] == s.calls[t] + [Call(value, true, Running)]
  {
  }

  /** `try_store` gives its value back only while some thread holds a guard, and `swap` never does. */
  lemma StoreErrMeans<T>(s: State<T>, t: nat, a: Action<T>)
    requires Inv(s) && t < |s.threads| && !s.threads[t].StoreErr?
    requires Step(s, t, a).threads[t].StoreErr?
    ensures s.threads[t].StoreTry? && !s.threads[t].swap && s.calls[t] != [] && !Last(s.calls[t]).swap
    ensures Step(s, t, a).threads[t].value == s.threads[t].value == Last(s.calls[t]).value
    ensures exists u: nat :: u < |s.threads| && (HoldsWrite(s.threads[u]) || HoldsRead(s.threads[u]))
  {
    assert ThreadInv(s, t) && s.state != 0;
    if s.writers != {} {
      var u :| u in s.writers;
      assert ThreadInv(s, u);
    } else {
      assert s.readers != {};
      var u :| u in s.readers;
      assert ThreadInv(s, u);
    }
  }

  /** `try_with` gives up only while a writer holds the lock. */
  lemma ReadNoneMeans<T>(s: State<T>, t: nat, a: Action<T>)
    requires Inv(s) && t < |s.threads| && !s.threads[t].ReadNone?
    requires Step(s, t, a).threads[t].ReadNone?
    ensures exists u: nat :: u < |s.threads| && HoldsWrite(s.threads[u])
  {
    assert s.state == -1;
    var u :| u in s.writers;
    assert ThreadInv(s, u);
  }

  /** And a lock that nobody holds is taken: by the next try of a store or of a `swap`, and by the next
      exchange of a read that does not fail for no reason and finds the state that it loaded. */
  lemma FreeLockIsTaken<T>(s: State<T>, t: nat)
    requires Inv(s) && t < |s.threads|
    requires forall u: nat :: u < |s.threads| ==> !HoldsWrite(s.threads[u]) && !HoldsRead(s.threads[u])
    ensures s.threads[t].StoreTry? ==> Step(s, t, Go(false)).threads[t] == StoreFirst(s.threads[t].value)
    ensures s.threads[t].ReadLoad? ==> Step(s, t, Go(false)).threads[t] == ReadCas(0)
    ensures s.threads[t] == ReadCas(0) ==> Step(s, t, Go(false)).threads[t].ReadFirst?
  {
    forall u: nat ensures u !in s.writers && u !in s.readers {
      if u < |s.threads| { assert ThreadInv(s, u); }
    }
    assert s.writers == {} && s.readers == {};
  }
}
