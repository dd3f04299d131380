/**
 How far the conservation of SpmcNetwork reaches (src/spmc/const_bounded.rs). A queue of odd capacity
 has a run that leaves an element in the queue and in the receiver: its producer fills the queue and
 overflows until the head is in the upper half of the array. A queue of even capacity has a run that
 loses an element: after an overflow the cached head is half a capacity behind, and a push from there
 does not see that the queue has been filled again.
 */
module ConservationLimits {
  import opened Ring
  import opened Overflow
  import opened PushTest
  import opened SpmcNetwork

  /** Nothing happened to the counters of a queue. */
  predicate SameCounters<T>(q: Queue<T>, q': Queue<T>) {
    q'.cap == q.cap && q'.head == q.head && q'.tail == q.tail && q'.cached == q.cached
  }

  function Written<T>(pc: Pc<T>): nat {
    if pc.Filling? then |pc.vals| else 0
  }

  lemma WriteOne<T>(s: State<T>, i: nat, v: T)
    requires Shape(s) && i < |s.queues| && (s.threads[i].Idle? || s.threads[i].Filling?)
    requires Written(s.threads[i]) < Room(s.queues[i])
    ensures var s' := Step(s, Event(i, Write(v)));
            && Shape(s') && |s'.queues| == |s.queues| && s'.threads[i].Filling? && s'.twice == s.twice
            && Written(s'.threads[i]) == Written(s.threads[i]) + 1 && SameCounters(s.queues[i], s'.queues[i])
  {
    assert PcInv(s.queues, i, s.threads[i]);
    assert s.twice + multiset([]) == s.twice;
  }

  lemma CommitOne<T>(s: State<T>, i: nat)
    requires Shape(s) && i < |s.queues| && s.threads[i].Filling?
    ensures var s', q := Step(s, Event(i, Commit)), s.queues[i];
            && Shape(s') && |s'.queues| == |s.queues| && s'.threads[i].Idle? && s'.twice == s.twice
            && SameCounters(q.(tail := q.tail + Written(s.threads[i])), s'.queues[i])
  {
    assert s.twice + multiset([]) == s.twice;
  }

  lemma SeeOne<T>(s: State<T>, i: nat)
    requires Shape(s) && i < |s.queues| && s.threads[i].Idle?
    ensures var s', q := Step(s, Event(i, SeeHead(s.queues[i].head, true))), s.queues[i];
            && Shape(s') && |s'.queues| == |s.queues| && s'.threads[i].Idle? && s'.twice == s.twice
            && SameCounters(q.(cached := q.head), s'.queues[i])
  {
    assert QueueInv(s.queues[i]);
    assert s.twice + multiset([]) == s.twice;
  }

  /** Reads one value of a batch, or hands it over. */
  lemma GoOne<T>(s: State<T>, i: nat)
    requires Shape(s) && i < |s.queues| && s.threads[i].Taking?
    ensures var s', pc := Step(s, Event(i, Go)), s.threads[i];
            && Shape(s') && |s'.queues| == |s.queues| && s'.twice == s.twice && SameCounters(s.queues[i], s'.queues[i])
            && if |pc.got| < |pc.vals| then
                 s'.threads[i].Taking? && s'.threads[i].vals == pc.vals && |s'.threads[i].got| == |pc.got| + 1
               else s'.threads[i].Idle?
  {
    assert PcInv(s.queues, i, s.threads[i]);
    assert s.twice + multiset([]) == s.twice;
  }

  lemma OverflowOne<T>(s: State<T>, i: nat, v: T)
    requires Shape(s) && i < |s.queues| && s.threads[i].Idle? && s.queues[i].tail == s.queues[i].head + s.queues[i].cap
    ensures var s', q := Step(s, Event(i, TryOverflow(s.queues[i].head, [v]))), s.queues[i];
            && 0 < q.cap && Shape(s') && |s'.queues| == |s.queues| && s'.threads[i].Taking? && |s'.threads[i].got| == 0
            && SameCounters(q.(head := q.head + q.cap / 2), s'.queues[i])
            && |s'.twice| == |s.twice| + (BatchSize(q.head, q.cap) - q.cap / 2)
  {
    var q := s.queues[i];
    assert QueueInv(q);
    OverflowFits(q, [v]);
    assert EffectOf(s, i, TryOverflow(q.head, [v])) == OverflowEffect(q, i, [v]);
    var twice := OverflowEffect(q, i, [v]).twice;
    assert |twice| == BatchSize(q.head, q.cap) - q.cap / 2;
  }

  // ------------------------------------------------------------------ the run

  lemma RunCons<T>(s: State<T>, e: Event<T>, rest: seq<Event<T>>)
    requires Shape(s)
    ensures Run(s, [e] + rest) == Run(Step(s, e), rest)
  {
    assert ([e] + rest)[1..] == rest;
  }

  lemma {:induction false} WriteMany<T>(s: State<T>, i: nat, v: T, k: nat) returns (events: seq<Event<T>>)
    requires Shape(s) && i < |s.queues| && (s.threads[i].Idle? || s.threads[i].Filling?)
    requires Written(s.threads[i]) + k <= Room(s.queues[i])
    ensures NoPushes(events)
    ensures var s' := Run(s, events);
            && Shape(s') && |s'.queues| == |s.queues| && s'.twice == s.twice && SameCounters(s.queues[i], s'.queues[i])
            && (if k == 0 then s'.threads[i] == s.threads[i] else s'.threads[i].Filling?)
            && Written(s'.threads[i]) == Written(s.threads[i]) + k
    decreases k
  {
    if k == 0 {
      return [];
    }
    WriteOne(s, i, v);
    var rest := WriteMany(Step(s, Event(i, Write(v))), i, v, k - 1);
    RunCons(s, Event(i, Write(v)), rest);
    events := [Event(i, Write(v))] + rest;
  }

  /** Pushes `k` values. */
  lemma FillUp<T>(s: State<T>, i: nat, v: T, k: nat) returns (events: seq<Event<T>>)
    requires Shape(s) && i < |s.queues| && s.threads[i].Idle? && 0 < k <= Room(s.queues[i])
    ensures NoPushes(events)
    ensures var s', q := Run(s, events), s.queues[i];
            && Shape(s') && |s'.queues| == |s.queues| && s'.twice == s.twice && s'.threads[i].Idle?
            && SameCounters(q.(tail := q.tail + k), s'.queues[i])
  {
    var writes := WriteMany(s, i, v, k);
    CommitOne(Run(s, writes), i);
    RunCons(Run(s, writes), Event(i, Commit), []);
    RunConcat(s, writes, [Event(i, Commit)] + []);
    events := writes + ([Event(i, Commit)] + []);
  }

  /** Hands over what is left of a batch. */
  lemma {:induction false} HandOverAll<T>(s: State<T>, i: nat) returns (events: seq<Event<T>>)
    requires Shape(s) && i < |s.queues| && s.threads[i].Taking?
    ensures NoPushes(events)
    ensures var s' := Run(s, events);
            && Shape(s') && |s'.queues| == |s.queues| && s'.twice == s.twice && s'.threads[i].Idle?
            && SameCounters(s.queues[i], s'.queues[i])
    decreases |s.threads[i].vals| - |s.threads[i].got|
  {
    assert PcInv(s.queues, i, s.threads[i]);
    GoOne(s, i);
    var rest := [];
    if |s.threads[i].got| < |s.threads[i].vals| {
      rest := HandOverAll(Step(s, Event(i, Go)), i);
    }
    RunCons(s, Event(i, Go), rest);
    events := [Event(i, Go)] + rest;
  }

  /** Fills the queue and starts an overflow. */
  lemma FillAndOverflow<T>(s: State<T>, i: nat, v: T) returns (events: seq<Event<T>>)
    requires Shape(s) && i < |s.queues| && s.threads[i].Idle?
    requires var q := s.queues[i]; q.tail < q.head + q.cap
    ensures NoPushes(events)
    ensures var s', q := Run(s, events), s.queues[i];
            && 0 < q.cap && Shape(s') && |s'.queues| == |s.queues| && s'.threads[i].Taking?
            && SameCounters(q.(head := q.head + q.cap / 2, tail := q.head + q.cap), s'.queues[i])
            && |s'.twice| == |s.twice| + (BatchSize(q.head, q.cap) - q.cap / 2)
  {
    var q := s.queues[i];
    var fill := FillUp(s, i, v, q.head + q.cap - q.tail);
    var full := Run(s, fill);
    OverflowOne(full, i, v);
    var e := Event(i, TryOverflow(q.head, [v]));
    RunCons(full, e, []);
    RunConcat(s, fill, [e] + []);
    events := fill + ([e] + []);
  }

  /** Then looks at the head again. */
  lemma FinishAndSee<T>(s: State<T>, i: nat) returns (events: seq<Event<T>>)
    requires Shape(s) && i < |s.queues| && s.threads[i].Taking?
    ensures NoPushes(events)
    ensures var s', q := Run(s, events), s.queues[i];
            && Shape(s') && |s'.queues| == |s.queues| && s'.twice == s.twice && s'.threads[i].Idle?
            && SameCounters(q.(cached := q.head), s'.queues[i])
  {
    var give := HandOverAll(s, i);
    var given := Run(s, give);
    SeeOne(given, i);
    var e := Event(i, SeeHead(given.queues[i].head, true));
    RunCons(given, e, []);
    RunConcat(s, give, [e] + []);
    events := give + ([e] + []);
  }

  /** A fresh queue of odd capacity: the first overflow moves the head by half of the capacity,
      rounded down, which is the first slot of the upper half; the second one takes one too many.
      A single slot is in the upper half from the start. */
  lemma SomeRunTakesTwice<T>(s: State<T>, i: nat, v: T) returns (events: seq<Event<T>>)
    requires Shape(s) && i < |s.queues| && s.threads[i].Idle? && s.twice == multiset{}
    requires var q := s.queues[i]; q.head == q.tail == 0 && q.cap % 2 == 1
    ensures NoPushes(events) && Run(s, events).twice != multiset{}
  {
    assert QueueInv(s.queues[i]);
    var c := s.queues[i].cap;
    var first := FillAndOverflow(s, i, v);
    if c == 1 {
      return first;
    }
    var s1 := Run(s, first);
    var finish := FinishAndSee(s1, i);
    var s2 := Run(s1, finish);
    var second := FillAndOverflow(s2, i, v);
    assert Slot(c / 2, c) == c / 2;
    RunConcat(s1, finish, second);
    RunConcat(s, first, finish + second);
    events := first + (finish + second);
  }

  /** A fresh queue of even capacity: full again after an overflow, it has half a capacity more behind
      the cached head than it can hold, and the next push stores over its oldest element. */
  lemma SomeRunLoses<T>(s: State<T>, i: nat, v: T) returns (events: seq<Event<T>>)
    requires Shape(s) && i < |s.queues| && s.threads[i].Idle?
    requires var q := s.queues[i]; q.head == q.tail == 0 && q.cap % 2 == 0
    ensures Run(s, events).lost != multiset{}
  {
    assert QueueInv(s.queues[i]);
    var half := s.queues[i].cap / 2;
    var first := FillAndOverflow(s, i, v);
    var s1 := Run(s, first);
    var give := HandOverAll(s1, i);
    var s2 := Run(s1, give);
    var refill := FillUp(s2, i, v, half);
    var s3 := Run(s2, refill);
    var push := PushOnce(s3, i, v);
    RunConcat(s2, refill, push);
    RunConcat(s1, give, refill + push);
    RunConcat(s, first, give + (refill + push));
    events := first + (give + (refill + push));
  }

  lemma PushOnce<T>(s: State<T>, i: nat, v: T) returns (events: seq<Event<T>>)
    requires Shape(s) && i < |s.queues| && s.threads[i].Idle?
    requires var q := s.queues[i]; q.tail == q.head + q.cap && q.cached < q.head
    ensures Run(s, events).lost != multiset{}
  {
    var call, go: seq<Event<T>> := Event(i, Push(v, Equal)), [Event(i, Go)];
    StoreLoses(Step(s, call), i, go);
    RunCons(s, call, go);
    events := [call] + go;
  }

  /** No run loses or duplicates anything, whatever is pushed, popped, stolen and spilled in any
      order, as long as its pushes are safe when they are called, exactly when all capacities are
      even. */
  lemma ConservationIff<T>(memories: seq<seq<T>>, threads: nat, least: nat)
    requires |memories| <= threads
    requires forall i :: 0 <= i < |memories| ==> 0 < |memories[i]|
    ensures (forall events: seq<Event<T>> :: SafePushes(Init(memories, threads, least), events) ==>
               Conserved(RunFrom(memories, threads, least, events)))
       <==> (forall i :: 0 <= i < |memories| ==> |memories[i]| % 2 == 0)
  {
    if i: nat :| i < |memories| && |memories[i]| % 2 == 1 {
      OddBreaks(memories, threads, least, i);
    } else {
      forall events: seq<Event<T>> | SafePushes(Init(memories, threads, least), events)
        ensures Conserved(RunFrom(memories, threads, least, events))
      {
        Conservation(memories, threads, least, events);
      }
    }
  }

  lemma OddBreaks<T>(memories: seq<seq<T>>, threads: nat, least: nat, i: nat)
    requires i < |memories| <= threads && |memories[i]| % 2 == 1
    requires forall i :: 0 <= i < |memories| ==> 0 < |memories[i]|
    ensures exists events: seq<Event<T>> :: SafePushes(Init(memories, threads, least), events)
              && !Conserved(RunFrom(memories, threads, least, events))
  {
    var s := Init(memories, threads, least);
    var events := SomeRunTakesTwice(s, i, memories[i][0]);
    NoPushIsSafe(s, events);
    RoomyAtRest(s);
    SafeRun(s, events);
    Accounting(memories, threads, least, events);
    ConservedIff(RunFrom(memories, threads, least, events));
  }

  lemma RoomyAtRest<T>(s: State<T>)
    requires forall t :: 0 <= t < |s.threads| ==> s.threads[t].Idle?
    ensures Roomy(s)
  {
  }

  /** Without the condition on its pushes no network does: whatever the capacities are, some run
      loses or duplicates an element. */
  lemma UnsafePushesBreak<T>(memories: seq<seq<T>>, threads: nat, least: nat)
    requires 0 < |memories| <= threads
    requires forall i :: 0 <= i < |memories| ==> 0 < |memories[i]|
    ensures exists events: seq<Event<T>> :: !Conserved(RunFrom(memories, threads, least, events))
  {
    if i: nat :| i < |memories| && |memories[i]| % 2 == 1 {
      OddBreaks(memories, threads, least, i);
    } else {
      var s := Init(memories, threads, least);
      var events := SomeRunLoses(s, 0, memories[0][0]);
      EvenRun(s, events);
      Accounting(memories, threads, least, events);
      ConservedIff(RunFrom(memories, threads, least, events));
    }
  }
}
