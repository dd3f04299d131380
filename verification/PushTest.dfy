/**
 When a push may store its value: the tests of the single-value pushes of all queues, which compare
 the length behind a cached head with the capacity, and load the head when they fire.

 The tests are safe while the cached head is not too far behind. The lemmas say how far, and how the
 calls of the queues leave it further behind.
 */
module PushTest {

  /** What decides about a push: the cached head, the largest head observed, and the tail. */
  datatype Marks = Marks(cached: nat, seen: nat, tail: nat)

  /** `len == capacity` or `len >= capacity`. */
  datatype Test = Equal | AtLeast

  predicate Fires(test: Test, m: Marks, cap: nat) {
    if test.Equal? then m.tail - m.cached == cap else m.tail - m.cached >= cap
  }

  /** Heads that the producer and the consumers can meet one after the other in a sound queue. */
  predicate Possible(m: Marks, cap: nat, atLoad: nat, atCas: nat, head: nat) {
    m.cached <= m.seen <= atLoad <= atCas <= head <= m.tail <= head + cap
  }

  predicate SafeToPush(m: Marks, cap: nat) {
    m.tail <= m.cached + cap || m.tail < m.seen + cap
  }

  /** A push stores at the tail when its test does not fire, or when the load then meets another head
      than the cached one. */
  predicate StoresInPlace(test: Test, m: Marks, cap: nat, atLoad: nat) {
    !Fires(test, m, cap) || atLoad != m.cached
  }

  /** Either test protects the oldest value, whatever the consumers do, exactly when no more than the
      capacity lies behind the cached head, or less than the capacity behind a head that was
      observed. */
  lemma TestIsSafeIff(test: Test, m: Marks, cap: nat)
    requires 0 < cap && m.cached <= m.seen <= m.tail
    ensures (forall atLoad: nat, head: nat :: Possible(m, cap, atLoad, atLoad, head) ==>
               !StoresInPlace(test, m, cap, atLoad) || m.tail < head + cap)
       <==> SafeToPush(m, cap)
  {
    if !SafeToPush(m, cap) {
      var head: nat := m.tail - cap;
      assert Possible(m, cap, head, head, head) && StoresInPlace(test, m, cap, head);
    }
  }

  /** A pop of many values that leaves the cached head behind makes the next push unsafe once its
      values are replaced: a full queue, `n` values popped and `n` more stored. With either test the
      push then stores over the oldest value. */
  lemma StaleAfterPop(test: Test, cached: nat, cap: nat, n: nat)
    requires 0 < n <= cap
    ensures var m := Marks(cached, cached + n, cached + cap + n);
            && Possible(m, cap, m.seen, m.seen, m.seen) && StoresInPlace(test, m, cap, m.seen)
            && m.tail == m.seen + cap && !SafeToPush(m, cap)
  {
  }

  // ------------------------------------------------------------------ the push that overflows

  datatype PushPath = Direct | AfterLoad | AfterLostRace | Spill

  /** The path of `producer_push` for a head that its load meets and a head that its
      compare-and-exchange meets. All but `Spill` store the value at the tail. */
  function PushPathOf(m: Marks, cap: nat, atLoad: nat, atCas: nat): PushPath {
    if m.tail - m.cached != cap then Direct
    else if m.cached != atLoad then AfterLoad
    else if m.cached != atCas then AfterLostRace
    else Spill
  }

  /** What the push leaves behind (`SpmcBoundedQueue.ProducerPush`): a lost race does not refresh
      the cached head. */
  function AfterPush(m: Marks, cap: nat, atLoad: nat, atCas: nat): Marks {
    match PushPathOf(m, cap, atLoad, atCas)
    case Direct => Marks(m.cached, m.seen, m.tail + 1)
    case AfterLoad => Marks(atLoad, atLoad, m.tail + 1)
    case AfterLostRace => Marks(m.cached, atCas, m.tail + 1)
    case Spill => Marks(m.cached, atCas + cap / 2, m.tail)
  }

  /** A value is only ever stored while a slot is free. */
  ghost predicate NeverOverwrites(m: Marks, cap: nat) {
    forall atLoad: nat, atCas: nat, head: nat :: Possible(m, cap, atLoad, atCas, head) ==>
      PushPathOf(m, cap, atLoad, atCas).Spill? || m.tail < head + cap
  }

  /** The test `len == CAPACITY` protects the oldest value, whatever the consumers do, exactly when
      no more than the capacity lies behind the cached head, or less than the capacity behind a
      head that was observed. */
  lemma PushIsSafeIff(m: Marks, cap: nat)
    requires 0 < cap && m.cached <= m.seen <= m.tail
    ensures NeverOverwrites(m, cap) <==> SafeToPush(m, cap)
  {
    if !SafeToPush(m, cap) {
      var head: nat := m.tail - cap;
      assert Possible(m, cap, head, head, head) && PushPathOf(m, cap, head, head).Direct?;
    }
  }

  /** A push that loses the race for its overflow stores its value safely and leaves the cached head
      behind. The push after it is unsafe exactly when the race was lost by one element. */
  lemma LostRaceMakesNextPushUnsafeIff(m: Marks, cap: nat, atLoad: nat, atCas: nat, head: nat)
    requires 0 < cap && Possible(m, cap, atLoad, atCas, head)
    requires PushPathOf(m, cap, atLoad, atCas).AfterLostRace?
    ensures NeverOverwrites(m, cap)
    ensures !NeverOverwrites(AfterPush(m, cap, atLoad, atCas), cap) <==> atCas == m.cached + 1
  {
    PushIsSafeIff(m, cap);
    PushIsSafeIff(AfterPush(m, cap, atLoad, atCas), cap);
  }

  /** Such a state is reached at once: with two slots, two pushes, and a third one that a consumer of
      one element beats. The fourth then stores over the oldest element. */
  lemma FullAndStaleIsReached()
    ensures var m1 := AfterPush(Marks(0, 0, 0), 2, 0, 0);
            var m2 := AfterPush(m1, 2, 0, 0);
            var m3 := AfterPush(m2, 2, 0, 1);
            && Possible(Marks(0, 0, 0), 2, 0, 0, 0) && Possible(m1, 2, 0, 0, 0) && Possible(m2, 2, 0, 1, 1)
            && PushPathOf(m2, 2, 0, 1).AfterLostRace?
            && m3 == Marks(0, 1, 3) && Possible(m3, 2, 1, 1, 1)
            && PushPathOf(m3, 2, 1, 1).Direct? && m3.tail == 1 + 2
            && !NeverOverwrites(m3, 2)
  {
    PushIsSafeIff(Marks(0, 1, 3), 2);
  }
}
