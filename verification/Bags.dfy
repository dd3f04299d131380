/**
 Sums of multisets: what many queues and threads hold together.
 */
module Bags {

  function Total<T>(bags: seq<multiset<T>>): multiset<T> {
    if bags == [] then multiset{} else Total(bags[..|bags| - 1]) + bags[|bags| - 1]
  }

  lemma {:induction false} TotalUpdate<T>(bags: seq<multiset<T>>, i: nat, m: multiset<T>)
    requires i < |bags|
    ensures Total(bags[i := m]) + bags[i] == Total(bags) + m
  {
    var n := |bags| - 1;
    if i == n {
      assert bags[i := m][..n] == bags[..n];
    } else {
      TotalUpdate(bags[..n], i, m);
      assert bags[i := m][..n] == bags[..n][i := m];
      AddToBoth(Total(bags[..n][i := m]), bags[i], Total(bags[..n]), m, bags[n]);
    }
  }

  lemma AddToBoth<T>(a: multiset<T>, x: multiset<T>, b: multiset<T>, y: multiset<T>, c: multiset<T>)
    requires a + x == b + y
    ensures (a + c) + x == (b + c) + y
  {
    forall v: T ensures ((a + c) + x)[v] == ((b + c) + y)[v] {
      assert (a + x)[v] == (b + y)[v];
    }
  }

  lemma {:induction false} TotalOfNothing<T>(bags: seq<multiset<T>>)
    requires forall i :: 0 <= i < |bags| ==> bags[i] == multiset{}
    ensures Total(bags) == multiset{}
  {
    if bags != [] { TotalOfNothing(bags[..|bags| - 1]); }
  }
}
