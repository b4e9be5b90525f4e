/** Multiset algebra that the solver does not find on its own inside larger proofs. */
module Bags {

  lemma {:induction false} Carry<T>(x': multiset<T>, x: multiset<T>, was: multiset<T>, now: multiset<T>, c: multiset<T>)
    requires x' + was == x + now
    ensures (x' + c) + was == (x + c) + now
  {
    assert (x' + c) + was == (x' + was) + c;
  }

  lemma {:induction false} Exchange<T>(x: multiset<T>, was: multiset<T>, now: multiset<T>)
    ensures (x + now) + was == (x + was) + now
  {
  }

  lemma {:induction false} Regroup<T>(a: multiset<T>, b: multiset<T>, c: multiset<T>)
    ensures (a + b) + c == a + (b + c)
  {
  }

  lemma {:induction false} Cancelled<T>(x': multiset<T>, x: multiset<T>, c: multiset<T>)
    requires x' + c == x + c
    ensures x' == x
  {
    assert x' == (x' + c) - c && x == (x + c) - c;
  }

  lemma {:induction false} Below<T>(a: multiset<T>, b: multiset<T>, c: multiset<T>, d: multiset<T>)
    requires a <= b && c <= d
    ensures a + c <= b + d
  {
  }
}
