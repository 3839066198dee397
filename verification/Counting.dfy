/** Counting occurrences in a queue. */
module Counting {

  function One(b: bool): nat {
    if b then 1 else 0
  }

  lemma CountHead(q: seq<nat>, x: nat)
    requires q != []
    ensures multiset(q)[x] == One(x == q[0]) + multiset(q[1..])[x]
  {
    assert q == [q[0]] + q[1..];
  }

  lemma CountEnd(q: seq<nat>, y: nat, x: nat)
    ensures multiset(q + [y])[x] == multiset(q)[x] + One(x == y)
  {}
}
