/** Directory entries sorted by file name, as `std::sort` leaves them. */
module NameSort {
  import opened ShardName

  datatype Entry<+T> = Entry(name: string, content: T)

  /** No entry comes before one with a smaller name. */
  ghost predicate Sorted<T>(es: seq<Entry<T>>) {
    forall i, j | 0 <= i < j < |es| :: !Less(es[j].name, es[i].name)
  }

  ghost predicate Ascending<T>(es: seq<Entry<T>>) {
    forall i, j | 0 <= i < j < |es| :: Less(es[i].name, es[j].name)
  }

  function Insert<T>(e: Entry<T>, es: seq<Entry<T>>): seq<Entry<T>> {
    if es == [] || Less(e.name, es[0].name) then [e] + es else [es[0]] + Insert(e, es[1..])
  }

  function Sort<T>(es: seq<Entry<T>>): seq<Entry<T>> {
    if es == [] then [] else Insert(es[0], Sort(es[1..]))
  }

  lemma {:induction false} InsertPermutes<T>(e: Entry<T>, es: seq<Entry<T>>)
    ensures multiset(Insert(e, es)) == multiset{e} + multiset(es)
  {
    if es != [] {
      assert es == [es[0]] + es[1..];
      if !Less(e.name, es[0].name) { InsertPermutes(e, es[1..]); }
    }
  }

  lemma {:induction false} SortPermutes<T>(es: seq<Entry<T>>)
    ensures multiset(Sort(es)) == multiset(es)
  {
    if es != [] {
      SortPermutes(es[1..]);
      InsertPermutes(es[0], Sort(es[1..]));
      assert es == [es[0]] + es[1..];
    }
  }

  lemma NotLessTransitive(a: string, b: string, c: string)
    requires !Less(b, a) && !Less(c, b)
    ensures !Less(c, a)
  {
    LessTotal(a, b);
    LessTotal(b, c);
    if Less(c, a) {
      if a == b || b == c {
      } else {
        LessTransitive(a, b, c);
        LessAsymmetric(a, c);
      }
    }
  }

  lemma MemberOf<T>(a: seq<T>, b: seq<T>, i: nat) returns (j: nat)
    requires multiset(a) == multiset(b) && i < |a|
    ensures j < |b| && b[j] == a[i]
  {
    assert a[i] in multiset(b);
    j :| 0 <= j < |b| && b[j] == a[i];
  }

  lemma {:induction false} InsertSorts<T>(e: Entry<T>, es: seq<Entry<T>>)
    requires Sorted(es)
    ensures Sorted(Insert(e, es))
  {
    var r := Insert(e, es);
    if es != [] {
      if Less(e.name, es[0].name) {
        LessAsymmetric(e.name, es[0].name);
        forall j | 0 < j < |r|
          ensures !Less(r[j].name, e.name)
        {
          LessIrreflexive(es[0].name);
          NotLessTransitive(e.name, es[0].name, es[j - 1].name);
        }
      } else {
        InsertSorts(e, es[1..]);
        InsertPermutes(e, es[1..]);
        forall j | 0 < j < |r|
          ensures !Less(r[j].name, es[0].name)
        {
          assert r[j] == Insert(e, es[1..])[j - 1];
          assert r[j] in multiset(Insert(e, es[1..]));
          if r[j] != e { var k :| 0 <= k < |es[1..]| && es[1..][k] == r[j]; assert r[j] == es[k + 1]; }
        }
        assert r[1..] == Insert(e, es[1..]);
        SortedCons(r);
      }
    }
  }

  lemma SortedCons<T>(es: seq<Entry<T>>)
    requires es != [] && Sorted(es[1..])
    requires forall j | 0 < j < |es| :: !Less(es[j].name, es[0].name)
    ensures Sorted(es)
  {
    forall i, j | 0 <= i < j < |es|
      ensures !Less(es[j].name, es[i].name)
    {
      if i > 0 { assert es[i] == es[1..][i - 1] && es[j] == es[1..][j - 1]; }
    }
  }

  lemma {:induction false} SortSorts<T>(es: seq<Entry<T>>)
    ensures Sorted(Sort(es))
  {
    if es != [] {
      SortSorts(es[1..]);
      InsertSorts(es[0], Sort(es[1..]));
    }
  }

  /** Sorting has one outcome when no two names are equal. */
  lemma {:induction false} SortedIsUnique<T>(a: seq<Entry<T>>, b: seq<Entry<T>>)
    requires Ascending(a) && Sorted(b) && multiset(a) == multiset(b)
    ensures a == b
    decreases |a|
  {
    if a == [] {
      assert |multiset(b)| == 0;
    } else {
      assert |multiset(b)| == |a|;
      SameFirst(a, b);
      SameRest(a, b);
      SortedIsUnique(a[1..], b[1..]);
      assert a == [a[0]] + a[1..] && b == [b[0]] + b[1..];
    }
  }

  lemma SameFirst<T>(a: seq<Entry<T>>, b: seq<Entry<T>>)
    requires a != [] && b != [] && Ascending(a) && Sorted(b) && multiset(a) == multiset(b)
    ensures a[0] == b[0]
  {
    var i := MemberOf(a, b, 0);
    var j := MemberOf(b, a, 0);
    if i > 0 { assert !Less(b[i].name, b[0].name); }
    if j > 0 { assert Less(a[0].name, a[j].name); }
  }

  lemma SameRest<T>(a: seq<T>, b: seq<T>)
    requires a != [] && b != [] && a[0] == b[0] && multiset(a) == multiset(b)
    ensures multiset(a[1..]) == multiset(b[1..])
  {
    assert a == [a[0]] + a[1..] && b == [b[0]] + b[1..];
    assert multiset(a[1..]) == multiset(a) - multiset{a[0]};
    assert multiset(b[1..]) == multiset(b) - multiset{b[0]};
  }

  /** A listing comes in any order; sorting it restores the order of the names. */
  lemma SortRestores<T>(listing: seq<Entry<T>>, inOrder: seq<Entry<T>>)
    requires Ascending(inOrder) && multiset(listing) == multiset(inOrder)
    ensures Sort(listing) == inOrder
  {
    SortPermutes(listing);
    SortSorts(listing);
    SortedIsUnique(inOrder, Sort(listing));
  }
}
