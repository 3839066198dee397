/** One sweep of the eviction runner over a directory that nobody else changes. */
module Eviction {
  import opened NameSort
  import opened Wrappers
  import N = ShardName
  import W = ShardWriter

  /** What the file system says of a directory entry: an error, no regular file, or a
      regular file whose size may in turn be an error. */
  datatype Probe = Unknown | Irregular | Unsized | Sized(size: nat)

  type Listed = Entry<Probe>
  type File = Entry<nat>

  function Sum(es: seq<File>): nat {
    if es == [] then 0 else es[0].content + Sum(es[1..])
  }

  lemma {:induction false} SumAppend(a: seq<File>, b: seq<File>)
    ensures Sum(a + b) == Sum(a) + Sum(b)
    decreases |a|
  {
    if a == [] {
      assert a + b == b;
    } else {
      SumAppend(a[1..], b);
      assert (a + b)[1..] == a[1..] + b;
    }
  }

  lemma {:induction false} SumInsert(e: File, es: seq<File>)
    ensures Sum(Insert(e, es)) == e.content + Sum(es)
  {
    if es == [] || N.Less(e.name, es[0].name) {
      assert ([e] + es)[1..] == es;
    } else {
      SumInsert(e, es[1..]);
      assert ([es[0]] + Insert(e, es[1..]))[1..] == Insert(e, es[1..]);
    }
  }

  lemma {:induction false} SumSort(es: seq<File>)
    ensures Sum(Sort(es)) == Sum(es)
  {
    if es != [] {
      SumSort(es[1..]);
      SumInsert(es[0], Sort(es[1..]));
    }
  }

  /** The probe of this entry leaves the error code set. */
  predicate Faulty(e: Listed) {
    e.content.Unknown? || (e.content.Unsized? && N.LooksLikeShard(e.name))
  }

  /** The error code of one entry is looked at only when the next one comes up. */
  predicate GivesUp(listing: seq<Listed>) {
    exists i :: 0 <= i < |listing| - 1 && Faulty(listing[i])
  }

  /** The shards of a listing whose size is known, in the listing's order. */
  function Shards(listing: seq<Listed>): seq<File> {
    if listing == [] then []
    else
      (if listing[0].content.Sized? && N.LooksLikeShard(listing[0].name)
       then [Entry(listing[0].name, listing[0].content.size)] else [])
      + Shards(listing[1..])
  }

  lemma {:induction false} ShardsAppend(a: seq<Listed>, e: Listed)
    ensures Shards(a + [e]) == Shards(a) + Shards([e])
  {
    hide N.LooksLikeShard;
    if a == [] {
      assert a + [e] == [e];
    } else {
      ShardsAppend(a[1..], e);
      assert (a + [e])[1..] == a[1..] + [e];
    }
  }

  /** Why a file survives the loop although its turn came: it is the active shard and
      both paths canonicalise, or its removal fails. */
  datatype World = World(active: Option<string>, uncanonical: set<string>, unremovable: set<string>)

  predicate Active(w: World, name: string) {
    w.active == Some(name) && name !in w.uncanonical
  }

  predicate Removable(w: World, name: string) {
    !Active(w, name) && name !in w.unremovable
  }

  function Candidates(w: World, es: seq<File>): seq<File> {
    if es == [] then [] else (if Removable(w, es[0].name) then [es[0]] else []) + Candidates(w, es[1..])
  }

  /** The fewest files from the front that bring `total` to the cap, or all of them. */
  function Fewest(es: seq<File>, total: nat, cap: nat): (m: nat)
    requires Sum(es) <= total
    ensures m <= |es| && Sum(es[..m]) <= total
    ensures total - Sum(es[..m]) <= cap || m == |es|
    ensures forall k | 0 <= k < m :: total - Sum(es[..k]) > cap
  {
    if total <= cap || es == [] then 0
    else
      var m := Fewest(es[1..], total - es[0].content, cap);
      assert es[..m + 1][1..] == es[1..][..m];
      assert forall k | 0 < k <= m :: es[..k][1..] == es[1..][..k - 1];
      m + 1
  }

  function Names(es: seq<File>): set<string> {
    set e | e in es :: e.name
  }

  method Scan(listing: seq<Listed>) returns (gaveUp: bool, entries: seq<File>, total: nat)
    ensures gaveUp <==> GivesUp(listing)
    ensures gaveUp <==> exists i | 0 <= i < |listing| - 1 ::
      listing[i].content.Unknown? || (listing[i].content.Unsized? && N.ShardForm(listing[i].name))
    ensures !gaveUp ==> entries == Shards(listing) && total == Sum(entries)
  {
    hide N.LooksLikeShard, N.ShardForm;
    forall i | 0 <= i < |listing|
      ensures N.LooksLikeShard(listing[i].name) <==> N.ShardForm(listing[i].name)
    {
      N.LooksLikeIff(listing[i].name);
    }
    var ec := false;
    entries, total := [], 0;
    for i := 0 to |listing|
      invariant ec == (i > 0 && Faulty(listing[i - 1]))
      invariant forall j | 0 <= j < i - 1 :: !Faulty(listing[j])
      invariant entries == Shards(listing[..i]) && total == Sum(entries)
    {
      if ec {
        return true, entries, total;
      }
      var de := listing[i];
      assert listing[..i + 1] == listing[..i] + [de];
      ShardsAppend(listing[..i], de);
      ec := de.content.Unknown?;
      if ec || de.content.Irregular? {
        continue;
      }
      if !N.LooksLikeShard(de.name) {
        continue;
      }
      ec := de.content.Unsized?;
      if ec {
        continue;
      }
      SumAppend(entries, [Entry(de.name, de.content.size)]);
      entries := entries + [Entry(de.name, de.content.size)];
      total := total + de.content.size;
    }
    assert listing[..|listing|] == listing;
    return false, entries, total;
  }

  class EvictionRunner {
    const dir: W.Directory
    const cap: nat

    constructor (dir: W.Directory, cap: nat)
      ensures this.dir == dir && this.cap == cap
    {
      this.dir, this.cap := dir, cap;
    }

    /** The removed files are the oldest removable ones, as few as reach the cap; the
        total that the loop keeps is what the listed files that remain add up to. `None`
        when the directory does not exist or cannot be looked at. */
    method SweepOnce(found: Option<seq<Listed>>, w: World) returns (removed: seq<File>, total: nat)
      modifies dir
      ensures dir.files == old(dir.files) - Names(removed)
      ensures found.None? || GivesUp(found.value) ==> removed == []
      ensures found.Some? && !GivesUp(found.value) ==>
        && Removed(w, Sort(Shards(found.value)), removed, cap)
        && total == Sum(Shards(found.value)) - Sum(removed)
        && OldestGone(w, found.value, removed)
      ensures w.active.Some? && w.active.value !in w.uncanonical ==>
        && (forall f | f in removed :: f.name != w.active.value)
        && (w.active.value in old(dir.files) ==> w.active.value in dir.files)
      ensures forall f | f in removed :: N.ShardForm(f.name) && f.name !in w.unremovable
      ensures forall name | name in old(dir.files) && !N.ShardForm(name) :: name in dir.files
    {
      hide Active, Removable, Candidates, Shards, Sort, Sum, Fewest, N.LooksLikeShard, N.ShardForm, GivesUp, Removed, OldestGone;
      removed, total := [], 0;
      if found.None? {
        return;
      }
      var gaveUp, entries;
      gaveUp, entries, total := Scan(found.value);
      if gaveUp {
        return;
      }
      SumSort(entries);
      CandidatesSum(w, Sort(entries));
      if total <= cap {
        NothingDue(w, Sort(entries), total, cap);
        SweepIsFair(w, found.value, removed, cap);
        return;
      }
      removed, total := RemoveOldest(Sort(entries), total, w);
      SweepIsFair(w, found.value, removed, cap);
    }

    method RemoveOldest(sorted: seq<File>, sum: nat, w: World) returns (removed: seq<File>, total: nat)
      requires sum == Sum(sorted)
      modifies dir
      ensures dir.files == old(dir.files) - Names(removed)
      ensures Removed(w, sorted, removed, cap) && total == sum - Sum(removed)
      ensures exists k: nat :: k <= |sorted| && GoneUpTo(w, sorted, k, removed)
    {
      hide Fewest, Sum, Candidates;
      CandidatesSum(w, sorted);
      ghost var candidates := Candidates(w, sorted);
      removed, total := [], sum;
      NothingYet(candidates, sum, cap);
      var i := 0;
      while i < |sorted|
        invariant i <= |sorted|
        invariant total == sum - Sum(removed)
        invariant Due(removed, Candidates(w, sorted[i..]), total, candidates, sum, cap)
        invariant dir.files == old(dir.files) - Names(removed)
        invariant GoneUpTo(w, sorted, i, removed)
      {
        if total <= cap {
          NoneNeeded(Candidates(w, sorted[i..]), total, cap);
          return;
        }
        var e := sorted[i];
        CandidatesFrom(w, sorted, i);
        i := i + 1;
        assert sorted[..i] == sorted[..i - 1] + [e];
        if Active(w, e.name) {
          continue;
        }
        if e.name in w.unremovable {
          continue;
        }
        dir.files := dir.files - {e.name};
        OneMore(removed, e, Candidates(w, sorted[i..]), total, candidates, sum, cap);
        removed := removed + [e];
        total := total - e.content;
      }
      NothingLeft(w, sorted[i..], total, cap);
    }
  }

  /** The shortest run of the oldest removable files that reaches the cap. */
  ghost predicate Removed(w: World, sorted: seq<File>, removed: seq<File>, cap: nat) {
    var candidates := Candidates(w, sorted);
    Sum(candidates) <= Sum(sorted) && removed == candidates[..Fewest(candidates, Sum(sorted), cap)]
  }

  /** Gone are, of the first `k` files, all but the active one and those that cannot be
      removed. */
  ghost predicate GoneUpTo(w: World, sorted: seq<File>, k: nat, removed: seq<File>)
    requires k <= |sorted|
  {
    forall f: File :: f in removed <==>
      f in sorted[..k] && (w.active == Some(f.name) ==> f.name in w.uncanonical) && f.name !in w.unremovable
  }

  /** With `removed` gone, what is due of the `rest` completes what was due of them all. */
  ghost predicate Due(removed: seq<File>, rest: seq<File>, total: nat, all: seq<File>, sum: nat, cap: nat) {
    && Sum(rest) <= total && Sum(all) <= sum
    && removed + rest[..Fewest(rest, total, cap)] == all[..Fewest(all, sum, cap)]
  }

  lemma NothingYet(all: seq<File>, sum: nat, cap: nat)
    requires Sum(all) <= sum
    ensures Due([], all, sum, all, sum, cap) && Sum([]) == 0
  {}

  lemma NoneNeeded(rest: seq<File>, total: nat, cap: nat)
    requires Sum(rest) <= total <= cap
    ensures rest[..Fewest(rest, total, cap)] == []
  {}

  lemma NothingLeft(w: World, rest: seq<File>, total: nat, cap: nat)
    requires rest == []
    ensures Candidates(w, rest) == [] && Sum([]) <= total && Fewest([], total, cap) == 0
  {}

  lemma OneMore(removed: seq<File>, e: File, rest: seq<File>, total: nat, all: seq<File>, sum: nat, cap: nat)
    requires Due(removed, [e] + rest, total, all, sum, cap) && total > cap
    ensures e.content <= total && Due(removed + [e], rest, total - e.content, all, sum, cap)
    ensures Sum(removed + [e]) == Sum(removed) + e.content
  {
    var both := [e] + rest;
    assert both[1..] == rest;
    var m := Fewest(rest, total - e.content, cap);
    assert both[..m + 1] == [e] + rest[..m];
    assert removed + ([e] + rest[..m]) == removed + [e] + rest[..m];
    SumAppend(removed, [e]);
    assert Sum([e]) == e.content;
  }

  lemma CandidatesFrom(w: World, es: seq<File>, i: nat)
    requires i < |es|
    ensures Removable(w, es[i].name) ==> Candidates(w, es[i..]) == [es[i]] + Candidates(w, es[i + 1..])
    ensures !Removable(w, es[i].name) ==> Candidates(w, es[i..]) == Candidates(w, es[i + 1..])
  {
    assert es[i..][1..] == es[i + 1..] && es[i..][0] == es[i];
    var rest := Candidates(w, es[i + 1..]);
    assert [] + rest == rest;
  }

  lemma {:induction false} CandidatesSum(w: World, es: seq<File>)
    ensures Sum(Candidates(w, es)) <= Sum(es)
  {
    if es != [] {
      CandidatesSum(w, es[1..]);
      if Removable(w, es[0].name) {
        assert Candidates(w, es)[1..] == Candidates(w, es[1..]);
      } else {
        assert Candidates(w, es) == Candidates(w, es[1..]);
      }
    }
  }

  lemma NothingDue(w: World, sorted: seq<File>, total: nat, cap: nat)
    requires total == Sum(sorted) <= cap
    ensures Removed(w, sorted, [], cap) && Sum([]) == 0
  {
    CandidatesSum(w, sorted);
    NoneNeeded(Candidates(w, sorted), total, cap);
  }

  // -------------------------------------------------------------- optimality

  lemma {:induction false} CandidateIff(w: World, es: seq<File>, f: File)
    ensures f in Candidates(w, es) <==> f in es && Removable(w, f.name)
  {
    if es != [] {
      CandidateIff(w, es[1..], f);
      assert f in es <==> f == es[0] || f in es[1..];
    }
  }

  lemma {:induction false} CandidatesSorted(w: World, es: seq<File>)
    requires Sorted(es)
    ensures Sorted(Candidates(w, es))
  {
    if es != [] {
      CandidatesSorted(w, es[1..]);
      var rest := Candidates(w, es[1..]);
      if Removable(w, es[0].name) {
        var both := [es[0]] + rest;
        assert both[1..] == rest;
        forall j | 0 < j < |both|
          ensures !N.Less(both[j].name, both[0].name)
        {
          assert both[j] == rest[j - 1];
          CandidateIff(w, es[1..], rest[j - 1]);
          var k :| 0 <= k < |es[1..]| && es[1..][k] == rest[j - 1];
          assert es[k + 1] == both[j];
        }
        SortedCons(both);
      }
    }
  }

  lemma SortMember(es: seq<File>, f: File)
    ensures f in Sort(es) <==> f in es
  {
    SortPermutes(es);
    assert f in Sort(es) <==> f in multiset(Sort(es));
    assert f in es <==> f in multiset(es);
  }

  lemma RemovableIff(w: World, name: string)
    ensures Removable(w, name) <==> !(w.active == Some(name) && name !in w.uncanonical) && name !in w.unremovable
  {}

  /** Sweep optimality, also when some removals fail: never the active shard, nor one that
      cannot be removed; any other that is older than a removed one is removed too; the cap
      is reached unless all of them are gone; and one file fewer would not do. */
  lemma SweepOptimal(w: World, shards: seq<File>, removed: seq<File>, cap: nat)
    requires Removed(w, Sort(shards), removed, cap)
    ensures forall f | f in removed ::
      f in shards && (w.active == Some(f.name) ==> f.name in w.uncanonical) && f.name !in w.unremovable
    ensures forall f, r | f in shards && r in removed && N.Less(f.name, r.name)
              && (w.active == Some(f.name) ==> f.name in w.uncanonical) && f.name !in w.unremovable :: f in removed
    ensures Sum(removed) <= Sum(shards)
    ensures Sum(shards) - Sum(removed) <= cap
      || forall f | f in shards && (w.active == Some(f.name) ==> f.name in w.uncanonical) && f.name !in w.unremovable :: f in removed
    ensures removed != [] ==> Sum(shards) - Sum(removed[..|removed| - 1]) > cap
  {
    hide Active, Removable, Candidates, Sum, Sort;
    var sorted := Sort(shards);
    var cs := Candidates(w, sorted);
    var m := Fewest(cs, Sum(sorted), cap);
    SumSort(shards);
    SortSorts(shards);
    CandidatesSorted(w, sorted);
    forall f: File
      ensures f in cs <==> f in shards && (w.active == Some(f.name) ==> f.name in w.uncanonical) && f.name !in w.unremovable
    {
      CandidateIff(w, sorted, f);
      SortMember(shards, f);
      RemovableIff(w, f.name);
    }
    forall f | f in removed
      ensures f in cs
    {}
    forall f, r | f in cs && r in removed && N.Less(f.name, r.name)
      ensures f in removed
    {
      OlderComesFirst(cs, m, f, r);
    }
    if m == |cs| { assert cs[..m] == cs; }
    if m > 0 { assert removed[..|removed| - 1] == cs[..m - 1]; }
  }

  /** The shards of a listing: regular files with a size and a name of the form, each as
      often as it is listed. */
  lemma {:induction false} ShardsCount(listing: seq<Listed>, f: File)
    ensures multiset(Shards(listing))[f] ==
      if N.ShardForm(f.name) then multiset(listing)[Entry(f.name, Sized(f.content))] else 0
  {
    hide N.LooksLikeShard, N.ShardForm;
    N.LooksLikeIff(f.name);
    if listing != [] {
      ShardsCount(listing[1..], f);
      assert listing == [listing[0]] + listing[1..];
    }
  }

  lemma ShardsMember(listing: seq<Listed>, f: File)
    ensures f in Shards(listing) <==> N.ShardForm(f.name) && Entry(f.name, Sized(f.content)) in listing
  {
    hide N.ShardForm, Shards;
    ShardsCount(listing, f);
    assert f in Shards(listing) <==> multiset(Shards(listing))[f] > 0;
    assert Entry(f.name, Sized(f.content)) in listing <==> multiset(listing)[Entry(f.name, Sized(f.content))] > 0;
  }

  /** Of a listing, only shards go, and not the active one nor one that cannot be removed;
      and any other shard that is older than a removed one is removed too. */
  ghost predicate OldestGone(w: World, listing: seq<Listed>, removed: seq<File>) {
    && (forall f | f in removed ::
          && N.ShardForm(f.name) && Entry(f.name, Sized(f.content)) in listing
          && (w.active == Some(f.name) ==> f.name in w.uncanonical) && f.name !in w.unremovable)
    && (forall f: File, r | Entry(f.name, Sized(f.content)) in listing && r in removed && N.Less(f.name, r.name)
          && N.ShardForm(f.name) && (w.active == Some(f.name) ==> f.name in w.uncanonical) && f.name !in w.unremovable ::
          f in removed)
  }

  lemma SweepIsFair(w: World, listing: seq<Listed>, removed: seq<File>, cap: nat)
    requires Removed(w, Sort(Shards(listing)), removed, cap)
    ensures OldestGone(w, listing, removed)
    ensures forall f | f in removed ::
      N.ShardForm(f.name) && (w.active == Some(f.name) ==> f.name in w.uncanonical) && f.name !in w.unremovable
  {
    hide N.ShardForm, Shards, N.Less, Sort, Sum, Removed;
    SweepOptimal(w, Shards(listing), removed, cap);
    forall f: File
      ensures f in Shards(listing) <==> N.ShardForm(f.name) && Entry(f.name, Sized(f.content)) in listing
    {
      ShardsMember(listing, f);
    }
  }

  lemma SortedAt(es: seq<File>, i: nat, j: nat)
    requires Sorted(es) && i < |es| && j < |es|
    ensures i < j ==> !N.Less(es[j].name, es[i].name)
  {}

  lemma OlderComesFirst(cs: seq<File>, m: nat, f: File, r: File)
    requires Sorted(cs) && m <= |cs| && f in cs && r in cs[..m] && N.Less(f.name, r.name)
    ensures f in cs[..m]
  {
    var i :| 0 <= i < |cs| && cs[i] == f;
    var j :| 0 <= j < |cs[..m]| && cs[..m][j] == r;
    N.LessIrreflexive(f.name);
    SortedAt(cs, j, i);
    assert cs[..m][i] == f;
  }
}
