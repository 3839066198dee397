/** The directory a writer leaves behind, and what a listing of it shows. */
module Archive {
  import opened Bytes
  import opened ShardFormat
  import opened ShardPacking
  import opened ShardDir
  import opened ShardWriter
  import opened Wrappers
  import N = ShardName
  import NS = NameSort
  import P = Pipeline

  type Files = map<string, seq<byte>>

  predicate Named(stamps: seq<N.Stamp>, n: string) {
    exists i :: 0 <= i < |stamps| && NameAt(stamps, i) == n
  }

  /** Every name issued was opened, and `files` holds these names besides what was there
      in `base`. */
  ghost predicate Complete(b: Book, files: Files, base: Files) {
    && Numbered(b) && |b.slots| == |b.stamps|
    && (forall n :: n in files <==> n in base || Named(b.stamps, n))
    && (forall n | n in base && !Named(b.stamps, n) :: n in files && files[n] == base[n])
  }

  lemma SlotsAreNumbers(b: Book, i: nat)
    requires Numbered(b) && |b.slots| == |b.stamps| && i < |b.slots|
    ensures b.slots[i] == i
  {
    SlotsGrow(b.slots, i);
    SlotsLeave(b.slots, |b.stamps|, i);
  }

  lemma {:induction false} SlotsLeave(slots: seq<nat>, n: nat, i: nat)
    requires i < |slots| && (forall j | 0 <= j < |slots| :: slots[j] < n)
    requires forall j, k | 0 <= j < k < |slots| :: slots[j] < slots[k]
    ensures slots[i] <= n - (|slots| - i)
    decreases |slots| - i
  {
    if i + 1 < |slots| { SlotsLeave(slots, n, i + 1); }
  }

  lemma NamesGrow(b: Book, now: N.Stamp, n: string)
    ensures Named(Opened(b, now).stamps, n) <==> Named(b.stamps, n) || n == LastName(Opened(b, now))
  {
    hide N.Name;
    var stamps := Opened(b, now).stamps;
    if Named(b.stamps, n) {
      var i :| 0 <= i < |b.stamps| && NameAt(b.stamps, i) == n;
      assert NameAt(stamps, i) == n;
    }
    if Named(stamps, n) {
      var i :| 0 <= i < |stamps| && NameAt(stamps, i) == n;
      if i < |b.stamps| { assert NameAt(b.stamps, i) == n; }
    }
    assert NameAt(stamps, |b.stamps|) == LastName(Opened(b, now));
  }

  /** A frame written leaves the directory complete. */
  lemma WriteComplete(b: Book, now: N.Stamp, rotates: bool, f: Frame, files: Files, files': Files, base: Files)
    requires Complete(b, files, base) && N.InRange(now)
    requires var b' := Appended(if rotates then Opened(b, now) else b, f);
      && files'.Keys == files.Keys + {LastName(b')}
      && forall n | n in files && n != LastName(b') :: files'[n] == files[n]
    ensures Complete(Appended(if rotates then Opened(b, now) else b, f), files', base)
  {
    hide N.Name, NameAt, N.InRange;
    var o := if rotates then Opened(b, now) else b;
    var b' := Appended(o, f);
    KeepsNumbered(b, now, rotates, f);
    SameName(o, f);
    assert NameAt(b'.stamps, |b'.stamps| - 1) == LastName(b');
    forall n: string
      ensures Named(b'.stamps, n) <==> Named(b.stamps, n) || (rotates && n == LastName(b'))
    {
      NamesGrow(b, now, n);
    }
    assert Named(b'.stamps, LastName(b'));
    forall n: string
      ensures n in files' <==> n in files || n == LastName(b')
    {
      assert n in files'.Keys <==> n in files.Keys || n == LastName(b');
    }
  }

  lemma KeepsNumbered(b: Book, now: N.Stamp, rotates: bool, f: Frame)
    requires Numbered(b) && N.InRange(now)
    ensures Numbered(Appended(if rotates then Opened(b, now) else b, f))
  {
    hide N.InRange;
    assert Clocked(b.stamps + [now]) by { forall i | 0 <= i <= |b.stamps| ensures N.InRange((b.stamps + [now])[i]) {} }
  }

  /** A writer's first name: the directory is complete. */
  lemma FreshComplete(now: N.Stamp, pub: seq<byte>, base: Files)
    requires N.InRange(now) && |pub| == KEY_BYTES
    ensures Complete(Book([now], [0], [[]], []), base[N.Name(now, 0) := Header(pub)], base)
  {
    hide N.Name, N.InRange, Header;
    assert NameAt([now], 0) == N.Name(now, 0);
    assert Named([now], N.Name(now, 0));
    forall n: string
      ensures Named([now], n) <==> n == N.Name(now, 0)
    {}
  }

  // --------------------------------------------------------------- the clock

  /** The stamps are readings of the clock, in its order. */
  ghost predicate Drawn(stamps: seq<N.Stamp>, clock: seq<N.Stamp>) {
    exists picks: seq<nat> :: DrawnBy(stamps, clock, picks)
  }

  ghost predicate DrawnBy(stamps: seq<N.Stamp>, clock: seq<N.Stamp>, picks: seq<nat>) {
    && |picks| == |stamps|
    && (forall i | 0 <= i < |picks| :: picks[i] < |clock| && clock[picks[i]] == stamps[i])
    && (forall i, j | 0 <= i < j < |picks| :: picks[i] < picks[j])
  }

  lemma DrawOne(stamps: seq<N.Stamp>, clock: seq<N.Stamp>, now: N.Stamp)
    requires Drawn(stamps, clock)
    ensures Drawn(stamps, clock + [now]) && Drawn(stamps + [now], clock + [now])
  {
    var picks: seq<nat> :| DrawnBy(stamps, clock, picks);
    assert DrawnBy(stamps, clock + [now], picks);
    assert DrawnBy(stamps + [now], clock + [now], picks + [|clock|]);
  }

  /** The clock does not go back, and from its reading number 10000 on it moves. */
  ghost predicate Steady(clock: seq<N.Stamp>) {
    && (forall i | 0 <= i < |clock| :: N.InRange(clock[i]))
    && forall i, j | 0 <= i < j < |clock| :: N.Earlier(clock[i], clock[j]) || (clock[i] == clock[j] && j < 10000)
  }

  lemma SteadyIsTimely(stamps: seq<N.Stamp>, clock: seq<N.Stamp>)
    requires Drawn(stamps, clock) && Steady(clock) && |stamps| <= U32_LIMIT
    ensures P.Timely(stamps)
  {
    hide N.InRange, N.Earlier, Follows;
    var picks: seq<nat> :| DrawnBy(stamps, clock, picks);
    forall i, j | 0 <= i < j < |stamps|
      ensures Follows(stamps, i, j)
    {
      SlotsGrow(picks, j);
      assert N.Earlier(clock[picks[i]], clock[picks[j]]) || (clock[picks[i]] == clock[picks[j]] && picks[j] < 10000);
      if N.Earlier(stamps[i], stamps[j]) { EarlierFollows(stamps, i, j); } else { EnoughToFollow(stamps, i, j); }
    }
  }

  lemma EarlierFollows(stamps: seq<N.Stamp>, i: nat, j: nat)
    requires i < j < |stamps| && N.Earlier(stamps[i], stamps[j])
    ensures Follows(stamps, i, j)
  {}

  // --------------------------------------------------------------- a listing

  /** Each entry of the listing has its own name; its regular files are `files`, and can
      be opened. */
  ghost predicate Lists(listing: seq<Listed>, files: Files) {
    && (forall i, j | 0 <= i < j < |listing| :: listing[i].name != listing[j].name)
    && (forall i | 0 <= i < |listing| && listing[i].content.Regular? ::
          listing[i].name in files && listing[i].content.content == Some(files[listing[i].name]))
    && (forall n | n in files :: NS.Entry(n, Regular(Some(files[n]))) in listing)
  }

  lemma {:induction false} ShardIff(listing: seq<Listed>, f: File)
    ensures f in ShardsOf(listing) <==> NS.Entry(f.name, Regular(f.content)) in listing && N.LooksLikeShard(f.name)
  {
    hide N.LooksLikeShard;
    if listing != [] {
      ShardIff(listing[1..], f);
      assert NS.Entry(f.name, Regular(f.content)) in listing
        <==> listing[0] == NS.Entry(f.name, Regular(f.content)) || NS.Entry(f.name, Regular(f.content)) in listing[1..];
    }
  }

  /** No element comes twice. */
  ghost predicate Single<T(!new)>(s: seq<T>) {
    forall x: T :: multiset(s)[x] <= 1
  }

  lemma {:induction false} ShardsSingle(listing: seq<Listed>)
    requires forall i, j | 0 <= i < j < |listing| :: listing[i].name != listing[j].name
    ensures Single(ShardsOf(listing))
  {
    hide N.LooksLikeShard;
    if listing != [] {
      var e, rest := listing[0], ShardsOf(listing[1..]);
      ShardsSingle(listing[1..]);
      if e.content.Regular? {
        var f := NS.Entry(e.name, e.content.content);
        ShardIff(listing[1..], f);
        ConsSingle(f, rest, f !in rest);
      }
      assert [] + rest == rest;
    }
  }

  lemma ConsSingle<T(!new)>(x: T, s: seq<T>, apart: bool)
    requires Single(s) && apart == (x !in s)
    ensures apart ==> Single([x] + s)
  {}

  lemma {:induction false} DistinctSingle(files: seq<File>)
    requires forall i, j | 0 <= i < j < |files| :: files[i].name != files[j].name
    ensures Single(files)
  {
    if files != [] {
      DistinctSingle(files[1..]);
      ConsSingle(files[0], files[1..], files[0] !in files[1..]);
      assert [files[0]] + files[1..] == files;
    }
  }

  lemma SameMembers<T(!new)>(a: seq<T>, b: seq<T>)
    requires Single(a) && Single(b) && forall x :: x in a <==> x in b
    ensures multiset(a) == multiset(b)
  {
    forall x: T
      ensures multiset(a)[x] == multiset(b)[x]
    {
      assert x in a <==> x in multiset(a);
      assert x in b <==> x in multiset(b);
    }
  }

  /** However it is listed, the shard files of a complete directory are the writer's. */
  lemma ListingHolds(b: Book, pub: seq<byte>, files: Files, base: Files, listing: seq<Listed>)
    requires Complete(b, files, base) && |pub| == KEY_BYTES && Intact(files, pub, b) && |b.stamps| <= U32_LIMIT
    requires Lists(listing, files) && forall n | n in base :: !N.LooksLikeShard(n)
    ensures multiset(ShardsOf(listing)) == multiset(P.Held(b, pub, 0))
  {
    hide N.LooksLikeShard, NameAt, FileBytes;
    var held := P.Held(b, pub, 0);
    forall f: File
      ensures f in ShardsOf(listing) <==> f in held
    {
      ShardIff(listing, f);
      if f in held { HeldIsListed(b, pub, files, base, listing, f); }
      if NS.Entry(f.name, Regular(f.content)) in listing && N.LooksLikeShard(f.name) {
        ListedIsHeld(b, pub, files, base, f);
      }
    }
    forall i, j | 0 <= i < j < |held|
      ensures held[i].name != held[j].name
    {
      SlotsAreNumbers(b, i);
      SlotsAreNumbers(b, j);
      NamesUnique(b.stamps, i, j);
    }
    DistinctSingle(held);
    ShardsSingle(listing);
    SameMembers(ShardsOf(listing), held);
  }

  lemma HeldIsListed(b: Book, pub: seq<byte>, files: Files, base: Files, listing: seq<Listed>, f: File)
    requires Complete(b, files, base) && |pub| == KEY_BYTES && Intact(files, pub, b)
    requires Lists(listing, files) && f in P.Held(b, pub, 0)
    ensures NS.Entry(f.name, Regular(f.content)) in listing && N.LooksLikeShard(f.name)
  {
    hide N.LooksLikeShard, FileBytes;
    var i :| 0 <= i < |b.shards| && P.Held(b, pub, 0)[i] == f;
    SlotsAreNumbers(b, i);
    assert f == P.HeldFile(b, pub, i);
    assert Named(b.stamps, f.name);
    assert Some(files[f.name]) == f.content;
    N.ShardsAreFound(b.stamps[i], i % U32_LIMIT);
  }

  lemma ListedIsHeld(b: Book, pub: seq<byte>, files: Files, base: Files, f: File)
    requires Complete(b, files, base) && |pub| == KEY_BYTES && Intact(files, pub, b)
    requires f.name in files && Some(files[f.name]) == f.content && f.name !in base
    ensures f in P.Held(b, pub, 0)
  {
    hide FileBytes, NameAt;
    var i :| 0 <= i < |b.stamps| && NameAt(b.stamps, i) == f.name;
    SlotsAreNumbers(b, i);
    assert P.Held(b, pub, 0)[i] == P.HeldFile(b, pub, i) == f;
  }

  /** Iterating over the directory, in whatever order it comes. */
  method ListDirectory(dir: Directory) returns (listing: seq<Listed>)
    ensures Lists(listing, dir.files)
  {
    listing := [];
    var left := dir.files.Keys;
    while left != {}
      invariant left <= dir.files.Keys
      invariant forall i | 0 <= i < |listing| :: listing[i].name in dir.files && listing[i].name !in left
      invariant forall i | 0 <= i < |listing| :: listing[i].content == Regular(Some(dir.files[listing[i].name]))
      invariant forall i, j | 0 <= i < j < |listing| :: listing[i].name != listing[j].name
      invariant forall n | n in dir.files && n !in left :: NS.Entry(n, Regular(Some(dir.files[n]))) in listing
      decreases left
    {
      var n :| n in left;
      left := left - {n};
      listing := listing + [NS.Entry(n, Regular(Some(dir.files[n])))];
    }
  }
}
