/** From `Log` to the auditor: what the store accepted is what the shard files decode to. */
module Pipeline {
  import opened Bytes
  import opened Framing
  import opened ShardFormat
  import opened ShardPacking
  import opened ShardReader
  import opened ShardDir
  import opened ShardWriter
  import opened Wrappers
  import NS = NameSort
  import N = ShardName
  import O = StoreOwnership
  import S = StoreOrder
  import SB = StoreBuffer
  import SF = StoreFrames
  import SM = StoreMachine
  import D = StoreDiscipline
  import E = Retention
  import Store

  /** A frame as `Log` builds it, around a body that the auditor can open. */
  ghost predicate SinkFrame<K, R>(key: K, codec: Codec<K, R>, f: Frame) {
    |f| >= 4 && Readable(f[4..]) && f == Image(f[4..]) && codec.Open(key, f[4..]).Ok?
  }

  ghost predicate SinkFrames<K, R>(key: K, codec: Codec<K, R>, fs: seq<Frame>) {
    forall i | 0 <= i < |fs| :: SinkFrame(key, codec, fs[i])
  }

  ghost function Records<K, R>(key: K, codec: Codec<K, R>, fs: seq<Frame>): (rs: seq<R>)
    requires SinkFrames(key, codec, fs)
    ensures |rs| == |fs| && forall i | 0 <= i < |fs| :: rs[i] == codec.Open(key, fs[i][4..]).value
  {
    seq(|fs|, i requires 0 <= i < |fs| => codec.Open(key, fs[i][4..]).value)
  }

  function Bodies(fs: seq<Frame>): (bs: seq<seq<byte>>)
    requires forall i | 0 <= i < |fs| :: |fs[i]| >= 4
    ensures |bs| == |fs| && forall i | 0 <= i < |fs| :: bs[i] == fs[i][4..]
  {
    seq(|fs|, i requires 0 <= i < |fs| => fs[i][4..])
  }

  lemma FileOfFrames<K, R>(key: K, codec: Codec<K, R>, pub: seq<byte>, fs: seq<Frame>)
    requires SinkFrames(key, codec, fs) && |pub| == KEY_BYTES
    ensures Opens(key, codec, Bodies(fs), Records(key, codec, fs))
    ensures FileBytes(pub, fs) == ShardFile(pub, Bodies(fs))
  {
    var bs := Bodies(fs);
    assert AllStorable(bs);
    assert Frames(bs) == fs;
    JoinFrames(bs);
  }

  lemma SinkFramesSplit<K, R>(key: K, codec: Codec<K, R>, a: seq<Frame>, b: seq<Frame>)
    requires SinkFrames(key, codec, a + b)
    ensures SinkFrames(key, codec, a) && SinkFrames(key, codec, b)
    ensures Records(key, codec, a + b) == Records(key, codec, a) + Records(key, codec, b)
  {
    assert forall i | 0 <= i < |a| :: (a + b)[i] == a[i];
    assert forall i | 0 <= i < |b| :: (a + b)[|a| + i] == b[i];
  }

  lemma NoEmptySinkFrames<K, R>(key: K, codec: Codec<K, R>, fs: seq<Frame>)
    requires SinkFrames(key, codec, fs)
    ensures NonEmpty(fs) == fs
  {
    if fs != [] {
      SinkFramesSplit(key, codec, [fs[0]], fs[1..]) by { assert [fs[0]] + fs[1..] == fs; }
      NoEmptySinkFrames(key, codec, fs[1..]);
      assert SinkFrame(key, codec, fs[0]);
    }
  }

  // ------------------------------------------------------------- the directory

  /** The shards of a writer from number `lo` on, with what is inside. */
  ghost function Remaining<K, R>(b: Book, pub: seq<byte>, key: K, codec: Codec<K, R>, lo: nat): (ws: seq<Written<R>>)
    requires Numbered(b) && lo <= |b.shards| && (forall i | 0 <= i < |b.shards| :: SinkFrames(key, codec, b.shards[i]))
    ensures |ws| == |b.shards| - lo
    ensures forall i | 0 <= i < |ws| :: ws[i] == Shelf(b, pub, key, codec, lo + i)
  {
    seq(|b.shards| - lo, i requires 0 <= i < |b.shards| - lo => Shelf(b, pub, key, codec, lo + i))
  }

  ghost function Shelf<K, R>(b: Book, pub: seq<byte>, key: K, codec: Codec<K, R>, i: nat): Written<R>
    requires Numbered(b) && i < |b.shards| && SinkFrames(key, codec, b.shards[i])
  {
    Written(NameAt(b.stamps, b.slots[i]), pub, Bodies(b.shards[i]), Records(key, codec, b.shards[i]))
  }

  /** The files of the writer's shards from number `lo` on. */
  function Held(b: Book, pub: seq<byte>, lo: nat): (files: seq<File>)
    requires |b.slots| == |b.shards| && (forall i | 0 <= i < |b.slots| :: b.slots[i] < |b.stamps|)
    requires lo <= |b.shards| && |pub| == KEY_BYTES
    ensures |files| == |b.shards| - lo
    ensures forall i | 0 <= i < |files| :: files[i] == HeldFile(b, pub, lo + i)
  {
    seq(|b.shards| - lo, i requires 0 <= i < |b.shards| - lo => HeldFile(b, pub, lo + i))
  }

  function HeldFile(b: Book, pub: seq<byte>, i: nat): File
    requires i < |b.slots| == |b.shards| && b.slots[i] < |b.stamps| && |pub| == KEY_BYTES
  {
    NS.Entry(NameAt(b.stamps, b.slots[i]), Some(FileBytes(pub, b.shards[i])))
  }

  lemma {:induction false} ShardsOfSink<K, R>(key: K, codec: Codec<K, R>, shards: seq<Shard>, i: nat)
    requires SinkFrames(key, codec, Flatten(shards)) && i < |shards|
    ensures SinkFrames(key, codec, shards[i])
  {
    SinkFramesSplit(key, codec, shards[0], Flatten(shards[1..]));
    if i > 0 { ShardsOfSink(key, codec, shards[1..], i - 1); }
  }

  /** Each name sorts after the earlier ones. */
  ghost predicate Timely(stamps: seq<N.Stamp>) {
    Clocked(stamps) && |stamps| <= U32_LIMIT && forall i, j | 0 <= i < j < |stamps| :: Follows(stamps, i, j)
  }

  lemma ShelfIsGenuine<K, R>(b: Book, pub: seq<byte>, codec: Codec<K, R>, i: nat)
    requires Numbered(b) && i < |b.shards| && |pub| == KEY_BYTES && codec.derive(pub).Some?
    requires SinkFrames(codec.derive(pub).value, codec, b.shards[i])
    ensures var w := Shelf(b, pub, codec.derive(pub).value, codec, i);
      && Genuine(w, codec) && |w.pub| == KEY_BYTES && AllStorable(w.bodies)
      && FileOf(w) == HeldFile(b, pub, i)
  {
    FileOfFrames(codec.derive(pub).value, codec, pub, b.shards[i]);
    N.ShardsAreFound(b.stamps[b.slots[i]], b.slots[i] % U32_LIMIT);
  }

  /** The directory still holds the writer's shards from `lo` on, among other files and
      in any order: decoding it yields the records of exactly these shards, which are the
      newest of all that was written, in the order they were written. */
  lemma DirectoryDecodes<K, R>(b: Book, pub: seq<byte>, codec: Codec<K, R>, lo: nat, listing: seq<Listed>)
    requires Numbered(b) && Timely(b.stamps) && lo <= |b.shards| && |pub| == KEY_BYTES && codec.derive(pub).Some?
    requires SinkFrames(codec.derive(pub).value, codec, Flatten(b.shards))
    requires multiset(ShardsOf(listing)) == multiset(Held(b, pub, lo))
    ensures var all := Records(codec.derive(pub).value, codec, Flatten(b.shards));
      var gone := |Flatten(b.shards[..lo])|;
      gone <= |all| && DecodeFiles(NS.Sort(ShardsOf(listing)), codec) == Ok(all[gone..])
  {
    hide Timely, Numbered, SinkFrames, Records, FilesOf, Held, NS.Ascending, AllGenuine, Formed;
    var key := codec.derive(pub).value;
    forall i | 0 <= i < |b.shards|
      ensures SinkFrames(key, codec, b.shards[i])
    {
      ShardsOfSink(key, codec, b.shards, i);
    }
    var ws := Remaining(b, pub, key, codec, lo);
    RemainingGenuine(b, pub, codec, lo);
    DirRoundTrip(listing, ws, codec);
    assert b.shards == b.shards[..lo] + b.shards[lo..];
    FlattenAppend(b.shards[..lo], b.shards[lo..]);
    SinkFramesSplit(key, codec, Flatten(b.shards[..lo]), Flatten(b.shards[lo..]));
    RecordsOfRemaining(b, pub, key, codec, lo);
  }

  lemma RemainingGenuine<K, R>(b: Book, pub: seq<byte>, codec: Codec<K, R>, lo: nat)
    requires Numbered(b) && Timely(b.stamps) && lo <= |b.shards| && |pub| == KEY_BYTES && codec.derive(pub).Some?
    requires forall i | 0 <= i < |b.shards| :: SinkFrames(codec.derive(pub).value, codec, b.shards[i])
    ensures var ws := Remaining(b, pub, codec.derive(pub).value, codec, lo);
      && AllGenuine(ws, codec) && NS.Ascending(FilesOf(ws))
      && FilesOf(ws) == Held(b, pub, lo)
  {
    hide NameAt, FileBytes, SinkFrames, Genuine, N.Less, FilesOf, FileOf, Remaining, Shelf, Held, HeldFile;
    var key := codec.derive(pub).value;
    var ws := Remaining(b, pub, key, codec, lo);
    forall i | 0 <= i < |ws|
      ensures ws[i] == Shelf(b, pub, key, codec, lo + i) && Genuine(ws[i], codec)
      ensures |ws[i].pub| == KEY_BYTES && AllStorable(ws[i].bodies) && FileOf(ws[i]) == HeldFile(b, pub, lo + i)
    {
      ShelfIsGenuine(b, pub, codec, lo + i);
    }
    assert FilesOf(ws) == Held(b, pub, lo);
    HeldAscends(b, pub, lo);
  }

  lemma HeldAscends(b: Book, pub: seq<byte>, lo: nat)
    requires Numbered(b) && Timely(b.stamps) && lo <= |b.shards| && |pub| == KEY_BYTES
    ensures NS.Ascending(Held(b, pub, lo))
  {
    hide NameAt, FileBytes, N.Less, Follows;
    var files := Held(b, pub, lo);
    forall i, j | 0 <= i < j < |files|
      ensures N.Less(files[i].name, files[j].name)
    {
      assert files[i] == HeldFile(b, pub, lo + i) && files[j] == HeldFile(b, pub, lo + j);
      NamesInOrderIff(b.stamps, b.slots[lo + i], b.slots[lo + j]);
    }
  }

  lemma {:induction false} RecordsOfRemaining<K, R>(b: Book, pub: seq<byte>, key: K, codec: Codec<K, R>, lo: nat)
    requires Numbered(b) && lo <= |b.shards| && (forall i | 0 <= i < |b.shards| :: SinkFrames(key, codec, b.shards[i]))
    requires SinkFrames(key, codec, Flatten(b.shards[lo..]))
    ensures RecordsOf(Remaining(b, pub, key, codec, lo)) == Records(key, codec, Flatten(b.shards[lo..]))
    decreases |b.shards| - lo
  {
    if lo < |b.shards| {
      var rest := b.shards[lo + 1..];
      assert b.shards[lo..][1..] == rest;
      SinkFramesSplit(key, codec, b.shards[lo], Flatten(rest));
      RecordsOfRemaining(b, pub, key, codec, lo + 1);
      assert Remaining(b, pub, key, codec, lo)[1..] == Remaining(b, pub, key, codec, lo + 1);
    }
  }

  /** The files of those of the first `n` shards that are still on disk. */
  function FilesOn(b: Book, pub: seq<byte>, disk: set<nat>, n: nat): seq<File>
    requires |b.slots| == |b.shards| && (forall i | 0 <= i < |b.slots| :: b.slots[i] < |b.stamps|)
    requires n <= |b.shards| && |pub| == KEY_BYTES
  {
    if n == 0 then [] else FilesOn(b, pub, disk, n - 1) + if n - 1 in disk then [HeldFile(b, pub, n - 1)] else []
  }

  lemma {:induction false} FilesOnSuffix(b: Book, pub: seq<byte>, disk: set<nat>, n: nat, lo: nat)
    requires |b.slots| == |b.shards| && (forall i | 0 <= i < |b.slots| :: b.slots[i] < |b.stamps|)
    requires n <= |b.shards| && lo <= |b.shards| && |pub| == KEY_BYTES
    requires forall i | 0 <= i < |b.shards| :: i in disk <==> lo <= i
    ensures FilesOn(b, pub, disk, n) == Held(b, pub, lo)[..if n < lo then 0 else n - lo]
  {
    hide HeldFile;
    if n > 0 {
      FilesOnSuffix(b, pub, disk, n - 1, lo);
    }
  }

  /** Contiguous retention: through any interleaving of writes, rotations and clean sweeps,
      the shards that survive decode to a suffix of all records written, in order. */
  lemma SurvivorsDecode<K, R>(cap: nat, run: seq<E.Label>, b: Book, pub: seq<byte>, codec: Codec<K, R>, listing: seq<Listed>)
    returns (gone: nat)
    requires E.Valid(E.Init(cap), run) && E.CleanRun(E.Init(cap), run)
    requires Numbered(b) && Timely(b.stamps) && |pub| == KEY_BYTES && codec.derive(pub).Some?
    requires SinkFrames(codec.derive(pub).value, codec, Flatten(b.shards))
    requires |b.shards| == |E.Run(E.Init(cap), run).sizes|
    requires multiset(ShardsOf(listing)) == multiset(FilesOn(b, pub, E.Run(E.Init(cap), run).disk, |b.shards|))
    ensures var all := Records(codec.derive(pub).value, codec, Flatten(b.shards));
      gone <= |all| && DecodeFiles(NS.Sort(ShardsOf(listing)), codec) == Ok(all[gone..])
  {
    hide Numbered, Timely, SinkFrames, E.Init, E.Run, E.Valid, E.CleanRun, Records, FilesOn;
    BookSlots(b);
    var lo := E.SurvivorsStart(cap, run);
    gone := SuffixDecodes(b, pub, codec, E.Run(E.Init(cap), run).disk, lo, listing);
  }

  lemma SuffixDecodes<K, R>(b: Book, pub: seq<byte>, codec: Codec<K, R>, disk: set<nat>, lo: nat, listing: seq<Listed>)
    returns (gone: nat)
    requires Numbered(b) && Timely(b.stamps) && |pub| == KEY_BYTES && codec.derive(pub).Some?
    requires SinkFrames(codec.derive(pub).value, codec, Flatten(b.shards))
    requires lo <= |b.shards| && forall i | 0 <= i < |b.shards| :: i in disk <==> lo <= i
    requires multiset(ShardsOf(listing)) == multiset(FilesOn(b, pub, disk, |b.shards|))
    ensures var all := Records(codec.derive(pub).value, codec, Flatten(b.shards));
      gone <= |all| && DecodeFiles(NS.Sort(ShardsOf(listing)), codec) == Ok(all[gone..])
  {
    hide Numbered, Timely, SinkFrames, Records, FilesOn, Held, NS.Sort, DecodeFiles, ShardsOf, Flatten;
    BookSlots(b);
    FilesOnSuffix(b, pub, disk, |b.shards|, lo);
    HeldWhole(b, pub, lo);
    DirectoryDecodes(b, pub, codec, lo, listing);
    gone := |Flatten(b.shards[..lo])|;
  }

  lemma HeldWhole(b: Book, pub: seq<byte>, lo: nat)
    requires Numbered(b) && lo <= |b.shards| && |pub| == KEY_BYTES
    ensures Held(b, pub, lo)[..|b.shards| - lo] == Held(b, pub, lo)
  {}

  lemma BookSlots(b: Book)
    requires Numbered(b)
    ensures |b.slots| == |b.shards| && forall i | 0 <= i < |b.slots| :: b.slots[i] < |b.stamps|
  {}

  // ----------------------------------------------------------------- the store

  lemma {:induction false} AcceptedGrows(s: SM.State, run: seq<SM.Label>)
    requires SM.Valid(s, run)
    ensures s.accepted <= SM.Run(s, run).accepted && s.stray <= SM.Run(s, run).stray
    decreases |run|
  {
    if run != [] {
      S.PersistedOrAccepted(s, run[0]);
      S.StrayGrows(s, run[0]);
      AcceptedGrows(SM.Do(s, run[0]), run[1..]);
    }
  }

  lemma NoneMissed(s: SM.State, f: SM.Frame)
    requires S.OffClean(s) && s.stray == {}
    ensures forall b | 0 <= b < |s.bufs| && (b in s.free || s.drain == SM.Returning(b)) :: f !in s.bufs[b].frames
  {
    forall b | 0 <= b < |s.bufs| && SM.Parked(s, b)
      ensures f !in s.bufs[b].frames
    {
      assert S.Clean(s.bufs[b], s.stray);
      S.CleanIsEmpty(s.bufs[b]);
    }
  }

  /** Of two prefixes of a sequence without repetitions, the one whose elements are all in
      the other is the shorter. */
  lemma PrefixWithin(a: seq<SM.Frame>, p: seq<SM.Frame>, whole: seq<SM.Frame>)
    requires a <= whole && p <= whole && forall f | f in a :: f in p
    requires forall i, j | 0 <= i < j < |whole| :: whole[i].call < whole[j].call
    ensures a <= p
  {
    if a != [] {
      var k := |a| - 1;
      assert a[k] in p;
      var j :| 0 <= j < |p| && p[j] == a[k];
      OnePlace(whole, j, k);
    }
  }

  lemma OnePlace(whole: seq<SM.Frame>, i: nat, j: nat)
    requires i < |whole| && j < |whole| && whole[i] == whole[j]
    requires forall m, n | 0 <= m < n < |whole| :: whole[m].call < whole[n].call
    ensures i == j
  {}

  ghost predicate Polite(c: SM.Config, before: seq<SM.Label>, during: seq<SM.Label>) {
    && SM.Valid(SM.Init(c), before) && Store.PoliteRun(SM.Init(c), before)
    && var s := SM.Do(SM.Run(SM.Init(c), before), SM.BeginFlush);
       SM.Valid(s, during) && Store.PoliteRun(s, during) && SM.Run(s, during).stray == {}
  }

  /** Appends are serialised, and either flushes keep off them or no write goes astray. */
  ghost predicate Serial(c: SM.Config, before: seq<SM.Label>, during: seq<SM.Label>) {
    && SM.Valid(SM.Init(c), before)
    && var s, s1 := SM.Run(SM.Init(c), before), SM.Do(SM.Run(SM.Init(c), before), SM.BeginFlush);
       && SM.Valid(s1, during)
       && (|| (D.ExclusiveRun(SM.Init(c), before) && D.Exclusive(s, SM.BeginFlush) && D.ExclusiveRun(s1, during))
           || (&& Store.PoliteRun(SM.Init(c), before) && D.OnCourse(SM.Init(c), before)
               && Store.PoliteRun(s1, during) && D.OnCourse(s1, during)))
  }

  lemma SerialIsPolite(c: SM.Config, before: seq<SM.Label>, during: seq<SM.Label>)
    requires Serial(c, before, during)
    ensures Polite(c, before, during)
  {
    hide Store.Inv, D.Alone, D.Exclusive, SM.Do;
    var s, s1 := SM.Run(SM.Init(c), before), SM.Do(SM.Run(SM.Init(c), before), SM.BeginFlush);
    Store.InitInv(c);
    Store.RunInv(SM.Init(c), before);
    Store.StepInv(s, SM.BeginFlush);
    if D.ExclusiveRun(SM.Init(c), before) && D.Exclusive(s, SM.BeginFlush) && D.ExclusiveRun(s1, during) {
      NobodyYet(c);
      D.RunDisciplined(SM.Init(c), before);
      CallsAreKnown(s);
      D.StepAlone(s, SM.BeginFlush);
      D.RunDisciplined(s1, during);
    }
    D.NoStrays(SM.Init(c), before);
    D.NoStrays(s1, during);
    FlushStarts(s);
  }

  lemma NobodyYet(c: SM.Config)
    ensures D.Alone(SM.Init(c)) && SM.Init(c).stray == {}
  {}

  lemma FlushStarts(s: SM.State)
    ensures SM.Do(s, SM.BeginFlush).stray == s.stray
  {}

  /** With appends serialised and no stray write: when a flush returns, what was accepted
      before it began is delivered, first and in call order, before all later frames. */
  lemma FlushDelivers(c: SM.Config, before: seq<SM.Label>, during: seq<SM.Label>)
    requires Serial(c, before, during)
    requires var s := SM.Run(SM.Init(c), before);
      Store.Returns(SM.Run(SM.Do(s, SM.BeginFlush), during), s.nextCall)
    ensures var s := SM.Run(SM.Init(c), before);
      var e := SM.Run(SM.Do(s, SM.BeginFlush), during);
      && s.accepted <= e.persisted <= e.accepted
      && forall i, j | 0 <= i < j < |e.accepted| :: e.accepted[i].call < e.accepted[j].call
  {
    hide Store.Inv, Store.OrderInv, S.Solo, S.CallOrder, SM.Do, Store.Returns, S.Polite, Serial;
    SerialIsPolite(c, before, during);
    var s := SM.Run(SM.Init(c), before);
    var s1 := SM.Do(s, SM.BeginFlush);
    var e := SM.Run(s1, during);
    Started(c, before);
    AcceptedGrows(s1, during);
    BeginFlushKeeps(s);
    Store.StepInv(s, SM.BeginFlush);
    Store.RunInv(s1, during);
    Store.RunOrder(s1, during);
    Ordered(e);
    Ordered(s);
    forall f | f in s.accepted
      ensures f in e.persisted
    {
      NoneMissed(s, f);
      Store.FlushComplete(s, during, f);
    }
    PrefixWithin(s.accepted, e.persisted, e.accepted);
  }

  lemma Started(c: SM.Config, run: seq<SM.Label>)
    requires SM.Valid(SM.Init(c), run) && Store.PoliteRun(SM.Init(c), run)
    ensures var s := SM.Run(SM.Init(c), run);
      Store.Reachable(s) && Store.Inv(s) && S.Solo(s) && S.CallOrder(s) && Store.OrderInv(s)
  {
    hide Store.Inv, Store.OrderInv, S.CallOrder, S.Solo, SM.Init, S.Polite;
    Store.InitInv(c);
    Store.RunInv(SM.Init(c), run);
    Store.RunOrder(SM.Init(c), run);
    StaysSolo(SM.Init(c), run);
    assert Store.ReachedBy(SM.Run(SM.Init(c), run), c, run);
  }

  lemma {:induction false} StaysSolo(s: SM.State, run: seq<SM.Label>)
    requires Store.Inv(s) && S.Solo(s) && SM.Valid(s, run) && Store.PoliteRun(s, run)
    ensures S.Solo(SM.Run(s, run))
    decreases |run|
  {
    hide S.Solo, S.Polite;
    if run != [] {
      Store.StepInv(s, run[0]);
      CallsAreKnown(s);
      S.StepSolo(s, run[0]);
      StaysSolo(SM.Do(s, run[0]), run[1..]);
    }
  }

  lemma CallsAreKnown(s: SM.State)
    requires Store.Inv(s)
    ensures O.CallsKnown(s) && O.Inv(s) && SF.Identified(s)
  {}

  lemma BeginFlushKeeps(s: SM.State)
    requires Store.Inv(s) && S.Solo(s) && S.CallOrder(s) && Store.OrderInv(s)
    ensures SM.Enabled(s, SM.BeginFlush)
    ensures var s1 := SM.Do(s, SM.BeginFlush);
      s1.accepted == s.accepted && s1.stray == s.stray && S.Solo(s1) && S.CallOrder(s1) && Store.OrderInv(s1)
  {
    hide Store.Inv, Store.OrderInv, S.CallOrder, S.Solo;
    CallsAreKnown(s);
    S.StepSolo(s, SM.BeginFlush);
    S.StepCallOrder(s, SM.BeginFlush);
    Store.StepOrder(s, SM.BeginFlush);
  }

  lemma Ordered(s: SM.State)
    requires Store.OrderInv(s) && S.CallOrder(s)
    ensures S.OffClean(s)
    ensures s.stray == {} ==> s.persisted <= s.accepted
    ensures forall i, j | 0 <= i < j < |s.accepted| :: s.accepted[i].call < s.accepted[j].call
  {}

  /** The whole way: every record accepted before a flush began is found by the auditor
      once that flush has returned and the writer has written what it was handed, as the
      first of the decoded records and in the order of the `Log` calls. */
  lemma FlushedRecordsDecode<K, R>(c: SM.Config, before: seq<SM.Label>, during: seq<SM.Label>, s: SM.State, e: SM.State,
                                   b: Book, pub: seq<byte>, codec: Codec<K, R>, listing: seq<Listed>)
    requires Serial(c, before, during) && s == SM.Run(SM.Init(c), before)
    requires e == SM.Run(SM.Do(s, SM.BeginFlush), during) && Store.Returns(e, s.nextCall)
    requires Numbered(b) && Timely(b.stamps) && |pub| == KEY_BYTES && codec.derive(pub).Some?
    requires Flatten(b.shards) == SB.Payloads(e.persisted)
    requires SinkFrames(codec.derive(pub).value, codec, Flatten(b.shards))
    requires multiset(ShardsOf(listing)) == multiset(Held(b, pub, 0))
    ensures var key, mine := codec.derive(pub).value, SB.Payloads(s.accepted);
      && SinkFrames(key, codec, mine)
      && var decoded := DecodeFiles(NS.Sort(ShardsOf(listing)), codec);
         decoded.Ok? && Records(key, codec, mine) <= decoded.value
  {
    hide Store.Returns, SM.Run, SM.Valid, SM.Do, Store.PoliteRun, D.ExclusiveRun, D.OnCourse, D.Exclusive, Numbered, Timely, SinkFrames, Records, Held;
    FlushDelivers(c, before, during);
    PrefixRecords(s.accepted, e.persisted, codec.derive(pub).value, codec);
    DirectoryDecodes(b, pub, codec, 0, listing);
    assert b.shards[..0] == [] && Flatten(b.shards[..0]) == [];
    var all := Records(codec.derive(pub).value, codec, Flatten(b.shards));
    assert all[0..] == all;
  }

  lemma PrefixRecords<K, R>(accepted: seq<SM.Frame>, persisted: seq<SM.Frame>, key: K, codec: Codec<K, R>)
    requires accepted <= persisted && SinkFrames(key, codec, SB.Payloads(persisted))
    ensures SinkFrames(key, codec, SB.Payloads(accepted))
    ensures Records(key, codec, SB.Payloads(accepted)) <= Records(key, codec, SB.Payloads(persisted))
  {
    var mine, all := SB.Payloads(accepted), SB.Payloads(persisted);
    assert all == mine + all[|mine|..];
    SinkFramesSplit(key, codec, mine, all[|mine|..]);
  }
}
