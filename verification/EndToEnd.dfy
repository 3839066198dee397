/** The whole way: messages logged and flushed are what the auditor reads. */
module EndToEnd {
  import opened Bytes
  import opened Framing
  import opened ShardFormat
  import opened ShardPacking
  import opened ShardReader
  import opened ShardDir
  import opened ShardWriter
  import opened Wrappers
  import A = Archive
  import Sink = EffectiveSink
  import St = MmapStore
  import N = ShardName
  import NS = NameSort
  import O = StoreOwnership
  import P = Pipeline
  import S = StoreOrder
  import SB = StoreBuffer
  import SF = StoreFrames
  import SM = StoreMachine
  import SP = StoreProgress
  import Store

  // ------------------------------------------------- only what was appended comes out

  /** Every append of the run offers a frame as `Log` builds it. */
  ghost predicate OffersSinkFrames<K, R>(key: K, codec: Codec<K, R>, run: seq<SM.Label>) {
    forall i | 0 <= i < |run| && run[i].BeginAppend? :: P.SinkFrame(key, codec, run[i].p)
  }

  ghost predicate CarriesSinkFrames<K, R>(key: K, codec: Codec<K, R>, s: SM.State) {
    && (forall c, f | SF.Carries(s, c, f) :: P.SinkFrame(key, codec, f.payload))
    && (forall i | 0 <= i < |s.accepted| :: P.SinkFrame(key, codec, s.accepted[i].payload))
  }

  lemma StepCarriesSink<K, R>(key: K, codec: Codec<K, R>, s: SM.State, l: SM.Label)
    requires O.CallsKnown(s) && CarriesSinkFrames(key, codec, s) && SM.Enabled(s, l)
    requires l.BeginAppend? ==> P.SinkFrame(key, codec, l.p)
    ensures CarriesSinkFrames(key, codec, SM.Do(s, l))
  {
    hide P.SinkFrame;
    var s' := SM.Do(s, l);
    forall c, f | SF.Carries(s', c, f)
      ensures P.SinkFrame(key, codec, f.payload)
    {
      SF.StepCarries(s, l, c, f);
    }
    S.PersistedOrAccepted(s, l);
    if s'.accepted != s.accepted { assert SF.Carries(s, l.c, s.calls[l.c].f); }
  }

  lemma {:induction false} RunCarriesSink<K, R>(key: K, codec: Codec<K, R>, s: SM.State, run: seq<SM.Label>)
    requires Store.Inv(s) && CarriesSinkFrames(key, codec, s) && SM.Valid(s, run) && OffersSinkFrames(key, codec, run)
    ensures CarriesSinkFrames(key, codec, SM.Run(s, run))
    decreases |run|
  {
    hide Store.Inv, CarriesSinkFrames, SM.Do, SM.Enabled, P.SinkFrame;
    if run != [] {
      P.CallsAreKnown(s);
      StepCarriesSink(key, codec, s, run[0]);
      Store.StepInv(s, run[0]);
      assert forall i | 0 <= i < |run[1..]| :: run[1..][i] == run[i + 1];
      RunCarriesSink(key, codec, SM.Do(s, run[0]), run[1..]);
    }
  }

  /** What is delivered was appended. */
  lemma DeliversSinkFrames<K, R>(key: K, codec: Codec<K, R>, c: SM.Config, run: seq<SM.Label>)
    requires SM.Valid(SM.Init(c), run) && OffersSinkFrames(key, codec, run)
    ensures P.SinkFrames(key, codec, SB.Payloads(SM.Run(SM.Init(c), run).persisted))
  {
    hide Store.Inv, P.SinkFrame, SM.Do, SM.Enabled;
    var s := SM.Run(SM.Init(c), run);
    Store.InitInv(c);
    NothingCarried(key, codec, c);
    RunCarriesSink(key, codec, SM.Init(c), run);
    assert Store.ReachedBy(s, c, run);
    forall i | 0 <= i < |s.persisted|
      ensures P.SinkFrame(key, codec, s.persisted[i].payload)
    {
      Store.NothingLostOrRepeated(s, s.persisted[i]);
    }
  }

  lemma NothingCarried<K, R>(key: K, codec: Codec<K, R>, c: SM.Config)
    ensures CarriesSinkFrames(key, codec, SM.Init(c))
  {}

  // ----------------------------------------------------------------- end to end

  /** Messages are appended in any interleaving with drains and, kept apart from them or
      without a stray write, flushes; a flush returns; the writer has written what was
      delivered into a directory without other shards. Then the directory, listed in any
      order, decodes, and begins with the records accepted before the flush, in the order
      of the `Log` calls. */
  lemma LoggedRecordsDecode<K, R>(c: SM.Config, before: seq<SM.Label>, during: seq<SM.Label>, s: SM.State, e: SM.State,
                                  b: Book, files: A.Files, base: A.Files, pub: seq<byte>, codec: Codec<K, R>, listing: seq<Listed>)
    requires P.Serial(c, before, during) && s == SM.Run(SM.Init(c), before)
    requires e == SM.Run(SM.Do(s, SM.BeginFlush), during) && Store.Returns(e, s.nextCall)
    requires |pub| == KEY_BYTES && codec.derive(pub).Some?
    requires OffersSinkFrames(codec.derive(pub).value, codec, before) && OffersSinkFrames(codec.derive(pub).value, codec, during)
    requires A.Complete(b, files, base) && Intact(files, pub, b) && P.Timely(b.stamps)
    requires Flatten(b.shards) == b.written == SB.Payloads(e.persisted)
    requires A.Lists(listing, files) && forall n | n in base :: !N.LooksLikeShard(n)
    ensures var key, mine := codec.derive(pub).value, SB.Payloads(s.accepted);
      && P.SinkFrames(key, codec, mine)
      && var decoded := DecodeFiles(NS.Sort(ShardsOf(listing)), codec);
         decoded.Ok? && P.Records(key, codec, mine) <= decoded.value
  {
    hide P.Serial, Store.Returns, A.Complete, A.Lists, P.SinkFrames, P.Records, P.Held, Intact, SM.Do;
    EndSinkFrames(c, before, during, codec.derive(pub).value, codec);
    BookFacts(b, files, base);
    A.ListingHolds(b, pub, files, base, listing);
    P.FlushedRecordsDecode(c, before, during, s, e, b, pub, codec, listing);
  }

  lemma BookFacts(b: Book, files: A.Files, base: A.Files)
    requires A.Complete(b, files, base) && P.Timely(b.stamps)
    ensures Numbered(b) && |b.stamps| <= U32_LIMIT
  {}

  lemma EndSinkFrames<K, R>(c: SM.Config, before: seq<SM.Label>, during: seq<SM.Label>, key: K, codec: Codec<K, R>)
    requires P.Serial(c, before, during) && OffersSinkFrames(key, codec, before) && OffersSinkFrames(key, codec, during)
    ensures P.SinkFrames(key, codec, SB.Payloads(SM.Run(SM.Do(SM.Run(SM.Init(c), before), SM.BeginFlush), during).persisted))
  {
    hide SM.Do, P.SinkFrame, P.SinkFrames;
    var s := SM.Run(SM.Init(c), before);
    var rest := [SM.BeginFlush] + during;
    assert rest[1..] == during;
    SP.ValidConcat(SM.Init(c), before, rest);
    assert OffersSinkFrames(key, codec, before + rest);
    DeliversSinkFrames(key, codec, c, before + rest);
  }

  /** The same with the code at work: a new writer, the persist callbacks, a listing of the
      directory and the auditor's decoder, for any delivered frames. */
  method PersistAndDecode<M, K, R>(stages: Sink.Stages<M>, store: St.MmapStore, dir: Directory, limit: nat, pub: seq<byte>,
                                   frames: seq<Frame>, clock: seq<N.Stamp>, codec: Codec<K, R>)
    returns (r: Option<Result<seq<R>>>)
    requires |clock| == |frames| + 1 <= U32_LIMIT && A.Steady(clock)
    requires forall n | n in dir.files :: !N.LooksLikeShard(n)
    requires codec.derive(pub).Some? && P.SinkFrames(codec.derive(pub).value, codec, frames)
    modifies dir
    ensures r.None? <==> |pub| != KEY_BYTES || limit <= HEADER_BYTES
    ensures r.Some? ==> r == Some(Ok(P.Records(codec.derive(pub).value, codec, frames)))
  {
    hide A.Complete, A.Drawn, N.InRange, Header, N.Name, Stored, Packed, A.Lists, P.Records, P.Timely, DecodeFiles, N.LooksLikeShard;
    ghost var base := dir.files;
    var w := Create(dir, limit, pub, true, clock[0], true);
    if w == null {
      return None;
    }
    A.FreshComplete(clock[0], pub, base);
    FirstDraw(clock);
    SinkFramesNotEmpty(codec.derive(pub).value, codec, frames);
    var sink := new Sink.EffectiveSink(stages, store, w);
    sink.PersistAll(frames, clock[1..], base, clock[..1]);
    assert clock[..1] + clock[1..] == clock && [] + frames == frames;
    assert w.book.written == frames;
    var listing := A.ListDirectory(dir);
    WriterFacts(w.limit, w.pub, w.View(), base);
    AuditorReads(w.book, dir.files, base, pub, codec, listing, clock);
    r := DecodeShardDir(Some(listing), codec);
  }

  lemma FirstDraw(clock: seq<N.Stamp>)
    requires clock != []
    ensures A.Drawn([clock[0]], clock[..1])
  {
    assert A.DrawnBy([clock[0]], clock[..1], [0]);
  }

  lemma SinkFramesNotEmpty<K, R>(key: K, codec: Codec<K, R>, frames: seq<Frame>)
    requires P.SinkFrames(key, codec, frames)
    ensures forall i | 0 <= i < |frames| :: frames[i] != []
  {
    forall i | 0 <= i < |frames|
      ensures frames[i] != []
    {
      assert P.SinkFrame(key, codec, frames[i]);
    }
  }

  lemma WriterFacts(limit: nat, pub: seq<byte>, d: Desk, base: A.Files)
    requires |pub| == KEY_BYTES && Stored(pub, d) && Packed(limit, d.book)
    ensures Flatten(d.book.shards) == d.book.written
    ensures Numbered(d.book) && (|d.book.stamps| <= U32_LIMIT ==> Intact(d.files, pub, d.book))
  {}

  lemma AuditorReads<K, R>(b: Book, files: A.Files, base: A.Files, pub: seq<byte>, codec: Codec<K, R>, listing: seq<Listed>,
                           clock: seq<N.Stamp>)
    requires |pub| == KEY_BYTES && codec.derive(pub).Some? && A.Complete(b, files, base) && Numbered(b) && Intact(files, pub, b)
    requires |b.stamps| <= U32_LIMIT && A.Drawn(b.stamps, clock) && A.Steady(clock)
    requires Flatten(b.shards) == b.written && P.SinkFrames(codec.derive(pub).value, codec, b.written)
    requires A.Lists(listing, files) && forall n | n in base :: !N.LooksLikeShard(n)
    ensures DecodeFiles(NS.Sort(ShardsOf(listing)), codec) == Ok(P.Records(codec.derive(pub).value, codec, b.written))
  {
    hide A.Complete, A.Drawn, A.Steady, A.Lists, Intact, P.Timely, P.SinkFrames, P.Records, P.Held;
    A.SteadyIsTimely(b.stamps, clock);
    A.ListingHolds(b, pub, files, base, listing);
    P.DirectoryDecodes(b, pub, codec, 0, listing);
    assert b.shards[..0] == [] && Flatten(b.shards[..0]) == [];
    var all := P.Records(codec.derive(pub).value, codec, b.written);
    assert all[0..] == all;
  }
}
