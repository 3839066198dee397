/** `EffectiveSink`: `Log` turns a message into a frame in buffers that it reuses, and hands
    it to the store; the persist callback passes frames on to the shard writer. */
module EffectiveSink {
  import opened Bytes
  import opened Framing
  import opened ShardFormat
  import opened Wrappers
  import A = Archive
  import P = Pipeline
  import R = ShardReader
  import SM = StoreMachine
  import St = MmapStore
  import W = ShardWriter
  import N = ShardName

  /** The formatter, the compressor and the cipher, each by what it appends to its output;
      the cipher's output depends on its nonce counter. */
  datatype Stages<!M> = Stages(format: M -> seq<byte>, compress: seq<byte> -> seq<byte>, encrypt: (nat, seq<byte>) -> seq<byte>)

  /** The auditor's libraries undo the stages, each the one it belongs to, and the cipher
      adds its nonce and its tag. */
  ghost predicate Invertible<M(!new), K, Rec>(stages: Stages<M>, record: M -> Rec, key: K, codec: R.Codec<K, Rec>) {
    && (forall m :: codec.parse(stages.format(m)) == Some(record(m)))
    && (forall b :: codec.decompress(stages.compress(b)) == Some(b))
    && (forall nonce, b :: codec.decrypt(key, stages.encrypt(nonce, b)) == Some(b))
    && (forall nonce, b :: |stages.encrypt(nonce, b)| >= 28)
  }

  /** The frame of an encrypted body: its length as 32 bits, and the body. */
  function FrameOf(body: seq<byte>): seq<byte> {
    EncodeU32(|body| % U32_LIMIT) + body
  }

  lemma Alone(s: seq<byte>)
    ensures [] + s == s
  {}

  /** What `Log` hands over is a frame the auditor can open, and what decrypting,
      decompressing and parsing find inside is the record of the message. */
  lemma LoggedFrameOpens<M(!new), K, Rec>(stages: Stages<M>, record: M -> Rec, key: K, codec: R.Codec<K, Rec>, m: M, nonce: nat)
    requires Invertible(stages, record, key, codec)
    requires |stages.encrypt(nonce, stages.compress(stages.format(m)))| < U32_LIMIT
    ensures var body := stages.encrypt(nonce, stages.compress(stages.format(m)));
      var f := EncodeU32(|body| % U32_LIMIT) + body;
      && f == Image(body) && P.SinkFrame(key, codec, f) && R.Yields(codec, key, f[4..], record(m))
      && P.Records(key, codec, [f]) == [record(m)]
  {
    hide EncodeU32;
    var body := stages.encrypt(nonce, stages.compress(stages.format(m)));
    assert FrameOf(body)[4..] == body;
  }

  class EffectiveSink<M> {
    const stages: Stages<M>
    const store: St.MmapStore
    const writer: W.ShardWriter
    var nonce: nat
    var bufProto: seq<byte>
    var bufCompressed: seq<byte>
    var bufEncrypted: seq<byte>
    var bufFrame: seq<byte>

    constructor (stages: Stages<M>, store: St.MmapStore, writer: W.ShardWriter)
      ensures this.stages == stages && this.store == store && this.writer == writer && nonce == 0
    {
      this.stages, this.store, this.writer := stages, store, writer;
      nonce, bufProto, bufCompressed, bufEncrypted, bufFrame := 0, [], [], [], [];
    }

    /** The first part of `Log`: each stage appends to its buffer, so each is cleared. */
    method BuildFrame(m: M)
      modifies this
      ensures var body := stages.encrypt(old(nonce), stages.compress(stages.format(m)));
        bufFrame == EncodeU32(|body| % U32_LIMIT) + body
      ensures nonce == old(nonce) + 1
    {
      hide EncodeU32;
      bufProto := [];
      bufCompressed := [];
      bufEncrypted := [];
      bufFrame := [];
      bufProto := bufProto + stages.format(m);
      Alone(stages.format(m));
      bufCompressed := bufCompressed + stages.compress(bufProto);
      Alone(stages.compress(bufProto));
      bufEncrypted := bufEncrypted + stages.encrypt(nonce, bufCompressed);
      Alone(stages.encrypt(nonce, bufCompressed));
      nonce := nonce + 1;
      var n := |bufEncrypted| % U32_LIMIT;
      bufFrame := bufFrame + EncodeU32(n);
      Alone(EncodeU32(n));
      bufFrame := bufFrame + bufEncrypted;
    }

    /** The store is offered the frame of this message alone, whatever the buffers held. */
    method Log(m: M, patience: nat) returns (ok: bool)
      requires store.Valid()
      modifies this, store
      ensures store.Valid() && nonce == old(nonce) + 1
      ensures var body := stages.encrypt(old(nonce), stages.compress(stages.format(m)));
        var frame := EncodeU32(|body| % U32_LIMIT) + body;
        && store.st.accepted == old(store.st.accepted) + (if ok then [SM.Frame(old(store.nextCall), frame)] else [])
        && (ok <==>
              && |frame| < U32_LIMIT && 4 + |frame| <= store.cfg.capacity
              && (old(store.pool[store.master]).offset + 4 + |frame| <= store.cfg.capacity || old(store.Obtainable(patience > 0))))
    {
      hide EncodeU32, St.Sound;
      BuildFrame(m);
      var swaps;
      ok, swaps := store.Append(bufFrame, patience);
    }

    /** The persist callback: a throw of the writer is caught, and the frame is lost. */
    method OnPersist(data: seq<byte>, now: N.Stamp, opens: bool)
      requires writer.Valid() && N.InRange(now)
      modifies writer, writer.dir
      ensures writer.Valid()
      ensures data != [] ==> writer.book.written == old(writer.book.written) + (if writer.isOpen then [data] else [])
      ensures opens && data != [] ==>
        && writer.isOpen
        && writer.book == W.Appended(if old(W.Rotates(writer.limit, writer.View(), data))
                                     then W.Opened(old(writer.book), now) else old(writer.book), data)
        && writer.dir.files.Keys == old(writer.dir.files).Keys + {writer.currentName}
        && forall n | n in old(writer.dir.files) && n != writer.currentName :: writer.dir.files[n] == old(writer.dir.files)[n]
    {
      hide N.InRange;
      var _ := writer.WriteFrame(data, now, opens);
    }

    /** A callback whose open, if it needs one, succeeds. */
    method PersistNext(data: seq<byte>, now: N.Stamp, ghost base: A.Files, ghost past: seq<N.Stamp>)
      requires writer.Valid() && writer.isOpen && A.Complete(writer.book, writer.dir.files, base)
      requires A.Drawn(writer.book.stamps, past) && N.InRange(now) && data != []
      modifies writer, writer.dir
      ensures writer.Valid() && writer.isOpen && A.Complete(writer.book, writer.dir.files, base)
      ensures writer.book.written == old(writer.book.written) + [data]
      ensures |writer.book.stamps| <= |old(writer.book.stamps)| + 1 && A.Drawn(writer.book.stamps, past + [now])
    {
      hide N.InRange, A.Complete, A.Drawn;
      ghost var b, files, rotates := writer.book, writer.dir.files, W.Rotates(writer.limit, writer.View(), data);
      OnPersist(data, now, true);
      CurrentIsLast(writer.pub, writer.View());
      A.WriteComplete(b, now, rotates, data, files, writer.dir.files, base);
      A.DrawOne(b.stamps, past, now);
    }

    /** The callbacks of the drains, one frame after another, while no open fails. */
    method PersistAll(frames: seq<seq<byte>>, clock: seq<N.Stamp>, ghost base: A.Files, ghost past: seq<N.Stamp>)
      requires writer.Valid() && writer.isOpen && A.Complete(writer.book, writer.dir.files, base)
      requires A.Drawn(writer.book.stamps, past)
      requires |clock| == |frames| && (forall i | 0 <= i < |clock| :: N.InRange(clock[i]))
      requires forall i | 0 <= i < |frames| :: frames[i] != []
      modifies writer, writer.dir
      ensures writer.Valid() && writer.isOpen && A.Complete(writer.book, writer.dir.files, base)
      ensures writer.book.written == old(writer.book.written) + frames
      ensures |writer.book.stamps| <= |old(writer.book.stamps)| + |frames| && A.Drawn(writer.book.stamps, past + clock)
    {
      hide N.InRange, A.Complete, A.Drawn, W.Stored, W.Packed;
      assert past + clock[..0] == past;
      for i := 0 to |frames|
        invariant writer.Valid() && writer.isOpen && A.Complete(writer.book, writer.dir.files, base)
        invariant writer.book.written == old(writer.book.written) + frames[..i]
        invariant |writer.book.stamps| <= |old(writer.book.stamps)| + i && A.Drawn(writer.book.stamps, past + clock[..i])
      {
        PersistNext(frames[i], clock[i], base, past + clock[..i]);
        assert frames[..i + 1] == frames[..i] + [frames[i]];
        assert past + clock[..i + 1] == past + clock[..i] + [clock[i]];
      }
      assert frames[..|frames|] == frames && clock[..|frames|] == clock;
    }
  }

  lemma CurrentIsLast(pub: seq<byte>, d: W.Desk)
    requires |pub| == KEY_BYTES && W.Stored(pub, d)
    ensures d.book.stamps != [] && d.name == W.LastName(d.book)
  {}
}
