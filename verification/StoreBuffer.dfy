/** The store treats each buffer operation as one step on a `Buf`. These methods run the
    real operation on the bytes of a buffer and show that it has that effect. */
module StoreBuffer {
  import opened Framing
  import opened StoreMachine
  import B = MmapBuffer

  function Payloads(frames: seq<Frame>): (r: seq<Payload>)
    ensures |r| == |frames| && forall i | 0 <= i < |r| :: r[i] == frames[i].payload
  {
    seq(|frames|, i requires 0 <= i < |frames| => frames[i].payload)
  }

  /** The bytes and fields of `m` are what `b` says. */
  ghost predicate Shows(m: B.MmapBuffer, b: Buf)
    reads m, m.region
  {
    m.Valid() && m.Frames() == Payloads(b.frames) && m.offset == b.offset && m.sealed == b.sealed
  }

  /** `Write` is `WriteTo`, result included. */
  method Write(m: B.MmapBuffer, b: Buf, f: Frame) returns (ok: bool)
    requires Shows(m, b)
    modifies m, m.region
    ensures var (b', done) := WriteTo(m.region.Length, b, f); Shows(m, b') && ok == done
  {
    ok := m.Write(f.payload);
    assert Payloads(b.frames + [f]) == Payloads(b.frames) + [f.payload];
  }

  /** `Seal` is the step `SealBuf`. */
  method Seal(m: B.MmapBuffer, b: Buf)
    requires Shows(m, b)
    modifies m
    ensures Shows(m, b.(sealed := true))
  {
    m.Seal();
  }

  /** The walk over the bytes hands over the payloads of the frames the `Persist` steps do. */
  method ForEachFrame(m: B.MmapBuffer, b: Buf) returns (payloads: seq<Payload>)
    requires Shows(m, b) && b.sealed
    ensures payloads == Payloads(b.frames) && Shows(m, b)
  {
    payloads := m.ForEachFrame();
  }

  /** `ResetForReuse` is the step `ResetBuf`. */
  method ResetForReuse(m: B.MmapBuffer, b: Buf)
    requires Shows(m, b) && b.sealed
    modifies m, m.region
    ensures Shows(m, FRESH_BUF)
  {
    m.ResetForReuse();
  }
}
