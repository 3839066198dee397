/** The bytes of a shard file: a 48-byte header, then the sink's frames, each a length
    prefix and an encrypted body. */
module ShardFormat {
  import opened Bytes
  import opened Framing

  const HEADER_BYTES: nat := 48
  const KEY_BYTES: nat := 32
  const MAGIC: seq<byte> := [0x4C, 0x47, 0x52, 0x48, 1, 0, 0, 0]  // "LGRH", version 1
  const ALGO_ID: nat := 1
  const FRAME_MIN_BYTES: nat := 28                                 // nonce and tag

  function Header(pub: seq<byte>): (r: seq<byte>)
    requires |pub| == KEY_BYTES
    ensures |r| == HEADER_BYTES
  {
    MAGIC + EncodeU32(ALGO_ID) + pub + Zeros(4)
  }

  /** The header, byte by byte. */
  lemma HeaderIs(pub: seq<byte>)
    requires |pub| == 32
    ensures Header(pub) == [0x4C, 0x47, 0x52, 0x48, 1, 0, 0, 0, 1, 0, 0, 0] + pub + [0, 0, 0, 0]
  {
    assert MAGIC + EncodeU32(1) == [0x4C, 0x47, 0x52, 0x48, 1, 0, 0, 0, 1, 0, 0, 0];
    assert Zeros(4) == [0, 0, 0, 0];
  }

  /** An encrypted body that the reader does not refuse for its length. */
  predicate Readable(body: seq<byte>) {
    FRAME_MIN_BYTES <= |body| < U32_LIMIT
  }

  predicate AllReadable(bodies: seq<seq<byte>>) {
    forall i :: 0 <= i < |bodies| ==> Readable(bodies[i])
  }

  /** Frames, back to back. */
  function Join(frames: seq<seq<byte>>): seq<byte> {
    if frames == [] then [] else frames[0] + Join(frames[1..])
  }

  lemma {:induction false} JoinAppend(a: seq<seq<byte>>, b: seq<seq<byte>>)
    ensures Join(a + b) == Join(a) + Join(b)
    decreases |a|
  {
    if a == [] {
      assert a + b == b;
    } else {
      JoinAppend(a[1..], b);
      assert (a + b)[1..] == a[1..] + b;
    }
  }

  lemma JoinOne(frames: seq<seq<byte>>, f: seq<byte>)
    ensures Join(frames + [f]) == Join(frames) + f
  {
    JoinAppend(frames, [f]);
    assert Join([f]) == f + Join([]);
  }

  /** The sink's frames for these bodies. */
  function Frames(bodies: seq<seq<byte>>): (frames: seq<seq<byte>>)
    requires AllStorable(bodies)
    ensures |frames| == |bodies| && forall i :: 0 <= i < |bodies| ==> frames[i] == Image(bodies[i])
  {
    seq(|bodies|, i requires 0 <= i < |bodies| => Image(bodies[i]))
  }

  lemma {:induction false} JoinFrames(bodies: seq<seq<byte>>)
    requires AllStorable(bodies)
    ensures Join(Frames(bodies)) == Tiles(bodies)
  {
    if bodies != [] {
      JoinFrames(bodies[1..]);
      assert Frames(bodies)[1..] == Frames(bodies[1..]);
    }
  }
}
