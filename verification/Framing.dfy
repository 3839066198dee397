/** The frame format inside a buffer, `[LE32 len][payload]`, and the walk that
    recovers the payloads from raw bytes. */
module Framing {
  import opened Bytes

  type Payload = seq<byte>

  /** The payloads a buffer may accept at all: the guard at the head of `Write`. */
  predicate Storable(p: Payload) {
    0 < |p| < U32_LIMIT
  }

  predicate AllStorable(ps: seq<Payload>) {
    forall i :: 0 <= i < |ps| ==> Storable(ps[i])
  }

  function Image(p: Payload): (r: seq<byte>)
    requires Storable(p)
    ensures |r| == 4 + |p|
  {
    EncodeU32(|p|) + p
  }

  /** The images of `ps`, back to back. */
  function Tiles(ps: seq<Payload>): (r: seq<byte>)
    requires AllStorable(ps)
  {
    if ps == [] then [] else Image(ps[0]) + Tiles(ps[1..])
  }

  lemma {:induction false} TilesAppend(ps: seq<Payload>, p: Payload)
    requires AllStorable(ps) && Storable(p)
    ensures AllStorable(ps + [p]) && Tiles(ps + [p]) == Tiles(ps) + Image(p)
  {
    assert AllStorable(ps + [p]);
    if ps == [] {
      assert Tiles([p]) == Image(p) + Tiles([p][1..]);
      assert ps + [p] == [p];
    } else {
      TilesAppend(ps[1..], p);
      assert (ps + [p])[1..] == ps[1..] + [p];
    }
  }

  lemma TilesLongEnough(ps: seq<Payload>)
    requires AllStorable(ps)
    ensures ps != [] ==> |Tiles(ps)| >= 5
  {}

  /** A region of `cap` bytes that holds exactly `ps` and zeros after them. */
  ghost predicate Holds(region: seq<byte>, ps: seq<Payload>) {
    && AllStorable(ps)
    && |Tiles(ps)| <= |region|
    && region == Tiles(ps) + Zeros(|region| - |Tiles(ps)|)
  }

  /** What `ForEachFrame` passes to its callback when it starts at `pos`. */
  function Walk(region: seq<byte>, end: nat, pos: nat): (frames: seq<Payload>)
    requires end <= |region|
    decreases end - pos
  {
    if pos + 4 > end then []
    else
      var len := DecodeU32(region[pos..pos + 4]);
      if len == 0 || pos + 4 + len > end then []
      else [region[pos + 4..pos + 4 + len]] + Walk(region, end, pos + 4 + len)
  }

  /** One round of the walk. */
  lemma WalkRound(region: seq<byte>, end: nat, pos: nat)
    requires pos + 4 <= end <= |region|
    ensures var len := DecodeU32(region[pos..pos + 4]);
      Walk(region, end, pos) == if len == 0 || pos + 4 + len > end then []
                                else [region[pos + 4..pos + 4 + len]] + Walk(region, end, pos + 4 + len)
  {}

  lemma SliceOfSlice<T>(s: seq<T>, lo: nat, hi: nat, i: nat, j: nat)
    requires lo <= hi <= |s| && i <= j <= hi - lo
    ensures s[lo..hi][i..j] == s[lo + i..lo + j]
  {
    var whole, part := s[lo..hi], s[lo + i..lo + j];
    assert |whole[i..j]| == |part|;
    forall k | 0 <= k < |part|
      ensures whole[i..j][k] == part[k]
    {
      assert whole[i + k] == s[lo + i + k];
    }
  }

  /** One iteration: an image at `pos` is recovered and stepped over. */
  lemma WalkImage(region: seq<byte>, end: nat, pos: nat, p: Payload, tail: seq<byte>)
    requires Storable(p) && pos <= end <= |region|
    requires region[pos..end] == Image(p) + tail
    ensures pos + 4 + |p| <= end && region[pos + 4 + |p|..end] == tail
    ensures Walk(region, end, pos) == [p] + Walk(region, end, pos + 4 + |p|)
  {
    var rest, next := region[pos..end], pos + 4 + |p|;
    assert |rest| == end - pos == 4 + |p| + |tail|;
    assert region[pos..pos + 4] == rest[..4] == EncodeU32(|p|);
    DecodeEncodeU32(|p|);
    assert rest[4..4 + |p|] == Image(p)[4..] == p;
    SliceOfSlice(region, pos, end, 4, 4 + |p|);
    assert region[next..end] == rest[4 + |p|..] == tail;
  }

  lemma WalkStops(region: seq<byte>, end: nat, pos: nat)
    requires pos <= end <= |region| && region[pos..end] == Zeros(end - pos)
    ensures Walk(region, end, pos) == []
  {
    if pos + 4 <= end {
      assert region[pos..pos + 4] == region[pos..end][..4] == EncodeU32(0);
      DecodeEncodeU32(0);
    }
  }

  /** The walk over the images of `ps` followed by anything that reads as zeros
      yields `ps`, wherever it is told to stop past the last image. */
  lemma {:induction false} WalkFrom(region: seq<byte>, end: nat, pos: nat, ps: seq<Payload>, zeros: nat)
    requires AllStorable(ps) && pos <= end <= |region|
    requires region[pos..end] == Tiles(ps) + Zeros(zeros)
    ensures Walk(region, end, pos) == ps
    decreases |ps|
  {
    if ps == [] {
      WalkStops(region, end, pos);
    } else {
      var tail := Tiles(ps[1..]) + Zeros(zeros);
      assert Tiles(ps) + Zeros(zeros) == Image(ps[0]) + tail;
      WalkImage(region, end, pos, ps[0], tail);
      WalkFrom(region, end, pos + 4 + |ps[0]|, ps[1..], zeros);
    }
  }

  /** The frame walk is exact on every region a cycle can leave behind, also when
      the offset has overrun the capacity and `end` is the whole region. */
  lemma WalkExact(region: seq<byte>, end: nat, ps: seq<Payload>)
    requires Holds(region, ps) && |Tiles(ps)| <= end <= |region|
    ensures Walk(region, end, 0) == ps
  {
    assert region[0..end] == Tiles(ps) + Zeros(end - |Tiles(ps)|);
    WalkFrom(region, end, 0, ps, end - |Tiles(ps)|);
  }
}
