/** How `WriteFrame` cuts a stream of frames into shards: next-fit, with a 48-byte
    header in each file. */
module ShardPacking {
  import opened Bytes
  import opened ShardFormat

  type Frame = seq<byte>
  type Shard = seq<Frame>

  function Load(fs: seq<Frame>): nat {
    if fs == [] then 0 else |fs[0]| + Load(fs[1..])
  }

  /** The size of the file that holds these frames. */
  function FileSize(shard: Shard): nat {
    HEADER_BYTES + Load(shard)
  }

  /** One call of `WriteFrame` on the shards written so far; the last one is open. */
  function Add(limit: nat, shards: seq<Shard>, f: Frame): (r: seq<Shard>)
    requires shards != []
    ensures r != []
  {
    var n := |shards| - 1;
    var last := shards[n];
    if f == [] then shards
    else if FileSize(last) > HEADER_BYTES && FileSize(last) + |f| > limit then shards + [[f]]
    else shards[..n] + [last + [f]]
  }

  function AddAll(limit: nat, shards: seq<Shard>, fs: seq<Frame>): (r: seq<Shard>)
    requires shards != []
    ensures r != []
    decreases |fs|
  {
    if fs == [] then shards else AddAll(limit, Add(limit, shards, fs[0]), fs[1..])
  }

  function Pack(limit: nat, fs: seq<Frame>): seq<Shard> {
    AddAll(limit, [[]], fs)
  }

  lemma {:induction false} AddAllLast(limit: nat, shards: seq<Shard>, fs: seq<Frame>, f: Frame)
    requires shards != []
    ensures AddAll(limit, shards, fs + [f]) == Add(limit, AddAll(limit, shards, fs), f)
    decreases |fs|
  {
    if fs == [] {
      assert AddAll(limit, Add(limit, shards, f), []) == Add(limit, shards, f);
    } else {
      assert (fs + [f])[1..] == fs[1..] + [f];
      AddAllLast(limit, Add(limit, shards, fs[0]), fs[1..], f);
    }
  }

  function Flatten(shards: seq<Shard>): seq<Frame> {
    if shards == [] then [] else shards[0] + Flatten(shards[1..])
  }

  /** The frames that are written: the empty one is ignored. */
  function NonEmpty(fs: seq<Frame>): seq<Frame> {
    if fs == [] then [] else (if fs[0] == [] then [] else [fs[0]]) + NonEmpty(fs[1..])
  }

  lemma {:induction false} LoadAppend(a: seq<Frame>, b: seq<Frame>)
    ensures Load(a + b) == Load(a) + Load(b)
    decreases |a|
  {
    if a == [] {
      assert a + b == b;
    } else {
      LoadAppend(a[1..], b);
      assert (a + b)[1..] == a[1..] + b;
    }
  }

  lemma {:induction false} FlattenAppend(a: seq<Shard>, b: seq<Shard>)
    ensures Flatten(a + b) == Flatten(a) + Flatten(b)
    decreases |a|
  {
    if a == [] {
      assert a + b == b;
    } else {
      FlattenAppend(a[1..], b);
      assert (a + b)[1..] == a[1..] + b;
    }
  }

  lemma FlattenLast(shards: seq<Shard>, last: Shard)
    ensures Flatten(shards + [last]) == Flatten(shards) + last
  {
    FlattenAppend(shards, [last]);
    assert Flatten([last]) == last + Flatten([]);
  }

  lemma AddFlatten(limit: nat, shards: seq<Shard>, f: Frame)
    requires shards != []
    ensures Flatten(Add(limit, shards, f)) == Flatten(shards) + NonEmpty([f])
  {
    var n := |shards| - 1;
    assert NonEmpty([f]) == if f == [] then [] else [f];
    assert shards == shards[..n] + [shards[n]];
    FlattenLast(shards[..n], shards[n]);
    FlattenLast(shards[..n], shards[n] + [f]);
    FlattenLast(shards, [f]);
  }

  /** Nothing is split, reordered, dropped or repeated. */
  lemma {:induction false} AddAllFlatten(limit: nat, shards: seq<Shard>, fs: seq<Frame>)
    requires shards != []
    ensures Flatten(AddAll(limit, shards, fs)) == Flatten(shards) + NonEmpty(fs)
    decreases |fs|
  {
    if fs != [] {
      AddFlatten(limit, shards, fs[0]);
      AddAllFlatten(limit, Add(limit, shards, fs[0]), fs[1..]);
    }
  }

  lemma PackKeepsFrames(limit: nat, fs: seq<Frame>)
    ensures Flatten(Pack(limit, fs)) == NonEmpty(fs)
  {
    AddAllFlatten(limit, [[]], fs);
    assert Flatten([[]]) == [] + Flatten([]);
  }

  // ------------------------------------------------------------ shape of shards

  predicate NoEmptyFrames(shard: Shard) {
    forall i | 0 <= i < |shard| :: shard[i] != []
  }

  /** Over the limit only with a single frame. */
  predicate Fits(limit: nat, shard: Shard) {
    NoEmptyFrames(shard) && (FileSize(shard) <= limit || |shard| <= 1)
  }

  /** The frame that opened `next` did not fit into `prev`. */
  predicate Forced(limit: nat, prev: Shard, next: Shard) {
    prev != [] && next != [] && FileSize(prev) + |next[0]| > limit
  }

  ghost predicate Shaped(limit: nat, shards: seq<Shard>) {
    && (forall i | 0 <= i < |shards| :: Fits(limit, shards[i]))
    && (forall i | 0 < i < |shards| :: Forced(limit, shards[i - 1], shards[i]))
  }

  lemma LoadZero(shard: Shard)
    requires NoEmptyFrames(shard)
    ensures Load(shard) == 0 <==> shard == []
  {}

  lemma AddShaped(limit: nat, shards: seq<Shard>, f: Frame)
    requires shards != [] && Shaped(limit, shards)
    ensures Shaped(limit, Add(limit, shards, f))
  {
    var n := |shards| - 1;
    var last, r := shards[n], Add(limit, shards, f);
    assert Fits(limit, last);
    LoadZero(last);
    LoadAppend(last, [f]);
    assert Load([f]) == |f|;
    if f != [] {
      forall i | 0 <= i < |r|
        ensures Fits(limit, r[i])
      {
        if i < n { assert r[i] == shards[i]; }
      }
      forall i | 0 < i < |r|
        ensures Forced(limit, r[i - 1], r[i])
      {
        if i <= n { assert Forced(limit, shards[i - 1], shards[i]); }
      }
    }
  }

  lemma {:induction false} AddAllShaped(limit: nat, shards: seq<Shard>, fs: seq<Frame>)
    requires shards != [] && Shaped(limit, shards)
    ensures Shaped(limit, AddAll(limit, shards, fs))
    decreases |fs|
  {
    if fs != [] {
      AddShaped(limit, shards, fs[0]);
      AddAllShaped(limit, Add(limit, shards, fs[0]), fs[1..]);
    }
  }

  /** Every closed shard holds a frame, a shard over the limit holds just one, and a new
      shard is opened only for a frame that did not fit. */
  lemma PackShape(limit: nat, fs: seq<Frame>)
    ensures var shards := Pack(limit, fs);
      && (forall i | 0 <= i < |shards| - 1 :: shards[i] != [])
      && (forall i | 0 <= i < |shards| && FileSize(shards[i]) > limit && limit > HEADER_BYTES :: |shards[i]| == 1)
      && (forall i | 0 < i < |shards| :: shards[i] != [] && FileSize(shards[i - 1]) + |shards[i][0]| > limit)
  {
    var shards := Pack(limit, fs);
    assert Shaped(limit, [[]]);
    AddAllShaped(limit, [[]], fs);
    forall i | 0 <= i < |shards| - 1
      ensures shards[i] != []
    {
      assert Forced(limit, shards[i + 1 - 1], shards[i + 1]);
    }
    forall i | 0 <= i < |shards| && FileSize(shards[i]) > limit && limit > HEADER_BYTES
      ensures |shards[i]| == 1
    {
      assert Fits(limit, shards[i]);
      LoadZero(shards[i]);
    }
    forall i | 0 < i < |shards|
      ensures shards[i] != [] && FileSize(shards[i - 1]) + |shards[i][0]| > limit
    {
      assert Forced(limit, shards[i - 1], shards[i]);
    }
  }

  // -------------------------------------------------- against any other packing

  lemma TakeOut(b: seq<Frame>, i: nat)
    requires i < |b|
    ensures var rest := b[..i] + b[i + 1..];
      multiset(b) == multiset{b[i]} + multiset(rest) && Load(b) == |b[i]| + Load(rest)
  {
    var f := b[i];
    assert b == b[..i] + ([f] + b[i + 1..]);
    LoadAppend(b[..i], [f] + b[i + 1..]);
    LoadAppend([f], b[i + 1..]);
    LoadAppend(b[..i], b[i + 1..]);
    assert Load([f]) == |f|;
  }

  lemma {:induction false} LoadOfMultiset(a: seq<Frame>, b: seq<Frame>)
    requires multiset(a) == multiset(b)
    ensures Load(a) == Load(b)
    decreases |a|
  {
    if a == [] {
      assert |multiset(b)| == 0;
      assert b == [];
    } else {
      var f := a[0];
      assert f in multiset(b);
      var i :| 0 <= i < |b| && b[i] == f;
      var rest := b[..i] + b[i + 1..];
      TakeOut(b, i);
      assert a == [f] + a[1..];
      assert multiset(a[1..]) == multiset(a) - multiset{f};
      assert multiset(rest) == multiset(b) - multiset{f};
      LoadOfMultiset(a[1..], rest);
    }
  }

  /** The room of `n` bins. */
  function Room(n: nat, room: nat): nat {
    if n == 0 then 0 else room + Room(n - 1, room)
  }

  lemma {:induction false} RoomMonotone(m: nat, n: nat, room: nat)
    requires m <= n
    ensures Room(m, room) <= Room(n, room)
    decreases n
  {
    if m < n { RoomMonotone(m, n - 1, room); }
  }

  /** Bins of capacity `room` hold no more than `room` each. */
  lemma {:induction false} LoadOfBins(bins: seq<Shard>, room: nat)
    requires forall i | 0 <= i < |bins| :: Load(bins[i]) <= room
    ensures Load(Flatten(bins)) <= Room(|bins|, room)
  {
    if bins != [] {
      LoadOfBins(bins[1..], room);
      LoadAppend(bins[0], Flatten(bins[1..]));
    }
  }

  lemma ForcedLoad(limit: nat, a: Shard, b: Shard)
    requires limit >= HEADER_BYTES && Forced(limit, a, b)
    ensures Load(a) + Load(b) > limit - HEADER_BYTES
  {}

  lemma FlattenPair(shards: seq<Shard>)
    requires |shards| >= 2
    ensures Load(Flatten(shards)) == Load(shards[0]) + Load(shards[1]) + Load(Flatten(shards[2..]))
  {
    assert shards[1..][1..] == shards[2..];
    LoadAppend(shards[0], Flatten(shards[1..]));
    LoadAppend(shards[1], Flatten(shards[2..]));
  }

  lemma ShapedTail(limit: nat, shards: seq<Shard>)
    requires |shards| >= 2 && Shaped(limit, shards)
    ensures Shaped(limit, shards[2..])
  {
    var rest := shards[2..];
    forall i | 0 < i < |rest|
      ensures Forced(limit, rest[i - 1], rest[i])
    {
      assert Forced(limit, shards[i + 2 - 1], shards[i + 2]);
    }
  }

  /** Two neighbours of a next-fit packing carry more than one bin can. */
  lemma {:induction false} LoadOfPairs(limit: nat, shards: seq<Shard>)
    requires limit >= HEADER_BYTES && Shaped(limit, shards) && shards != [] && shards[|shards| - 1] != []
    ensures Load(Flatten(shards)) > Room(|shards| / 2, limit - HEADER_BYTES)
    decreases |shards|
  {
    if |shards| == 1 {
      assert Fits(limit, shards[0]);
      LoadZero(shards[0]);
      LoadAppend(shards[0], Flatten(shards[1..]));
    } else {
      assert Forced(limit, shards[1 - 1], shards[1]);
      ForcedLoad(limit, shards[0], shards[1]);
      FlattenPair(shards);
      if |shards| > 2 {
        ShapedTail(limit, shards);
        LoadOfPairs(limit, shards[2..]);
      }
    }
  }

  /** Next-fit: if every frame fits into `limit - 48` bytes, the shards that hold frames
      are at most 2 * OPT - 1, where OPT is any number of files, each within the limit,
      that hold the same frames in whatever arrangement. */
  lemma NextFitBound(limit: nat, fs: seq<Frame>, bins: seq<Shard>)
    requires limit >= HEADER_BYTES && NonEmpty(fs) != []
    requires forall i | 0 <= i < |bins| :: FileSize(bins[i]) <= limit
    requires multiset(Flatten(bins)) == multiset(NonEmpty(fs))
    ensures var shards := Pack(limit, fs);
      |shards| <= 2 * |bins| - 1 && forall i | 0 <= i < |shards| :: shards[i] != []
  {
    hide Pack, AddAll, Flatten, Load, NonEmpty, Room, Forced;
    var shards, room := Pack(limit, fs), limit - HEADER_BYTES;
    PackShaped(limit, fs);
    PackKeepsFrames(limit, fs);
    PackShape(limit, fs);
    LastNotEmpty(limit, fs);
    LoadOfPairs(limit, shards);
    LoadOfMultiset(Flatten(bins), NonEmpty(fs));
    LoadOfBins(bins, room);
    if |bins| <= |shards| / 2 { RoomMonotone(|bins|, |shards| / 2, room); }
  }

  lemma PackShaped(limit: nat, fs: seq<Frame>)
    ensures Shaped(limit, Pack(limit, fs)) && Pack(limit, fs) != []
  {
    assert Shaped(limit, [[]]);
    AddAllShaped(limit, [[]], fs);
  }

  lemma LastNotEmpty(limit: nat, fs: seq<Frame>)
    requires NonEmpty(fs) != []
    ensures var shards := Pack(limit, fs); shards[|shards| - 1] != []
  {
    var shards := Pack(limit, fs);
    PackShape(limit, fs);
    PackKeepsFrames(limit, fs);
    if |shards| == 1 {
      assert Flatten(shards) == shards[0] + Flatten(shards[1..]);
      assert Flatten(shards[1..]) == [];
    }
  }
}
