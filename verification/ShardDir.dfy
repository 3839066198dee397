/** Decoding a whole directory: every shard file, sorted by name, one after another. */
module ShardDir {
  import opened Bytes
  import opened Framing
  import opened NameSort
  import opened ShardFormat
  import opened ShardReader
  import opened Wrappers
  import N = ShardName

  /** A file; no content when it cannot be opened. */
  type File = Entry<Option<seq<byte>>>

  datatype Node = Irregular | Regular(content: Option<seq<byte>>)

  type Listed = Entry<Node>

  /** The shard files of a listing, in the listing's order. */
  function ShardsOf(listing: seq<Listed>): seq<File> {
    if listing == [] then []
    else
      (if listing[0].content.Regular? && N.LooksLikeShard(listing[0].name)
       then [Entry(listing[0].name, listing[0].content.content)] else [])
      + ShardsOf(listing[1..])
  }

  lemma {:induction false} ShardsOfAppend(a: seq<Listed>, e: Listed)
    ensures ShardsOf(a + [e]) == ShardsOf(a) + ShardsOf([e])
  {
    hide N.LooksLikeShard;
    if a == [] {
      assert a + [e] == [e];
    } else {
      ShardsOfAppend(a[1..], e);
      assert (a + [e])[1..] == a[1..] + [e];
    }
  }

  /** The records of the files in this order, or the first file's error. */
  function DecodeFiles<K, R>(files: seq<File>, codec: Codec<K, R>): Result<seq<R>> {
    if files == [] then Ok([])
    else match DecodeOpened(files[0].content, codec)
      case Err(e) => Err(e)
      case Ok(rs) => Prepend(rs, DecodeFiles(files[1..], codec))
  }

  /** `None` when `dir` is not a directory. */
  method DecodeShardDir<K, R>(dir: Option<seq<Listed>>, codec: Codec<K, R>) returns (r: Option<Result<seq<R>>>)
    ensures r == match dir case None => None case Some(listing) => Some(DecodeFiles(Sort(ShardsOf(listing)), codec))
    ensures dir.Some? ==> exists files :: ShardsInOrder(files, dir.value) && Outcome(files, codec, r.value)
  {
    hide ShardsInOrder, Outcome, N.LooksLikeShard, Sort, DecodeOpened, GenuineHeader, Concat;
    if dir.Some? { DirOutcome(dir.value, codec); }
    if dir.None? {
      return None;
    }
    var listing, shards := dir.value, [];
    for i := 0 to |listing|
      invariant shards == ShardsOf(listing[..i])
    {
      var de := listing[i];
      assert listing[..i + 1] == listing[..i] + [de];
      ShardsOfAppend(listing[..i], de);
      if de.content.Irregular? {
        continue;
      }
      if N.LooksLikeShard(de.name) {
        shards := shards + [Entry(de.name, de.content.content)];
      }
    }
    assert listing[..|listing|] == listing;
    shards := Sort(shards);
    var out: seq<R> := [];
    PrependNothing(DecodeFiles(shards, codec));
    for i := 0 to |shards|
      invariant Prepend(out, DecodeFiles(shards[i..], codec)) == DecodeFiles(shards, codec)
    {
      var recs := DecodeShardFile(shards[i].content, codec);
      if recs.Err? {
        return Some(Err(recs.error));
      }
      PrependAppend(out, recs.value, DecodeFiles(shards[i + 1..], codec));
      out := out + recs.value;
    }
    assert out + [] == out;
    return Some(Ok(out));
  }

  // ------------------------------------------------------ every directory's outcome

  /** Exactly the regular files of a listing whose names have the form, each as often as it
      is listed, in the order of the names. */
  ghost predicate ShardsInOrder(files: seq<File>, listing: seq<Listed>) {
    && (forall i, j | 0 <= i < j < |files| :: !N.Less(files[j].name, files[i].name))
    && forall f: File :: multiset(files)[f] == if N.ShardForm(f.name) then multiset(listing)[Entry(f.name, Regular(f.content))] else 0
  }

  function Concat<R>(parts: seq<seq<R>>): seq<R> {
    if parts == [] then [] else parts[0] + Concat(parts[1..])
  }

  predicate AllDecode<K, R>(files: seq<File>, codec: Codec<K, R>) {
    forall i | 0 <= i < |files| :: DecodeOpened(files[i].content, codec).Ok?
  }

  /** The records of each file. */
  function Parts<K, R>(files: seq<File>, codec: Codec<K, R>): (parts: seq<seq<R>>)
    requires AllDecode(files, codec)
    ensures |parts| == |files|
    ensures forall i | 0 <= i < |files| :: DecodeOpened(files[i].content, codec) == Ok(parts[i])
  {
    seq(|files|, i requires 0 <= i < |files| => DecodeOpened(files[i].content, codec).value)
  }

  /** File `k` does not decode, and those before it do. */
  ghost predicate FirstBad<K, R>(files: seq<File>, codec: Codec<K, R>, k: nat) {
    && k < |files| && DecodeOpened(files[k].content, codec).Err?
    && forall i | 0 <= i < k :: DecodeOpened(files[i].content, codec).Ok?
  }

  /** All decode and `r` is their records one after another, or `r` is the first error. */
  ghost predicate Outcome<K, R>(files: seq<File>, codec: Codec<K, R>, r: Result<seq<R>>) {
    match r
    case Ok(rs) => AllDecode(files, codec) && rs == Concat(Parts(files, codec))
    case Err(e) => exists k: nat :: FirstBad(files, codec, k) && DecodeOpened(files[k].content, codec).error == e
  }

  lemma {:induction false} ShardsCount(listing: seq<Listed>, f: File)
    ensures multiset(ShardsOf(listing))[f] ==
      if N.LooksLikeShard(f.name) then multiset(listing)[Entry(f.name, Regular(f.content))] else 0
  {
    hide N.LooksLikeShard;
    if listing != [] {
      ShardsCount(listing[1..], f);
      assert listing == [listing[0]] + listing[1..];
    }
  }

  lemma SortedShards(listing: seq<Listed>)
    ensures ShardsInOrder(Sort(ShardsOf(listing)), listing)
  {
    hide N.LooksLikeShard, N.ShardForm, N.Less, Sort, ShardsOf;
    var shards := ShardsOf(listing);
    SortSorts(shards);
    SortPermutes(shards);
    forall f: File
      ensures multiset(shards)[f] == if N.ShardForm(f.name) then multiset(listing)[Entry(f.name, Regular(f.content))] else 0
    {
      ShardsCount(listing, f);
      N.LooksLikeIff(f.name);
    }
  }

  lemma ShardsMember(files: seq<File>, listing: seq<Listed>, f: File)
    requires ShardsInOrder(files, listing)
    ensures f in files <==> N.ShardForm(f.name) && Entry(f.name, Regular(f.content)) in listing
  {
    hide N.ShardForm, N.Less;
    var e := Entry(f.name, Regular(f.content));
    assert f in files <==> multiset(files)[f] > 0;
    assert e in listing <==> multiset(listing)[e] > 0;
  }

  lemma {:induction false} FilesOutcome<K, R>(files: seq<File>, codec: Codec<K, R>)
    ensures Outcome(files, codec, DecodeFiles(files, codec))
  {
    hide DecodeOpened;
    var r := DecodeFiles(files, codec);
    if files == [] {
      assert AllDecode(files, codec) && Parts(files, codec) == [];
    } else if DecodeOpened(files[0].content, codec).Err? {
      assert FirstBad(files, codec, 0);
    } else {
      FilesOutcome(files[1..], codec);
      match DecodeFiles(files[1..], codec)
      case Ok(rs) =>
        assert forall i | 0 < i < |files| :: files[i] == files[1..][i - 1];
        assert AllDecode(files, codec);
        assert Parts(files, codec)[1..] == Parts(files[1..], codec);
      case Err(e) =>
        var k: nat :| FirstBad(files[1..], codec, k) && DecodeOpened(files[1..][k].content, codec).error == e;
        assert files[1..][k] == files[k + 1];
        assert forall i | 0 < i < k + 1 :: files[i] == files[1..][i - 1];
        assert FirstBad(files, codec, k + 1);
    }
  }

  /** What a directory decodes to, for every listing: it does if and only if each of its
      shards does, and then to all their records in the order of the names; otherwise the
      error is that of the first shard by name that does not decode. */
  lemma DirOutcome<K, R>(listing: seq<Listed>, codec: Codec<K, R>)
    ensures var files, r := Sort(ShardsOf(listing)), DecodeFiles(Sort(ShardsOf(listing)), codec);
      && ShardsInOrder(files, listing) && Outcome(files, codec, r)
      && (r.Ok? <==> forall e | e in listing && e.content.Regular? && N.ShardForm(e.name) ::
                       DecodeOpened(e.content.content, codec).Ok?)
  {
    hide DecodeOpened, N.ShardForm, ShardsInOrder, Sort, ShardsOf, DecodeFiles, Concat, Parts;
    var files := Sort(ShardsOf(listing));
    SortedShards(listing);
    FilesOutcome(files, codec);
    if DecodeFiles(files, codec).Ok? {
      forall e | e in listing && e.content.Regular? && N.ShardForm(e.name)
        ensures DecodeOpened(e.content.content, codec).Ok?
      {
        ShardsMember(files, listing, Entry(e.name, e.content.content));
      }
    } else {
      var k: nat :| FirstBad(files, codec, k);
      ShardsMember(files, listing, files[k]);
    }
  }

  // ---------------------------------------------------------------- round trip

  /** What one shard was written from, and the records inside. */
  datatype Written<+R> = Written(name: string, pub: seq<byte>, bodies: seq<seq<byte>>, records: seq<R>)

  ghost predicate Genuine<K, R>(w: Written<R>, codec: Codec<K, R>) {
    && |w.pub| == KEY_BYTES && codec.derive(w.pub).Some?
    && Opens(codec.derive(w.pub).value, codec, w.bodies, w.records)
    && N.LooksLikeShard(w.name)
  }

  ghost predicate AllGenuine<K, R>(ws: seq<Written<R>>, codec: Codec<K, R>) {
    Formed(ws) && forall i | 0 <= i < |ws| :: Genuine(ws[i], codec)
  }

  predicate Formed<R>(ws: seq<Written<R>>) {
    forall i | 0 <= i < |ws| :: |ws[i].pub| == KEY_BYTES && AllStorable(ws[i].bodies)
  }

  function FileOf<R>(w: Written<R>): File
    requires |w.pub| == KEY_BYTES && AllStorable(w.bodies)
  {
    Entry(w.name, Some(ShardFile(w.pub, w.bodies)))
  }

  function FilesOf<R>(ws: seq<Written<R>>): (files: seq<File>)
    requires Formed(ws)
    ensures |files| == |ws| && forall i | 0 <= i < |ws| :: files[i] == FileOf(ws[i])
  {
    seq(|ws|, i requires 0 <= i < |ws| => FileOf(ws[i]))
  }

  function RecordsOf<R>(ws: seq<Written<R>>): seq<R> {
    if ws == [] then [] else ws[0].records + RecordsOf(ws[1..])
  }

  lemma {:induction false} DecodeWritten<K, R>(ws: seq<Written<R>>, codec: Codec<K, R>)
    requires AllGenuine(ws, codec)
    ensures DecodeFiles(FilesOf(ws), codec) == Ok(RecordsOf(ws))
  {
    if ws != [] {
      var w := ws[0];
      assert Genuine(w, codec);
      var whole := ShardFile(w.pub, w.bodies);
      PrefixDecodesIff(w.pub, codec, w.bodies, w.records, |whole|);
      assert whole[..|whole|] == whole;
      DecodeWritten(ws[1..], codec);
      assert FilesOf(ws)[1..] == FilesOf(ws[1..]);
    }
  }

  /** The directory holds these shards, whatever else lies beside them and in whatever
      order it lists them: it decodes to their records in the order of the names. */
  lemma DirRoundTrip<K, R>(listing: seq<Listed>, ws: seq<Written<R>>, codec: Codec<K, R>)
    requires AllGenuine(ws, codec)
    requires Ascending(FilesOf(ws)) && multiset(ShardsOf(listing)) == multiset(FilesOf(ws))
    ensures DecodeFiles(Sort(ShardsOf(listing)), codec) == Ok(RecordsOf(ws))
  {
    SortRestores(ShardsOf(listing), FilesOf(ws));
    DecodeWritten(ws, codec);
  }
}
