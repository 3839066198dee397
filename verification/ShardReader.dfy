/** The audit side: from the bytes of a shard file back to its records. */
module ShardReader {
  import opened Bytes
  import opened Framing
  import opened ShardFormat
  import opened Wrappers

  datatype Error =
    | CannotOpen | ShortHeader | MagicMismatch | UnsupportedAlgo(id: nat) | KeyRefused
    | TruncatedLength | FrameTooSmall | ShortBody | DecryptRefused | DecompressRefused | ParseRefused

  datatype Result<+T> = Ok(value: T) | Err(error: Error)

  /** What the libraries do: the key that a server private key and a client public key agree
      on, the plaintext of an encrypted body, the bytes that zlib packed, and the record in a
      protobuf message. */
  datatype Codec<!K, !R> = Codec(derive: seq<byte> -> Option<K>, decrypt: (K, seq<byte>) -> Option<seq<byte>>,
                                 decompress: seq<byte> -> Option<seq<byte>>, parse: seq<byte> -> Option<R>)
  {
    /** From an encrypted body to its record. */
    function Open(key: K, body: seq<byte>): Result<R> {
      match decrypt(key, body)
      case None => Err(DecryptRefused)
      case Some(compressed) =>
        match decompress(compressed)
        case None => Err(DecompressRefused)
        case Some(proto) => match parse(proto) case None => Err(ParseRefused) case Some(r) => Ok(r)
    }
  }

  datatype ShardHeader = ShardHeader(algoId: nat, clientPub: seq<byte>)

  function ParseHeader(hdr: seq<byte>): Result<ShardHeader> {
    if |hdr| != HEADER_BYTES then Err(ShortHeader)
    else if hdr[..8] != MAGIC then Err(MagicMismatch)
    else if DecodeU32(hdr[8..12]) != ALGO_ID then Err(UnsupportedAlgo(DecodeU32(hdr[8..12])))
    else Ok(ShardHeader(DecodeU32(hdr[8..12]), hdr[12..44]))
  }

  function Prepend<R>(rs: seq<R>, rest: Result<seq<R>>): Result<seq<R>> {
    match rest case Ok(more) => Ok(rs + more) case Err(e) => Err(e)
  }

  function DecodeFrames<K, R>(bytes: seq<byte>, key: K, codec: Codec<K, R>): Result<seq<R>>
    decreases |bytes|
  {
    if bytes == [] then Ok([])
    else if |bytes| < 4 then Err(TruncatedLength)
    else
      var flen := DecodeU32(bytes[..4]);
      if flen < FRAME_MIN_BYTES then Err(FrameTooSmall)
      else if 4 + flen > |bytes| then Err(ShortBody)
      else match codec.Open(key, bytes[4..4 + flen])
        case Err(e) => Err(e)
        case Ok(r) => Prepend([r], DecodeFrames(bytes[4 + flen..], key, codec))
  }

  function DecodeFile<K, R>(bytes: seq<byte>, codec: Codec<K, R>): Result<seq<R>> {
    if |bytes| < HEADER_BYTES then Err(ShortHeader)
    else match ParseHeader(bytes[..HEADER_BYTES])
      case Err(e) => Err(e)
      case Ok(h) => match codec.derive(h.clientPub)
        case None => Err(KeyRefused)
        case Some(key) => DecodeFrames(bytes[HEADER_BYTES..], key, codec)
  }

  /** `None` for a file that cannot be opened. */
  function DecodeOpened<K, R>(file: Option<seq<byte>>, codec: Codec<K, R>): Result<seq<R>> {
    match file case None => Err(CannotOpen) case Some(bytes) => DecodeFile(bytes, codec)
  }

  // ------------------------------------------------------------- as the code runs

  /** The input stream: `Read` is `read` and `gcount` together. */
  class ByteStream {
    const data: seq<byte>
    var pos: nat

    constructor (data: seq<byte>)
      ensures this.data == data && pos == 0
    {
      this.data := data;
      pos := 0;
    }

    method Read(n: nat) returns (chunk: seq<byte>)
      requires pos <= |data|
      modifies this
      ensures pos == old(pos) + |chunk| <= |data| && chunk == data[old(pos)..pos]
      ensures |chunk| == if |data| - old(pos) < n then |data| - old(pos) else n
    {
      var stop := if |data| - pos < n then |data| else pos + n;
      chunk := data[pos..stop];
      pos := stop;
    }
  }

  method ReadShardHeader(input: ByteStream) returns (r: Result<ShardHeader>)
    requires input.pos == 0
    modifies input
    ensures if |input.data| < HEADER_BYTES then r == Err(ShortHeader)
            else input.pos == HEADER_BYTES && r == ParseHeader(input.data[..HEADER_BYTES])
    ensures input.pos <= |input.data|
    ensures r == Err(ShortHeader) <==> |input.data| < 48
    ensures r == Err(MagicMismatch) <==>
      |input.data| >= 48 && input.data[..8] != [0x4C, 0x47, 0x52, 0x48, 1, 0, 0, 0]
    ensures r.Ok? <==> |input.data| >= 48 && input.data[..12] == [0x4C, 0x47, 0x52, 0x48, 1, 0, 0, 0, 1, 0, 0, 0]
    ensures r.Ok? ==> r.value == ShardHeader(1, input.data[12..44])
  {
    hide Number, DecodeU32;
    if |input.data| >= 48 { HeaderOutcome(input.data); }
    var hdr := input.Read(HEADER_BYTES);
    if |hdr| != HEADER_BYTES {
      return Err(ShortHeader);
    }
    if hdr[..8] != MAGIC {
      return Err(MagicMismatch);
    }
    var algoId := DecodeU32(hdr[8..12]);
    if algoId != ALGO_ID {
      return Err(UnsupportedAlgo(algoId));
    }
    return Ok(ShardHeader(algoId, hdr[12..44]));
  }

  method DecodeShardFile<K, R>(file: Option<seq<byte>>, codec: Codec<K, R>) returns (r: Result<seq<R>>)
    ensures r == DecodeOpened(file, codec)
    ensures r == Err(CannotOpen) <==> file.None?
    ensures r.Ok? ==>
      && file.Some? && |file.value| >= 48
      && file.value[..12] == [0x4C, 0x47, 0x52, 0x48, 1, 0, 0, 0, 1, 0, 0, 0]
      && codec.derive(file.value[12..44]).Some?
  {
    hide Number, DecodeFrames, DecodeU32, ParseHeader;
    HeaderErrorsIff(file, codec);
    if file.None? {
      return Err(CannotOpen);
    }
    var bytes := file.value;
    var input := new ByteStream(bytes);
    var hdr := ReadShardHeader(input);
    if hdr.Err? {
      return Err(hdr.error);
    }
    var derived := codec.derive(hdr.value.clientPub);
    if derived.None? {
      return Err(KeyRefused);
    }
    r := DecodeStream(input, derived.value, codec);
  }

  /** The loop over the frames behind the header. */
  method DecodeStream<K, R>(input: ByteStream, key: K, codec: Codec<K, R>) returns (r: Result<seq<R>>)
    requires input.pos <= |input.data|
    modifies input
    ensures r == DecodeFrames(old(input.data[input.pos..]), key, codec)
  {
    hide DecodeFrames, DecodeU32;
    var records := [];
    ghost var frames := input.data[input.pos..];
    PrependNothing(DecodeFrames(frames, key, codec));
    while true
      invariant input.pos <= |input.data|
      invariant Prepend(records, DecodeFrames(input.data[input.pos..], key, codec)) == DecodeFrames(frames, key, codec)
      decreases |input.data| - input.pos
    {
      ghost var rest := input.data[input.pos..];
      DecodeRound(rest, key, codec);
      var lenbuf := input.Read(4);
      if lenbuf == [] {
        assert rest == [] && records + [] == records;
        return Ok(records);
      }
      if |lenbuf| != 4 {
        return Err(TruncatedLength);
      }
      assert lenbuf == rest[..4];
      var flen := DecodeU32(lenbuf);
      if flen < FRAME_MIN_BYTES {
        return Err(FrameTooSmall);
      }
      var encrypted := input.Read(flen);
      if |encrypted| != flen {
        return Err(ShortBody);
      }
      assert encrypted == rest[4..4 + flen];
      assert input.data[input.pos..] == rest[4 + flen..];
      var compressed := codec.decrypt(key, encrypted);
      if compressed.None? {
        return Err(DecryptRefused);
      }
      var proto := codec.decompress(compressed.value);
      if proto.None? {
        return Err(DecompressRefused);
      }
      var rec := codec.parse(proto.value);
      if rec.None? {
        return Err(ParseRefused);
      }
      PrependAppend(records, [rec.value], DecodeFrames(rest[4 + flen..], key, codec));
      records := records + [rec.value];
    }
  }

  /** One round of the decoding. */
  lemma DecodeRound<K, R>(bytes: seq<byte>, key: K, codec: Codec<K, R>)
    ensures bytes == [] ==> DecodeFrames(bytes, key, codec) == Ok([])
    ensures 0 < |bytes| < 4 ==> DecodeFrames(bytes, key, codec) == Err(TruncatedLength)
    ensures |bytes| >= 4 ==>
      var flen := DecodeU32(bytes[..4]);
      DecodeFrames(bytes, key, codec) ==
        if flen < FRAME_MIN_BYTES then Err(FrameTooSmall) else if 4 + flen > |bytes| then Err(ShortBody)
        else match codec.Open(key, bytes[4..4 + flen])
          case Err(e) => Err(e)
          case Ok(r) => Prepend([r], DecodeFrames(bytes[4 + flen..], key, codec))
  {}

  lemma PrependNothing<R>(rest: Result<seq<R>>)
    ensures Prepend([], rest) == rest
  {
    if rest.Ok? { assert [] + rest.value == rest.value; }
  }

  lemma PrependAppend<R>(a: seq<R>, b: seq<R>, rest: Result<seq<R>>)
    ensures Prepend(a, Prepend(b, rest)) == Prepend(a + b, rest)
  {
    if rest.Ok? { assert a + (b + rest.value) == a + b + rest.value; }
  }

  // ------------------------------------------------- against what the writer wrote

  /** These bodies hold these records under `key`. */
  ghost predicate Opens<K, R>(key: K, codec: Codec<K, R>, bodies: seq<seq<byte>>, records: seq<R>) {
    && AllReadable(bodies) && AllStorable(bodies) && |bodies| == |records|
    && forall i :: 0 <= i < |bodies| ==> codec.Open(key, bodies[i]) == Ok(records[i])
  }

  lemma DecodeImage<K, R>(key: K, codec: Codec<K, R>, body: seq<byte>, tail: seq<byte>)
    requires Readable(body) && codec.Open(key, body).Ok?
    ensures DecodeFrames(Image(body) + tail, key, codec)
         == Prepend([codec.Open(key, body).value], DecodeFrames(tail, key, codec))
  {
    var bytes := Image(body) + tail;
    assert bytes[..4] == EncodeU32(|body|);
    DecodeEncodeU32(|body|);
    assert bytes[4..4 + |body|] == body && bytes[4 + |body|..] == tail;
  }

  lemma {:induction false} DecodeTiles<K, R>(key: K, codec: Codec<K, R>, bodies: seq<seq<byte>>, records: seq<R>, tail: seq<byte>)
    requires Opens(key, codec, bodies, records)
    ensures DecodeFrames(Tiles(bodies) + tail, key, codec) == Prepend(records, DecodeFrames(tail, key, codec))
    decreases |bodies|
  {
    hide EncodeU32, Image;
    if bodies == [] {
      assert Tiles(bodies) + tail == tail;
      PrependNothing(DecodeFrames(tail, key, codec));
      assert records == [];
    } else {
      var rest := Tiles(bodies[1..]) + tail;
      assert Tiles(bodies) + tail == Image(bodies[0]) + rest;
      DecodeImage(key, codec, bodies[0], rest);
      DecodeTiles(key, codec, bodies[1..], records[1..], tail);
      PrependAppend([records[0]], records[1..], DecodeFrames(tail, key, codec));
      assert [records[0]] + records[1..] == records;
    }
  }

  /** A frame cut short is refused: in its prefix, or in its body. */
  lemma DecodePartial<K, R>(key: K, codec: Codec<K, R>, body: seq<byte>, left: nat)
    requires Readable(body) && 0 < left < 4 + |body|
    ensures DecodeFrames(Image(body)[..left], key, codec) == Err(if left < 4 then TruncatedLength else ShortBody)
  {
    if left >= 4 {
      assert Image(body)[..left][..4] == EncodeU32(|body|);
      DecodeEncodeU32(|body|);
    }
  }

  /** The bytes of the first `j` frames. */
  function Offset(bodies: seq<seq<byte>>, j: nat): nat
    requires AllStorable(bodies) && j <= |bodies|
  {
    |Tiles(bodies[..j])|
  }

  lemma {:induction false} TilesSplit(bodies: seq<seq<byte>>, j: nat)
    requires AllStorable(bodies) && j <= |bodies|
    ensures Tiles(bodies) == Tiles(bodies[..j]) + Tiles(bodies[j..])
    decreases j
  {
    hide EncodeU32, Image, Storable;
    if j == 0 {
      assert bodies[0..] == bodies && bodies[..0] == [];
      assert Tiles(bodies[..0]) == [];
    } else {
      TilesSplit(bodies[1..], j - 1);
      assert bodies[..j][1..] == bodies[1..][..j - 1] && bodies[1..][j - 1..] == bodies[j..];
    }
  }

  lemma TilesHead(bodies: seq<seq<byte>>, j: nat)
    requires AllStorable(bodies) && j < |bodies|
    ensures Tiles(bodies[j..]) == Image(bodies[j]) + Tiles(bodies[j + 1..])
  {
    assert bodies[j..][1..] == bodies[j + 1..];
  }

  /** Every length up to the whole lies within some frame, or just before it. */
  lemma {:induction false} CutPoint(bodies: seq<seq<byte>>, n: nat) returns (j: nat, left: nat)
    requires AllStorable(bodies) && n <= |Tiles(bodies)|
    ensures j <= |bodies| && (if j < |bodies| then left < 4 + |bodies[j]| else left == 0)
    ensures n == Offset(bodies, j) + left
  {
    if bodies == [] || n < 4 + |bodies[0]| {
      j, left := 0, n;
    } else {
      var i;
      i, left := CutPoint(bodies[1..], n - (4 + |bodies[0]|));
      j := i + 1;
      assert bodies[..j][1..] == bodies[1..][..i];
    }
  }

  function ShardFile(pub: seq<byte>, bodies: seq<seq<byte>>): seq<byte>
    requires |pub| == KEY_BYTES && AllStorable(bodies)
  {
    Header(pub) + Tiles(bodies)
  }

  lemma HeaderParses(pub: seq<byte>)
    requires |pub| == KEY_BYTES
    ensures ParseHeader(Header(pub)) == Ok(ShardHeader(ALGO_ID, pub))
  {
    var hdr := Header(pub);
    assert hdr[..8] == MAGIC && hdr[8..12] == EncodeU32(ALGO_ID) && hdr[12..44] == pub;
    DecodeEncodeU32(ALGO_ID);
  }

  lemma DecodeBehindHeader<K, R>(pub: seq<byte>, tail: seq<byte>, codec: Codec<K, R>)
    requires |pub| == KEY_BYTES && codec.derive(pub).Some?
    ensures DecodeFile(Header(pub) + tail, codec) == DecodeFrames(tail, codec.derive(pub).value, codec)
  {
    var bytes := Header(pub) + tail;
    assert bytes[..HEADER_BYTES] == Header(pub) && bytes[HEADER_BYTES..] == tail;
    HeaderParses(pub);
  }

  /** A shard cut `left` bytes into its frame `j`: whole frames decode, a torn one is
      an error that says where the tear is. */
  lemma CutDecodes<K, R>(pub: seq<byte>, codec: Codec<K, R>, bodies: seq<seq<byte>>, records: seq<R>, j: nat, left: nat)
    requires |pub| == KEY_BYTES && codec.derive(pub).Some? && Opens(codec.derive(pub).value, codec, bodies, records)
    requires j <= |bodies| && if j < |bodies| then left < 4 + |bodies[j]| else left == 0
    ensures HEADER_BYTES + Offset(bodies, j) + left <= |ShardFile(pub, bodies)|
    ensures DecodeFile(ShardFile(pub, bodies)[..HEADER_BYTES + Offset(bodies, j) + left], codec)
         == if left == 0 then Ok(records[..j]) else Err(if left < 4 then TruncatedLength else ShortBody)
  {
    var key, head := codec.derive(pub).value, Tiles(bodies[..j]);
    TilesSplit(bodies, j);
    var tail := Tiles(bodies[j..])[..left] by { if j < |bodies| { TilesHead(bodies, j); } }
    assert ShardFile(pub, bodies)[..HEADER_BYTES + Offset(bodies, j) + left] == Header(pub) + (head + tail);
    DecodeBehindHeader(pub, head + tail, codec);
    DecodeTiles(key, codec, bodies[..j], records[..j], tail);
    if left > 0 {
      TilesHead(bodies, j);
      assert tail == Image(bodies[j])[..left];
      DecodePartial(key, codec, bodies[j], left);
    } else {
      assert records[..j] + [] == records[..j];
    }
  }

  /** Exact prefix decoding: a shard cut to `n` bytes decodes exactly when the cut is at
      a frame boundary, and then to the records before it. */
  lemma PrefixDecodesIff<K, R>(pub: seq<byte>, codec: Codec<K, R>, bodies: seq<seq<byte>>, records: seq<R>, n: nat)
    requires |pub| == KEY_BYTES && codec.derive(pub).Some? && Opens(codec.derive(pub).value, codec, bodies, records)
    requires n <= |ShardFile(pub, bodies)|
    ensures var r := DecodeFile(ShardFile(pub, bodies)[..n], codec);
      && (r.Ok? <==> exists j :: 0 <= j <= |bodies| && n == HEADER_BYTES + Offset(bodies, j))
      && (r.Ok? ==> r.value <= records)
      && (n < HEADER_BYTES ==> r == Err(ShortHeader))
      && (n == |ShardFile(pub, bodies)| ==> r == Ok(records))
  {
    hide Header, DecodeFrames, ParseHeader, Image;
    if n >= HEADER_BYTES {
      var j, left := CutPoint(bodies, n - HEADER_BYTES);
      CutDecodes(pub, codec, bodies, records, j, left);
      if i :| 0 <= i <= |bodies| && n == HEADER_BYTES + Offset(bodies, i) {
        CutDecodes(pub, codec, bodies, records, i, 0);
      }
    }
    if n == |ShardFile(pub, bodies)| {
      assert bodies[..|bodies|] == bodies && records[..|records|] == records;
      CutDecodes(pub, codec, bodies, records, |bodies|, 0);
    }
  }

  lemma FrameSplits(bytes: seq<byte>)
    requires |bytes| >= 4 && FRAME_MIN_BYTES <= DecodeU32(bytes[..4]) <= |bytes| - 4
    ensures var body := bytes[4..4 + DecodeU32(bytes[..4])];
      Readable(body) && bytes == Image(body) + bytes[4 + DecodeU32(bytes[..4])..]
  {
    hide DecodeU32, EncodeU32;
    EncodeDecodeU32(bytes[..4]);
  }

  lemma OpensCons<K, R>(key: K, codec: Codec<K, R>, body: seq<byte>, r: R, bodies: seq<seq<byte>>, rs: seq<R>, tail: seq<byte>)
    requires Readable(body) && codec.Open(key, body) == Ok(r) && Opens(key, codec, bodies, rs)
    ensures Opens(key, codec, [body] + bodies, [r] + rs)
    ensures Tiles([body] + bodies) + tail == Image(body) + (Tiles(bodies) + tail)
  {
    hide Image, EncodeU32, codec.Open;
    assert ([body] + bodies)[1..] == bodies;
  }

  /** Nothing else is accepted: bytes that decode are the frames of readable bodies that
      open to the records returned. */
  lemma {:induction false} DecodedAreFrames<K, R>(bytes: seq<byte>, key: K, codec: Codec<K, R>) returns (bodies: seq<seq<byte>>)
    requires DecodeFrames(bytes, key, codec).Ok?
    ensures Opens(key, codec, bodies, DecodeFrames(bytes, key, codec).value) && bytes == Tiles(bodies)
    decreases |bytes|
  {
    hide DecodeFrames, DecodeU32, EncodeU32, Image, codec.Open;
    DecodeRound(bytes, key, codec);
    if bytes == [] {
      bodies := [];
    } else {
      var flen := DecodeU32(bytes[..4]);
      var body, tail := bytes[4..4 + flen], bytes[4 + flen..];
      var rest := DecodedAreFrames(tail, key, codec);
      bodies := [body] + rest;
      FrameSplits(bytes);
      OpensCons(key, codec, body, codec.Open(key, body).value, rest, DecodeFrames(tail, key, codec).value, []);
      assert Tiles(bodies) + [] == Tiles(bodies) && tail + [] == tail;
    }
  }

  // -------------------------------------------------- exactly which files are accepted

  /** The header of a shard, byte by byte. */
  predicate GenuineHeader(bytes: seq<byte>) {
    |bytes| >= 48 && bytes[..12] == [0x4C, 0x47, 0x52, 0x48, 1, 0, 0, 0, 1, 0, 0, 0]
  }

  /** Four bytes as a number, the lowest first. */
  function Number(b0: byte, b1: byte, b2: byte, b3: byte): nat {
    b0 as nat + 0x100 * b1 as nat + 0x1_0000 * b2 as nat + 0x100_0000 * b3 as nat
  }

  lemma HeaderBytes(hdr: seq<byte>)
    requires |hdr| == HEADER_BYTES
    ensures ParseHeader(hdr) ==
      if hdr[..8] != [0x4C, 0x47, 0x52, 0x48, 1, 0, 0, 0] then Err(MagicMismatch)
      else if Number(hdr[8], hdr[9], hdr[10], hdr[11]) != 1 then Err(UnsupportedAlgo(Number(hdr[8], hdr[9], hdr[10], hdr[11])))
      else Ok(ShardHeader(1, hdr[12..44]))
  {
    assert hdr[8..12] == [hdr[8], hdr[9], hdr[10], hdr[11]];
  }

  lemma AlgoBytes(bytes: seq<byte>)
    requires |bytes| >= 48 && bytes[..8] == [0x4C, 0x47, 0x52, 0x48, 1, 0, 0, 0]
    ensures GenuineHeader(bytes) <==> Number(bytes[8], bytes[9], bytes[10], bytes[11]) == 1
  {
    assert bytes[..12] == bytes[..8] + [bytes[8], bytes[9], bytes[10], bytes[11]];
    if GenuineHeader(bytes) {
      assert forall i | 0 <= i < 12 :: bytes[i] == bytes[..12][i];
    }
  }

  lemma HeaderOutcome(bytes: seq<byte>)
    requires |bytes| >= 48
    ensures ParseHeader(bytes[..48]) ==
      if bytes[..8] != [0x4C, 0x47, 0x52, 0x48, 1, 0, 0, 0] then Err(MagicMismatch)
      else if !GenuineHeader(bytes) then Err(UnsupportedAlgo(Number(bytes[8], bytes[9], bytes[10], bytes[11])))
      else Ok(ShardHeader(1, bytes[12..44]))
    ensures GenuineHeader(bytes) ==> bytes[..8] == [0x4C, 0x47, 0x52, 0x48, 1, 0, 0, 0]
  {
    hide ParseHeader, Number;
    var hdr := bytes[..48];
    HeaderBytes(hdr);
    PrefixOf(bytes);
    assert hdr[..8] == bytes[..8] && hdr[12..44] == bytes[12..44];
    if bytes[..8] == [0x4C, 0x47, 0x52, 0x48, 1, 0, 0, 0] { AlgoBytes(bytes); }
  }

  lemma FileSplits<K, R>(bytes: seq<byte>, codec: Codec<K, R>)
    requires |bytes| >= 48
    ensures DecodeFile(bytes, codec) ==
      if bytes[..8] != [0x4C, 0x47, 0x52, 0x48, 1, 0, 0, 0] then Err(MagicMismatch)
      else if Number(bytes[8], bytes[9], bytes[10], bytes[11]) != 1
        then Err(UnsupportedAlgo(Number(bytes[8], bytes[9], bytes[10], bytes[11])))
      else match codec.derive(bytes[12..44])
        case None => Err(KeyRefused)
        case Some(key) => DecodeFrames(bytes[48..], key, codec)
  {
    hide DecodeFrames, ParseHeader, Number;
    var hdr := bytes[..48];
    HeaderBytes(hdr);
    assert hdr[..8] == bytes[..8] && hdr[12..44] == bytes[12..44];
  }

  predicate OfHeader(e: Error) {
    e.CannotOpen? || e.ShortHeader? || e.MagicMismatch? || e.UnsupportedAlgo? || e.KeyRefused?
  }

  lemma {:induction false} FrameErrorsOnly<K, R>(bytes: seq<byte>, key: K, codec: Codec<K, R>)
    requires DecodeFrames(bytes, key, codec).Err?
    ensures !OfHeader(DecodeFrames(bytes, key, codec).error)
    decreases |bytes|
  {
    if |bytes| >= 4 {
      var flen := DecodeU32(bytes[..4]);
      if 28 <= flen && 4 + flen <= |bytes| && codec.Open(key, bytes[4..4 + flen]).Ok? {
        FrameErrorsOnly(bytes[4 + flen..], key, codec);
      }
    }
  }

  /** When each error of the open and the header arises, for every file. */
  lemma HeaderErrorsIff<K, R>(file: Option<seq<byte>>, codec: Codec<K, R>)
    ensures var r := DecodeOpened(file, codec);
      && (r == Err(CannotOpen) <==> file.None?)
      && (r == Err(ShortHeader) <==> file.Some? && |file.value| < 48)
      && (r == Err(MagicMismatch) <==>
            file.Some? && |file.value| >= 48 && file.value[..8] != [0x4C, 0x47, 0x52, 0x48, 1, 0, 0, 0])
      && (r.Err? && r.error.UnsupportedAlgo? <==>
            && file.Some? && |file.value| >= 48 && file.value[..8] == [0x4C, 0x47, 0x52, 0x48, 1, 0, 0, 0]
            && !GenuineHeader(file.value))
      && (r.Err? && r.error.UnsupportedAlgo? ==>
            r.error.id == Number(file.value[8], file.value[9], file.value[10], file.value[11]) != 1)
      && (r == Err(KeyRefused) <==>
            file.Some? && GenuineHeader(file.value) && codec.derive(file.value[12..44]).None?)
  {
    hide DecodeFrames, DecodeFile, Number;
    if file.Some? && |file.value| >= 48 {
      var bytes := file.value;
      FileSplits(bytes, codec);
      PrefixOf(bytes);
      if bytes[..8] == [0x4C, 0x47, 0x52, 0x48, 1, 0, 0, 0] { AlgoBytes(bytes); }
      match codec.derive(bytes[12..44])
      case None =>
      case Some(key) => if DecodeFrames(bytes[48..], key, codec).Err? { FrameErrorsOnly(bytes[48..], key, codec); }
    } else if file.Some? {
      ShortFile(file.value, codec);
    }
  }

  lemma PrefixOf(bytes: seq<byte>)
    requires |bytes| >= 48
    ensures GenuineHeader(bytes) ==> bytes[..8] == [0x4C, 0x47, 0x52, 0x48, 1, 0, 0, 0]
  {
    assert bytes[..8] == bytes[..12][..8];
  }

  lemma ShortFile<K, R>(bytes: seq<byte>, codec: Codec<K, R>)
    requires |bytes| < 48
    ensures DecodeFile(bytes, codec) == Err(ShortHeader)
  {}

  /** A body of 28 bytes or more that decrypts, decompresses and parses to `r`. */
  predicate Yields<K, R(==)>(codec: Codec<K, R>, key: K, body: seq<byte>, r: R) {
    && 28 <= |body| < 0x1_0000_0000
    && codec.decrypt(key, body).Some?
    && codec.decompress(codec.decrypt(key, body).value).Some?
    && codec.parse(codec.decompress(codec.decrypt(key, body).value).value) == Some(r)
  }

  /** The frames of these bodies, each behind its length. */
  ghost predicate FramesOf(bytes: seq<byte>, bodies: seq<seq<byte>>) {
    AllStorable(bodies) && bytes == Tiles(bodies)
  }

  lemma YieldsIffOpens<K, R>(codec: Codec<K, R>, key: K, body: seq<byte>, r: R)
    ensures Yields(codec, key, body, r) <==> Readable(body) && codec.Open(key, body) == Ok(r)
  {}

  /** Exactly which files decode, and to what: an open file with a genuine header and an
      agreed key, and behind the header nothing but whole frames whose bodies yield the
      records. */
  lemma FileDecodesIff<K, R>(file: Option<seq<byte>>, codec: Codec<K, R>, rs: seq<R>)
    ensures DecodeOpened(file, codec) == Ok(rs) <==>
      && file.Some? && GenuineHeader(file.value) && codec.derive(file.value[12..44]).Some?
      && exists bodies ::
           && FramesOf(file.value[48..], bodies) && |bodies| == |rs|
           && forall i | 0 <= i < |rs| :: Yields(codec, codec.derive(file.value[12..44]).value, bodies[i], rs[i])
  {
    hide DecodeFrames, DecodeFile;
    HeaderErrorsIff(file, codec);
    if file.Some? && GenuineHeader(file.value) && codec.derive(file.value[12..44]).Some? {
      var bytes, key := file.value, codec.derive(file.value[12..44]).value;
      LongEnough(bytes);
      FileSplits(bytes, codec);
      AlgoBytes(bytes);
      FramesDecodeIff(bytes[48..], key, codec, rs);
    }
  }

  lemma LongEnough(bytes: seq<byte>)
    requires GenuineHeader(bytes)
    ensures |bytes| >= 48 && bytes[..8] == [0x4C, 0x47, 0x52, 0x48, 1, 0, 0, 0]
  {
    PrefixOf(bytes);
  }

  lemma FramesDecodeIff<K, R>(bytes: seq<byte>, key: K, codec: Codec<K, R>, rs: seq<R>)
    ensures DecodeFrames(bytes, key, codec) == Ok(rs) <==>
      exists bodies :: FramesOf(bytes, bodies) && |bodies| == |rs| && forall i | 0 <= i < |rs| :: Yields(codec, key, bodies[i], rs[i])
  {
    hide DecodeFrames, Yields;
    if DecodeFrames(bytes, key, codec) == Ok(rs) {
      var bodies := DecodedAreFrames(bytes, key, codec);
      forall i | 0 <= i < |rs|
        ensures Yields(codec, key, bodies[i], rs[i])
      {
        YieldsIffOpens(codec, key, bodies[i], rs[i]);
      }
      assert FramesOf(bytes, bodies);
    }
    if bodies :| FramesOf(bytes, bodies) && |bodies| == |rs| && forall i | 0 <= i < |rs| :: Yields(codec, key, bodies[i], rs[i]) {
      forall i | 0 <= i < |bodies|
        ensures Readable(bodies[i]) && codec.Open(key, bodies[i]) == Ok(rs[i])
      {
        YieldsIffOpens(codec, key, bodies[i], rs[i]);
      }
      DecodeTiles(key, codec, bodies, rs, []);
      assert Tiles(bodies) + [] == bytes && rs + [] == rs;
      NothingDecodes(key, codec);
    }
  }

  lemma NothingDecodes<K, R>(key: K, codec: Codec<K, R>)
    ensures DecodeFrames([], key, codec) == Ok([])
  {}

  /** What stops the decoding at the head of `tail`. */
  predicate Defect<K, R>(tail: seq<byte>, key: K, codec: Codec<K, R>, e: Error) {
    if |tail| < 4 then e == TruncatedLength && tail != []
    else
      var len := Number(tail[0], tail[1], tail[2], tail[3]);
      if len < 28 then e == FrameTooSmall
      else if |tail| < 4 + len then e == ShortBody
      else match codec.decrypt(key, tail[4..4 + len])
        case None => e == DecryptRefused
        case Some(c) => match codec.decompress(c)
          case None => e == DecompressRefused
          case Some(p) => codec.parse(p).None? && e == ParseRefused
  }

  lemma DefectHere<K, R>(tail: seq<byte>, key: K, codec: Codec<K, R>, e: Error)
    requires Defect(tail, key, codec, e)
    ensures DecodeFrames(tail, key, codec) == Err(e)
  {
    if |tail| >= 4 { assert tail[..4] == [tail[0], tail[1], tail[2], tail[3]]; }
  }

  /** A file whose frames are refused is refused for the first frame that is not in order,
      and for what is wrong with it; all frames before are in order. */
  lemma {:induction false} FirstDefect<K, R>(bytes: seq<byte>, key: K, codec: Codec<K, R>)
    returns (bodies: seq<seq<byte>>, rs: seq<R>, tail: seq<byte>)
    requires DecodeFrames(bytes, key, codec).Err?
    ensures Opens(key, codec, bodies, rs) && bytes == Tiles(bodies) + tail
    ensures Defect(tail, key, codec, DecodeFrames(bytes, key, codec).error)
    decreases |bytes|
  {
    hide DecodeFrames, DecodeU32, EncodeU32, Image, codec.Open, Defect;
    DecodeRound(bytes, key, codec);
    if |bytes| >= 4 && FRAME_MIN_BYTES <= DecodeU32(bytes[..4]) <= |bytes| - 4
       && codec.Open(key, bytes[4..4 + DecodeU32(bytes[..4])]).Ok? {
      var flen := DecodeU32(bytes[..4]);
      var body, rest := bytes[4..4 + flen], bytes[4 + flen..];
      var bs, more;
      bs, more, tail := FirstDefect(rest, key, codec);
      bodies, rs := [body] + bs, [codec.Open(key, body).value] + more;
      FrameSplits(bytes);
      OpensCons(key, codec, body, codec.Open(key, body).value, bs, more, tail);
    } else {
      bodies, rs, tail := [], [], bytes;
      assert Tiles([]) + bytes == bytes;
      NotOpened(bytes, key, codec);
    }
  }

  /** A head that is no whole frame, or does not open, is a defect, and decides. */
  lemma NotOpened<K, R>(bytes: seq<byte>, key: K, codec: Codec<K, R>)
    requires bytes != [] && !(|bytes| >= 4 && FRAME_MIN_BYTES <= DecodeU32(bytes[..4]) <= |bytes| - 4
                              && codec.Open(key, bytes[4..4 + DecodeU32(bytes[..4])]).Ok?)
    ensures DecodeFrames(bytes, key, codec).Err? && Defect(bytes, key, codec, DecodeFrames(bytes, key, codec).error)
  {
    if |bytes| >= 4 { assert bytes[..4] == [bytes[0], bytes[1], bytes[2], bytes[3]]; }
  }

  lemma DefectDecides<K, R>(bodies: seq<seq<byte>>, rs: seq<R>, tail: seq<byte>, key: K, codec: Codec<K, R>, e: Error)
    requires Opens(key, codec, bodies, rs) && Defect(tail, key, codec, e)
    ensures DecodeFrames(Tiles(bodies) + tail, key, codec) == Err(e)
  {
    hide DecodeFrames, Defect;
    DefectHere(tail, key, codec, e);
    DecodeTiles(key, codec, bodies, rs, tail);
  }
}
