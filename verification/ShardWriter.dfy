/** `ShardWriter`: the open shard, its rotation, and the directory it writes into. */
module ShardWriter {
  import opened Bytes
  import opened ShardFormat
  import opened ShardPacking
  import opened ShardName

  /** The log directory. Opening a file for writing truncates it. */
  class Directory {
    var files: map<string, seq<byte>>
    constructor ()
      ensures files == map[]
    {
      files := map[];
    }
  }

  function FileBytes(pub: seq<byte>, shard: Shard): seq<byte>
    requires |pub| == KEY_BYTES
  {
    Header(pub) + Join(shard)
  }

  lemma {:induction false} JoinLoad(shard: Shard)
    ensures |Join(shard)| == Load(shard)
  {
    if shard != [] { JoinLoad(shard[1..]); }
  }

  /** The name issued as number `k`, with the 32-bit counter. */
  function NameAt(stamps: seq<Stamp>, k: nat): string
    requires k < |stamps|
  {
    Name(stamps[k], k % U32_LIMIT)
  }

  ghost predicate Clocked(stamps: seq<Stamp>) {
    forall i | 0 <= i < |stamps| :: InRange(stamps[i])
  }

  /** No name comes twice before the counter wraps. */
  lemma NamesUnique(stamps: seq<Stamp>, i: nat, j: nat)
    requires Clocked(stamps) && i < j < |stamps| <= U32_LIMIT
    ensures NameAt(stamps, i) != NameAt(stamps, j)
  {
    hide Name, InRange;
    NamesDiffer(stamps[i], i, stamps[j], j);
  }

  /** Name `j` comes after name `i` in time, or in the same millisecond by its number. */
  predicate Follows(stamps: seq<Stamp>, i: nat, j: nat)
    requires i < j < |stamps|
  {
    Earlier(stamps[i], stamps[j]) || (stamps[i] == stamps[j] && PrintedInOrder(i, j))
  }

  /** Before the counter wraps, the order of a sorted listing is the order of writing
      exactly when each name follows the earlier ones. */
  lemma NamesInOrderIff(stamps: seq<Stamp>, i: nat, j: nat)
    requires Clocked(stamps) && i < j < |stamps| <= U32_LIMIT
    ensures Less(NameAt(stamps, i), NameAt(stamps, j)) <==> Follows(stamps, i, j)
  {
    hide Name, InRange, Earlier, Less, PrintedInOrder;
    NamesAscendIff(stamps[i], i, stamps[j], j);
  }

  /** So they do if the clock does not go back, and the numbers of one millisecond are
      below 10000 or equally long. */
  lemma EnoughToFollow(stamps: seq<Stamp>, i: nat, j: nat)
    requires i < j < |stamps| && (stamps[i] == stamps[j] || Earlier(stamps[i], stamps[j]))
    requires stamps[i] == stamps[j] ==> j < 10000 || Digits(i) == Digits(j)
    ensures Follows(stamps, i, j)
  {
    hide Earlier;
    SameDigits(i, j);
  }

  /** The writer's history: the clock at each name issued, which of these names each
      shard got, the frames of every shard, and the frames of every successful call. */
  datatype Book = Book(stamps: seq<Stamp>, slots: seq<nat>, shards: seq<Shard>, written: seq<Frame>)

  ghost predicate Numbered(b: Book) {
    && Clocked(b.stamps) && b.stamps != [] && |b.slots| == |b.shards| > 0
    && (forall i | 0 <= i < |b.slots| :: b.slots[i] < |b.stamps|)
    && (forall i, j | 0 <= i < j < |b.slots| :: b.slots[i] < b.slots[j])
  }

  function LastName(b: Book): string
    requires b.stamps != []
  {
    NameAt(b.stamps, |b.stamps| - 1)
  }

  function LastShard(b: Book): Shard
    requires b.shards != []
  {
    b.shards[|b.shards| - 1]
  }

  /** Each shard is in the directory just as it was written, or was removed. */
  ghost predicate Intact(files: map<string, seq<byte>>, pub: seq<byte>, b: Book)
    requires |pub| == KEY_BYTES && Numbered(b)
  {
    forall i | 0 <= i < |b.shards| && NameAt(b.stamps, b.slots[i]) in files ::
      files[NameAt(b.stamps, b.slots[i])] == FileBytes(pub, b.shards[i])
  }

  /** Nothing is lost or reordered; and if no open has failed, the cuts are next-fit. */
  ghost predicate Packed(limit: nat, b: Book) {
    Flatten(b.shards) == b.written && (|b.slots| == |b.stamps| ==> b.shards == Pack(limit, b.written))
  }

  function Named(b: Book, now: Stamp): Book {
    b.(stamps := b.stamps + [now])
  }

  function Opened(b: Book, now: Stamp): Book {
    b.(stamps := b.stamps + [now], slots := b.slots + [|b.stamps|], shards := b.shards + [[]])
  }

  function Appended(b: Book, f: Frame): Book
    requires b.shards != []
  {
    b.(shards := b.shards[..|b.shards| - 1] + [LastShard(b) + [f]], written := b.written + [f])
  }

  lemma NamedBook(files: map<string, seq<byte>>, pub: seq<byte>, b: Book, now: Stamp)
    requires |pub| == KEY_BYTES && Numbered(b) && InRange(now)
    ensures Numbered(Named(b, now)) && (Intact(files, pub, b) ==> Intact(files, pub, Named(b, now)))
  {
    hide Name;
    var b' := Named(b, now);
    assert forall k | 0 <= k < |b.stamps| :: NameAt(b'.stamps, k) == NameAt(b.stamps, k);
  }

  lemma OpenedBook(files: map<string, seq<byte>>, pub: seq<byte>, b: Book, now: Stamp)
    requires |pub| == KEY_BYTES && Numbered(b) && InRange(now)
    ensures Numbered(Opened(b, now))
    ensures |b.stamps| < U32_LIMIT && Intact(files, pub, b)
        ==> Intact(files[LastName(Opened(b, now)) := Header(pub)], pub, Opened(b, now))
  {
    hide Name, Header;
    var b' := Opened(b, now);
    assert Join([]) == [];
    assert FileBytes(pub, []) == Header(pub);
    if |b.stamps| < U32_LIMIT && Intact(files, pub, b) {
      var files' := files[LastName(b') := Header(pub)];
      forall i | 0 <= i < |b'.shards| && NameAt(b'.stamps, b'.slots[i]) in files'
        ensures files'[NameAt(b'.stamps, b'.slots[i])] == FileBytes(pub, b'.shards[i])
      {
        if i < |b.shards| {
          assert NameAt(b'.stamps, b.slots[i]) == NameAt(b.stamps, b.slots[i]);
          NamesUnique(b'.stamps, b.slots[i], |b.stamps|);
        }
      }
    }
  }

  lemma AppendedLast(pub: seq<byte>, b: Book, f: Frame)
    requires |pub| == KEY_BYTES && b.shards != []
    ensures FileBytes(pub, LastShard(Appended(b, f))) == FileBytes(pub, LastShard(b)) + f
    ensures FileSize(LastShard(Appended(b, f))) == FileSize(LastShard(b)) + |f|
    ensures Flatten(Appended(b, f).shards) == Flatten(b.shards) + [f]
  {
    hide Header;
    var n, last := |b.shards| - 1, LastShard(b);
    JoinOne(last, f);
    LoadAppend(last, [f]);
    assert Load([f]) == |f|;
    assert b.shards == b.shards[..n] + [last];
    FlattenLast(b.shards[..n], last);
    FlattenLast(b.shards[..n], last + [f]);
  }

  lemma AppendedBook(files: map<string, seq<byte>>, pub: seq<byte>, b: Book, f: Frame)
    requires |pub| == KEY_BYTES && Numbered(b) && b.slots[|b.slots| - 1] == |b.stamps| - 1
    ensures Numbered(Appended(b, f))
    ensures |b.stamps| <= U32_LIMIT && Intact(files, pub, b)
        ==> Intact(files[LastName(b) := FileBytes(pub, LastShard(Appended(b, f)))], pub, Appended(b, f))
  {
    hide NameAt, FileBytes;
    var b', n := Appended(b, f), |b.shards| - 1;
    if |b.stamps| <= U32_LIMIT && Intact(files, pub, b) {
      var files' := files[LastName(b) := FileBytes(pub, LastShard(b'))];
      forall i | 0 <= i < |b'.shards| && NameAt(b'.stamps, b'.slots[i]) in files'
        ensures files'[NameAt(b'.stamps, b'.slots[i])] == FileBytes(pub, b'.shards[i])
      {
        if i < n { NamesUnique(b.stamps, b.slots[i], |b.stamps| - 1); }
      }
    }
  }

  lemma Newest(b: Book, now: Stamp)
    ensures LastName(Named(b, now)) == LastName(Opened(b, now)) == Name(now, |b.stamps| % U32_LIMIT)
  {
    hide Name;
  }

  /** A writer's fields, its directory and its history, as one value. */
  datatype Desk = Desk(isOpen: bool, size: nat, name: string, sequence: nat, files: map<string, seq<byte>>, book: Book)

  /** All but the packing, which does not hold between an open and the write it is for. */
  ghost predicate Stored(pub: seq<byte>, d: Desk)
    requires |pub| == KEY_BYTES
  {
    && Numbered(d.book) && d.sequence == |d.book.stamps| % U32_LIMIT && d.name == LastName(d.book)
    && Flatten(d.book.shards) == d.book.written
    && (|d.book.stamps| <= U32_LIMIT ==> Intact(d.files, pub, d.book))
    && if d.isOpen then
         && d.book.slots[|d.book.slots| - 1] == |d.book.stamps| - 1 && d.size == FileSize(LastShard(d.book))
         && d.name in d.files && d.files[d.name] == FileBytes(pub, LastShard(d.book))
       else |d.book.slots| < |d.book.stamps|
  }

  /** `OpenNewShard_`: a name is used up either way. */
  function AfterOpen(pub: seq<byte>, d: Desk, now: Stamp, opens: bool): Desk
    requires |pub| == KEY_BYTES
  {
    var name, sequence := Name(now, d.sequence), (d.sequence + 1) % U32_LIMIT;
    if opens then Desk(true, HEADER_BYTES, name, sequence, d.files[name := Header(pub)], Opened(d.book, now))
    else Desk(false, d.size, name, sequence, d.files, Named(d.book, now))
  }

  function AfterWrite(d: Desk, f: Frame): Desk
    requires d.name in d.files && d.book.shards != []
  {
    d.(size := d.size + |f|, files := d.files[d.name := d.files[d.name] + f], book := Appended(d.book, f))
  }

  lemma OpenStored(pub: seq<byte>, d: Desk, now: Stamp, opens: bool)
    requires |pub| == KEY_BYTES && Stored(pub, d) && InRange(now)
    ensures Stored(pub, AfterOpen(pub, d, now, opens))
  {
    hide LastName, Intact, Header, Name, InRange;
    Newest(d.book, now);
    NamedBook(d.files, pub, d.book, now);
    OpenedBook(d.files, pub, d.book, now);
    FlattenLast(d.book.shards, []);
    assert Join([]) == [] && FileBytes(pub, []) == Header(pub);
    SlotsBounded(d.book);
  }

  lemma SlotsBounded(b: Book)
    requires Numbered(b)
    ensures |b.slots| <= |b.stamps|
  {
    SlotsGrow(b.slots, |b.slots| - 1);
  }

  lemma {:induction false} SlotsGrow(slots: seq<nat>, i: nat)
    requires i < |slots| && forall m, n | 0 <= m < n < |slots| :: slots[m] < slots[n]
    ensures i <= slots[i]
  {
    if i > 0 { SlotsGrow(slots, i - 1); }
  }

  lemma WriteStored(pub: seq<byte>, d: Desk, f: Frame)
    requires |pub| == KEY_BYTES && Stored(pub, d) && d.isOpen
    ensures Stored(pub, AfterWrite(d, f))
  {
    hide LastName, Intact, FileBytes;
    AppendedBook(d.files, pub, d.book, f);
    AppendedLast(pub, d.book, f);
    assert LastName(Appended(d.book, f)) == LastName(d.book) by { SameName(d.book, f); }
  }

  lemma SameName(b: Book, f: Frame)
    requires b.stamps != [] && b.shards != []
    ensures LastName(Appended(b, f)) == LastName(b)
  {
    hide Name;
  }

  /** The cut before this frame, if there is one, is the one `Add` makes. */
  predicate Rotates(limit: nat, d: Desk, f: Frame) {
    !d.isOpen || (d.size > HEADER_BYTES && d.size + |f| > limit)
  }

  lemma WritePacked(limit: nat, pub: seq<byte>, d: Desk, f: Frame, now: Stamp)
    requires |pub| == KEY_BYTES && Stored(pub, d) && Packed(limit, d.book) && f != [] && InRange(now)
    ensures var ready := if Rotates(limit, d, f) then AfterOpen(pub, d, now, true) else d;
      && Packed(limit, Appended(ready.book, f))
      && Appended(ready.book, f).shards == Add(limit, d.book.shards + (if d.isOpen then [] else [[]]), f)
  {
    hide Name, InRange, Intact, Header, FileBytes, LastName;
    var ready := if Rotates(limit, d, f) then AfterOpen(pub, d, now, true) else d;
    assert d.book.shards + [] == d.book.shards;
    SlotsBounded(d.book);
    FlattenLast(d.book.shards, []);
    AppendedLast(pub, ready.book, f);
    LastOfOpened(d.book, now, f);
    AddAllLast(limit, [[]], d.book.written, f);
  }

  lemma LastOfOpened(b: Book, now: Stamp, f: Frame)
    ensures Appended(Opened(b, now), f).shards == b.shards + [[f]]
  {
    assert [] + [f] == [f];
  }

  class ShardWriter {
    const dir: Directory
    const limit: nat
    const pub: seq<byte>
    var isOpen: bool
    var currentSize: nat
    var currentName: string
    var sequence: nat
    ghost var book: Book

    ghost function View(): Desk
      reads this, dir
    {
      Desk(isOpen, currentSize, currentName, sequence, dir.files, book)
    }

    ghost predicate Valid()
      reads this, dir
    {
      |pub| == KEY_BYTES && limit > HEADER_BYTES && Stored(pub, View()) && Packed(limit, book)
    }

    /** The constructor of the source, once its checks and its first open have passed. */
    constructor (dir: Directory, limit: nat, pub: seq<byte>, now: Stamp)
      requires |pub| == KEY_BYTES && limit > HEADER_BYTES && InRange(now)
      modifies dir
      ensures Valid() && isOpen && this.dir == dir && this.limit == limit && this.pub == pub
      ensures book == Book([now], [0], [[]], [])
      ensures currentName == Name(now, 0) && dir.files == old(dir.files)[currentName := Header(pub)]
    {
      this.dir, this.limit, this.pub := dir, limit, pub;
      isOpen, currentSize, currentName, sequence := true, HEADER_BYTES, Name(now, 0), 1;
      book := Book([now], [0], [[]], []);
      new;
      dir.files := dir.files[currentName := Header(pub)];
      assert FileBytes(pub, []) == Header(pub);
      assert Flatten([[]]) == [] + Flatten([]);
    }

    /** Leave the current file and open the next; `false` when the open throws. */
    method OpenNewShard(now: Stamp, opens: bool) returns (ok: bool)
      requires |pub| == KEY_BYTES
      modifies this, dir
      ensures ok == opens && View() == AfterOpen(pub, old(View()), now, opens)
    {
      hide Header, Name;
      currentName := Name(now, sequence);
      sequence := (sequence + 1) % U32_LIMIT;
      isOpen := opens;
      if !opens {
        book := Named(book, now);
        return false;
      }
      book := Opened(book, now);
      currentSize := 0;
      dir.files := dir.files[currentName := []];
      WriteHeader();
      return true;
    }

    /** The 48 bytes at the head of each shard, filled in place. */
    method WriteHeader()
      requires |pub| == KEY_BYTES && currentName in dir.files && dir.files[currentName] == []
      modifies this`currentSize, dir
      ensures currentSize == 48 && dir.files == old(dir.files)[currentName := Header(pub)]
      ensures dir.files[currentName]
           == [0x4C, 0x47, 0x52, 0x48, 1, 0, 0, 0, 1, 0, 0, 0] + pub + [0, 0, 0, 0]
    {
      HeaderIs(pub);
      var hdr := new byte[HEADER_BYTES](_ => 0);
      var algo := EncodeU32(ALGO_ID);
      forall i | 0 <= i < 8 { hdr[i] := MAGIC[i]; }
      forall i | 8 <= i < 12 { hdr[i] := algo[i - 8]; }
      forall i | 12 <= i < 44 { hdr[i] := pub[i - 12]; }
      HeaderFilled(hdr[..]);
      dir.files := dir.files[currentName := dir.files[currentName] + hdr[..]];
      currentSize := HEADER_BYTES;
    }

    lemma HeaderFilled(hdr: seq<byte>)
      requires |pub| == KEY_BYTES && |hdr| == HEADER_BYTES
      requires hdr[..8] == MAGIC && hdr[8..12] == EncodeU32(ALGO_ID) && hdr[12..44] == pub && hdr[44..] == Zeros(4)
      ensures [] + hdr == Header(pub)
    {
      assert hdr == hdr[..8] + hdr[8..12] + hdr[12..44] + hdr[44..];
    }

    /** One frame from the persist callback; `false` when a file could not be opened, and
        then the frame is lost. */
    method WriteFrame(data: Frame, now: Stamp, opens: bool) returns (ok: bool)
      requires Valid() && InRange(now)
      modifies this, dir
      ensures Valid()
      ensures ok <==> opens || data == [] || (old(isOpen) && (old(currentSize) <= 48 || old(currentSize) + |data| <= limit))
      ensures data == [] ==> View() == old(View())
      ensures ok && data != [] ==>
        && isOpen && book.written == old(book.written) + [data]
        && book == Appended(if Rotates(limit, old(View()), data) then Opened(old(book), now) else old(book), data)
        && book.shards == Add(limit, old(book.shards) + (if old(isOpen) then [] else [[]]), data)
        && dir.files.Keys == old(dir.files).Keys + {currentName}
        && (forall n | n in old(dir.files) && n != currentName :: dir.files[n] == old(dir.files)[n])
        && dir.files[currentName] == FileBytes(pub, LastShard(book))
      ensures !ok ==> !isOpen && dir.files == old(dir.files) && book == Named(old(book), now)
    {
      hide Header, Name, Stored, Add, Packed, Flatten, FileSize, FileBytes, InRange;
      if data == [] {
        return true;
      }
      ghost var d := View();
      IsStored(pub, d);
      OpenStored(pub, d, now, opens);
      WritePacked(limit, pub, d, data, now);
      if !isOpen {
        var reopened := OpenNewShard(now, opens);
        if !reopened {
          NoShardPacked(limit, pub, d, now);
          return false;
        }
      }
      if currentSize > HEADER_BYTES && currentSize + |data| > limit {
        var rotated := OpenNewShard(now, opens);
        if !rotated {
          NoShardPacked(limit, pub, d, now);
          return false;
        }
      }
      ghost var e := View();
      assert e == if Rotates(limit, d, data) then AfterOpen(pub, d, now, true) else d;
      IsStored(pub, e);
      WriteStored(pub, e, data);
      dir.files := dir.files[currentName := dir.files[currentName] + data];
      currentSize := currentSize + |data|;
      book := Appended(book, data);
      assert View() == AfterWrite(e, data);
      IsStored(pub, View());
      return true;
    }

    method CurrentShardPath() returns (name: string)
      requires Valid()
      ensures name == LastName(book)
    {
      return currentName;
    }
  }

  /** Construction with its checks; `null` stands for a throw. `made` says whether the
      directory is there or could be created. */
  method Create(dir: Directory, limit: nat, pub: seq<byte>, made: bool, now: Stamp, opens: bool) returns (w: ShardWriter?)
    requires InRange(now)
    modifies dir
    ensures w == null <==> |pub| != 32 || limit <= 48 || !made || !opens
    ensures w == null ==> dir.files == old(dir.files)
    ensures w != null ==>
      && fresh(w) && w.Valid() && w.isOpen && w.dir == dir && w.limit == limit && w.pub == pub && w.book == Book([now], [0], [[]], [])
      && dir.files == old(dir.files)[Name(now, 0) := Header(pub)]
  {
    hide Name, Header, Stored, Packed, InRange;
    if |pub| != KEY_BYTES || limit <= HEADER_BYTES || !made || !opens {
      return null;
    }
    w := new ShardWriter(dir, limit, pub, now);
  }

  lemma IsStored(pub: seq<byte>, d: Desk)
    requires |pub| == KEY_BYTES && Stored(pub, d)
    ensures Numbered(d.book) && d.book.shards != []
    ensures d.isOpen ==> d.name in d.files && d.files[d.name] == FileBytes(pub, LastShard(d.book))
  {}

  lemma NoShardPacked(limit: nat, pub: seq<byte>, d: Desk, now: Stamp)
    requires |pub| == KEY_BYTES && Stored(pub, d) && Packed(limit, d.book)
    ensures Packed(limit, Named(d.book, now))
  {
    SlotsBounded(d.book);
  }
}
