/** One `MmapBuffer` under every interleaving of any number of `Write` calls with
    `Seal`, the drain and `ResetForReuse`. Each label is one atomic operation or
    the store of one byte; operations are sequentially consistent. */
module BufferMachine {
  import opened Bytes
  import opened Framing

  /** Where a call of `Write` is. */
  datatype Phase =
    | Entered(p: Payload)                          // writers_ raised, sealed_ not read yet
    | Admitted(p: Payload)                         // has read sealed_ == false
    | Filling(p: Payload, at: nat, stored: nat)    // owns its slot, `stored` bytes are in place
    | Refused(p: Payload)                          // about to lower writers_ and return false

  /** Where the one thread that seals, drains and resets is. */
  datatype Gate =
    | Open
    | Sealing                            // sealed_ set, spinning on writers_
    | Quiet                              // has read writers_ == 0
    | Unsealing(prev: nat)               // offset_ cleared
    | Scrubbing(prev: nat, zeroed: nat)  // sealed_ cleared, memset under way

  /** A successful reservation; the log of a cycle lists them in reservation order. */
  datatype Entry = Entry(call: nat, payload: Payload)

  datatype State = State(
    region: seq<byte>,
    offset: nat,
    writers: nat,
    sealed: bool,
    calls: map<nat, Phase>,
    gate: Gate,
    nextCall: nat,
    log: seq<Entry>,
    accepted: map<nat, Payload>)         // calls of this cycle that returned true

  datatype Label =
    | Enter(p: Payload) | ReadSealed(c: nat) | Reserve(c: nat) | StoreByte(c: nat) | Leave(c: nat)
    | StoreSealed | SawNoWriters
    | ClearOffset | ClearSealed | ScrubByte | ScrubDone

  function Init(cap: nat): State {
    State(Zeros(cap), 0, 0, false, map[], Open, 0, [], map[])
  }

  predicate In(s: State, c: nat, l: Label) {
    c in s.calls && match l
      case ReadSealed(_) => s.calls[c].Entered?
      case Reserve(_) => s.calls[c].Admitted?
      case StoreByte(_) => s.calls[c].Filling? && s.calls[c].stored < 4 + |s.calls[c].p|
                           && Storable(s.calls[c].p) && s.calls[c].at + s.calls[c].stored < |s.region|
      case Leave(_) => s.calls[c].Refused? || (s.calls[c].Filling? && s.calls[c].stored == 4 + |s.calls[c].p|)
      case _ => false
  }

  predicate Enabled(s: State, l: Label) {
    match l
    case Enter(p) => Storable(p)
    case ReadSealed(c) => In(s, c, l)
    case Reserve(c) => In(s, c, l)
    case StoreByte(c) => In(s, c, l)
    case Leave(c) => In(s, c, l) && s.writers > 0
    case StoreSealed => s.gate.Open?
    case SawNoWriters => s.gate.Sealing? && s.writers == 0
    case ClearOffset => s.gate.Quiet?
    case ClearSealed => s.gate.Unsealing?
    case ScrubByte => s.gate.Scrubbing? && s.gate.zeroed < s.gate.prev && s.gate.zeroed < |s.region|
    case ScrubDone => s.gate.Scrubbing? && s.gate.zeroed >= s.gate.prev
  }

  function Used(s: State): nat {
    if s.offset <= |s.region| then s.offset else |s.region|
  }

  function DoReserve(s: State, c: nat): State
    requires Enabled(s, Reserve(c))
  {
    var p := s.calls[c].p;
    var end := s.offset + 4 + |p|;
    if end > |s.region|
    then s.(offset := end, calls := s.calls[c := Refused(p)])
    else s.(offset := end, calls := s.calls[c := Filling(p, s.offset, 0)], log := s.log + [Entry(c, p)])
  }

  function DoStoreByte(s: State, c: nat): State
    requires Enabled(s, StoreByte(c))
  {
    var f := s.calls[c];
    s.(region := s.region[f.at + f.stored := Image(f.p)[f.stored]],
       calls := s.calls[c := f.(stored := f.stored + 1)])
  }

  function DoLeave(s: State, c: nat): State
    requires Enabled(s, Leave(c))
  {
    var f := s.calls[c];
    s.(calls := s.calls - {c}, writers := s.writers - 1,
       accepted := if f.Filling? then s.accepted[c := f.p] else s.accepted)
  }

  function Do(s: State, l: Label): State
    requires Enabled(s, l)
  {
    match l
    case Enter(p) => s.(calls := s.calls[s.nextCall := Entered(p)], nextCall := s.nextCall + 1, writers := s.writers + 1)
    case ReadSealed(c) =>
      var p := s.calls[c].p;
      s.(calls := s.calls[c := if s.sealed then Refused(p) else Admitted(p)])
    case Reserve(c) => DoReserve(s, c)
    case StoreByte(c) => DoStoreByte(s, c)
    case Leave(c) => DoLeave(s, c)
    case StoreSealed => s.(sealed := true, gate := Sealing)
    case SawNoWriters => s.(gate := Quiet)
    case ClearOffset => s.(offset := 0, gate := Unsealing(Used(s)), log := [], accepted := map[])
    case ClearSealed => s.(sealed := false, gate := Scrubbing(s.gate.prev, 0))
    case ScrubByte => s.(region := s.region[s.gate.zeroed := 0], gate := s.gate.(zeroed := s.gate.zeroed + 1))
    case ScrubDone => s.(gate := Open)
  }

  predicate Valid(s: State, run: seq<Label>)
    decreases |run|
  {
    run == [] || (Enabled(s, run[0]) && Valid(Do(s, run[0]), run[1..]))
  }

  function Run(s: State, run: seq<Label>): State
    requires Valid(s, run)
    decreases |run|
  {
    if run == [] then s else Run(Do(s, run[0]), run[1..])
  }

  /** The discipline the code needs of its callers: no `Write` takes a slot while
      `ResetForReuse` still has bytes to clear. */
  predicate Orderly(s: State, l: Label) {
    l.Reserve? ==> !(s.gate.Scrubbing? && s.gate.zeroed < s.gate.prev)
  }

  predicate OrderlyRun(s: State, run: seq<Label>)
    requires Valid(s, run)
    decreases |run|
  {
    run == [] || (Orderly(s, run[0]) && OrderlyRun(Do(s, run[0]), run[1..]))
  }

  // ---------------------------------------------------------------- invariant

  function Payloads(log: seq<Entry>): (ps: seq<Payload>)
    ensures |ps| == |log| && forall i :: 0 <= i < |log| ==> ps[i] == log[i].payload
  {
    seq(|log|, i requires 0 <= i < |log| => log[i].payload)
  }

  /** Byte `j` belongs to a slot whose owner has not stored it yet. */
  ghost predicate Pending(s: State, j: nat) {
    exists c :: Owes(s, c, j)
  }

  predicate Owes(s: State, c: nat, j: nat) {
    && c in s.calls && s.calls[c].Filling?
    && s.calls[c].at + s.calls[c].stored <= j < s.calls[c].at + 4 + |s.calls[c].p|
  }

  ghost predicate WellFormedLog(s: State) {
    && AllStorable(Payloads(s.log))
    && |Tiles(Payloads(s.log))| <= |s.region|
    && |Tiles(Payloads(s.log))| <= s.offset
    && (s.offset <= |s.region| ==> s.offset == |Tiles(Payloads(s.log))|)
  }

  predicate IsFilling(s: State, c: nat) {
    c in s.calls && s.calls[c].Filling?
  }

  /** A `Filling` call owns a slot of the tiling that is the image of its payload. */
  ghost predicate OwnsSlot(s: State, c: nat)
    requires IsFilling(s, c) && WellFormedLog(s)
  {
    var f := s.calls[c];
    && Storable(f.p)
    && f.stored <= 4 + |f.p|
    && f.at + 4 + |f.p| <= |Tiles(Payloads(s.log))|
    && Tiles(Payloads(s.log))[f.at..f.at + 4 + |f.p|] == Image(f.p)
  }

  predicate Apart(f: Phase, g: Phase)
    requires f.Filling? && g.Filling?
  {
    f.at + 4 + |f.p| <= g.at || g.at + 4 + |g.p| <= f.at
  }

  ghost predicate Slots(s: State) {
    && WellFormedLog(s)
    && (forall c | IsFilling(s, c) :: OwnsSlot(s, c))
    && (forall c, d | IsFilling(s, c) && IsFilling(s, d) && c != d :: Apart(s.calls[c], s.calls[d]))
  }

  /** How far `ResetForReuse` still has to clear: bytes from `.0` up to `.1`. */
  function Dirty(g: Gate): (nat, nat) {
    match g
    case Unsealing(prev) => (0, prev)
    case Scrubbing(prev, zeroed) => (zeroed, prev)
    case _ => (0, 0)
  }

  /** What byte `j` reads as: the tiled images, zeros after them, and zero where
      the owner of the slot has not stored yet. */
  ghost predicate ByteOk(s: State, j: nat)
    requires j < |s.region|
  {
    var t := Tiles'(s);
    s.region[j] == if j < |t| && !Pending(s, j) then t[j] else 0
  }

  ghost function Tiles'(s: State): seq<byte> {
    if AllStorable(Payloads(s.log)) then Tiles(Payloads(s.log)) else []
  }

  ghost predicate Contents(s: State) {
    forall j :: 0 <= j < |s.region| && !(Dirty(s.gate).0 <= j < Dirty(s.gate).1) ==> ByteOk(s, j)
  }

  predicate CallsStorable(s: State) {
    forall c | c in s.calls :: Storable(s.calls[c].p)
  }

  ghost predicate Fence(s: State) {
    && s.writers == |s.calls|
    && (s.sealed <==> s.gate.Sealing? || s.gate.Quiet? || s.gate.Unsealing?)
    && (s.gate.Quiet? || s.gate.Unsealing? ==>
          forall c | c in s.calls :: s.calls[c].Entered? || s.calls[c].Refused?)
    && (Dirty(s.gate).0 < Dirty(s.gate).1 ==>
          s.log == [] && s.offset == 0 && Dirty(s.gate).1 <= |s.region|
          && forall c | c in s.calls :: !s.calls[c].Filling?)
  }

  /** The log names exactly the calls that returned true or are still filling. */
  ghost predicate Bookkeeping(s: State) {
    && (forall c | c in s.calls || c in s.accepted :: c < s.nextCall)
    && (forall c | c in s.calls :: c !in s.accepted)
    && (forall i, j | 0 <= i < j < |s.log| :: s.log[i].call != s.log[j].call)
    && (forall i | 0 <= i < |s.log| :: Vouched(s, s.log[i]))
    && (forall c | c in s.accepted :: Logged(s.log, c, s.accepted[c]))
    && (forall c | IsFilling(s, c) :: Logged(s.log, c, s.calls[c].p))
  }

  predicate Vouched(s: State, e: Entry) {
    || (e.call in s.accepted && s.accepted[e.call] == e.payload)
    || (IsFilling(s, e.call) && s.calls[e.call].p == e.payload)
  }

  predicate Logged(log: seq<Entry>, c: nat, p: Payload) {
    Entry(c, p) in log
  }

  ghost predicate Inv(s: State) {
    CallsStorable(s) && Fence(s) && Slots(s) && Contents(s) && Bookkeeping(s)
  }

  // ------------------------------------------------------ one step at a time

  lemma InitInv(cap: nat)
    ensures Inv(Init(cap))
  {
    var s := Init(cap);
    assert Payloads(s.log) == [] && Tiles([]) == [];
    assert forall j :: 0 <= j < cap ==> ByteOk(s, j);
  }

  lemma StepStorable(s: State, l: Label)
    requires CallsStorable(s) && Enabled(s, l)
    ensures CallsStorable(Do(s, l))
  {}

  lemma StepFence(s: State, l: Label)
    requires Fence(s) && CallsStorable(s) && WellFormedLog(s) && Bookkeeping(s) && Enabled(s, l) && Orderly(s, l)
    ensures Fence(Do(s, l))
  {
    match l
    case Enter(p) => EnterFence(s, p);
    case Leave(c) => RemoveOne(s.calls, c);
    case _ =>
  }

  lemma EnterFence(s: State, p: Payload)
    requires Fence(s) && Bookkeeping(s) && Enabled(s, Enter(p))
    ensures Fence(Do(s, Enter(p)))
  {
    assert s.nextCall !in s.calls;
  }

  lemma RemoveOne<K, V>(m: map<K, V>, k: K)
    requires k in m
    ensures |m - {k}| == |m| - 1
  {
    assert (m - {k}).Keys == m.Keys - {k};
    assert |m| == |m.Keys| && |m - {k}| == |(m - {k}).Keys|;
  }

  /** Most steps leave the log and every slot as they are. */
  ghost predicate SameSlots(s: State, s': State) {
    && s'.log == s.log && s'.offset == s.offset && |s'.region| == |s.region|
    && forall c | IsFilling(s', c) :: IsFilling(s, c) && s'.calls[c] == s.calls[c]
  }

  lemma PassiveStep(s: State, l: Label)
    requires Enabled(s, l) && !l.Reserve? && !l.StoreByte? && !l.ClearOffset?
    ensures SameSlots(s, Do(s, l))
  {}

  lemma StepSlots(s: State, l: Label)
    requires CallsStorable(s) && Fence(s) && Slots(s) && Enabled(s, l)
    ensures Slots(Do(s, l))
  {
    match l
    case Reserve(c) => ReserveSlots(s, c);
    case StoreByte(c) => StoreByteSlots(s, c);
    case ClearOffset => ClearOffsetSlots(s);
    case _ => PassiveStep(s, l); SlotsCarry(s, Do(s, l));
  }

  lemma SlotsCarry(s: State, s': State)
    requires Slots(s) && SameSlots(s, s')
    ensures Slots(s')
  {
    forall c | IsFilling(s', c)
      ensures OwnsSlot(s', c)
    {
      assert OwnsSlot(s, c);
    }
  }

  lemma ClearOffsetSlots(s: State)
    requires Fence(s) && Enabled(s, ClearOffset)
    ensures Slots(Do(s, ClearOffset))
  {
    assert Payloads([]) == [] && Tiles([]) == [];
  }

  lemma StoreByteSlots(s: State, c: nat)
    requires Slots(s) && Enabled(s, StoreByte(c))
    ensures Slots(DoStoreByte(s, c))
  {
    var s' := DoStoreByte(s, c);
    forall d | IsFilling(s', d)
      ensures OwnsSlot(s', d)
    {
      assert IsFilling(s, d) && OwnsSlot(s, d);
    }
  }

  lemma ReserveLog(s: State, c: nat)
    requires CallsStorable(s) && WellFormedLog(s) && Enabled(s, Reserve(c))
    ensures var p, s' := s.calls[c].p, DoReserve(s, c);
      if s.offset + 4 + |p| > |s.region| then s'.log == s.log
      else Storable(p) && s.offset == |Tiles(Payloads(s.log))| && WellFormedLog(s')
           && Tiles(Payloads(s'.log)) == Tiles(Payloads(s.log)) + Image(p)
  {
    var p, ps, s' := s.calls[c].p, Payloads(s.log), DoReserve(s, c);
    if s.offset + 4 + |p| <= |s.region| {
      TilesAppend(ps, p);
      assert Payloads(s'.log) == ps + [p];
    }
  }

  /** After a reservation every slot is still an image, and the new one lies past the rest. */
  lemma ReserveOwns(s: State, c: nat, d: nat)
    requires CallsStorable(s) && Slots(s) && Enabled(s, Reserve(c)) && WellFormedLog(DoReserve(s, c))
    requires IsFilling(DoReserve(s, c), d)
    ensures OwnsSlot(DoReserve(s, c), d)
    ensures d == c ==> DoReserve(s, c).calls[d].at == s.offset
    ensures d != c ==> IsFilling(s, d) && DoReserve(s, c).calls[d] == s.calls[d]
    ensures d != c && IsFilling(DoReserve(s, c), c) ==> s.calls[d].at + 4 + |s.calls[d].p| <= s.offset
  {
    var p, s' := s.calls[c].p, DoReserve(s, c);
    var t, t' := Tiles(Payloads(s.log)), Tiles(Payloads(s'.log));
    ReserveLog(s, c);
    if d == c {
      assert t'[s.offset..s.offset + 4 + |p|] == Image(p);
    } else {
      assert OwnsSlot(s, d);
      var f := s.calls[d];
      assert t'[f.at..f.at + 4 + |f.p|] == t[f.at..f.at + 4 + |f.p|];
    }
  }

  lemma ReserveSlots(s: State, c: nat)
    requires CallsStorable(s) && Slots(s) && Enabled(s, Reserve(c))
    ensures Slots(DoReserve(s, c))
  {
    var s' := DoReserve(s, c);
    ReserveLog(s, c);
    forall d | IsFilling(s', d)
      ensures OwnsSlot(s', d)
    {
      ReserveOwns(s, c, d);
    }
    forall d, e | IsFilling(s', d) && IsFilling(s', e) && d != e
      ensures Apart(s'.calls[d], s'.calls[e])
    {
      ReserveOwns(s, c, d);
      ReserveOwns(s, c, e);
    }
  }

  lemma StepBookkeeping(s: State, l: Label)
    requires Fence(s) && Bookkeeping(s) && Enabled(s, l)
    ensures Bookkeeping(Do(s, l))
  {
    match l
    case Reserve(c) => ReserveBookkeeping(s, c);
    case Leave(c) => LeaveBookkeeping(s, c);
    case ClearOffset =>
    case _ => SameBookkeeping(s, l);
  }

  lemma SameBookkeeping(s: State, l: Label)
    requires Bookkeeping(s) && Enabled(s, l) && !l.Reserve? && !l.Leave? && !l.ClearOffset?
    ensures Bookkeeping(Do(s, l))
  {
    var s' := Do(s, l);
    forall i | 0 <= i < |s'.log|
      ensures Vouched(s', s'.log[i])
    {
      assert Vouched(s, s.log[i]);
    }
  }

  lemma ReserveBookkeeping(s: State, c: nat)
    requires Bookkeeping(s) && Enabled(s, Reserve(c))
    ensures Bookkeeping(DoReserve(s, c))
  {
    var s', e := DoReserve(s, c), Entry(c, s.calls[c].p);
    forall i | 0 <= i < |s'.log|
      ensures Vouched(s', s'.log[i]) && (i < |s.log| ==> s.log[i].call != c)
    {
      if i < |s.log| { assert Vouched(s, s.log[i]); }
    }
    if s'.log != s.log {
      assert s'.log[|s.log|] == e;
    }
  }

  lemma LeaveBookkeeping(s: State, c: nat)
    requires Bookkeeping(s) && Enabled(s, Leave(c))
    ensures Bookkeeping(DoLeave(s, c))
  {
    var s' := DoLeave(s, c);
    assert IsFilling(s, c) ==> Logged(s.log, c, s.calls[c].p);
    forall i | 0 <= i < |s'.log|
      ensures Vouched(s', s'.log[i])
    {
      assert Vouched(s, s.log[i]);
    }
  }

  lemma PassiveOwes(s: State, l: Label, c: nat, j: nat)
    requires Enabled(s, l) && !l.Reserve? && !l.StoreByte? && s.nextCall !in s.calls
    ensures Owes(Do(s, l), c, j) == Owes(s, c, j)
  {}

  lemma PassiveByte(s: State, l: Label, j: nat)
    requires Contents(s) && Slots(s) && Enabled(s, l) && s.nextCall !in s.calls
    requires !l.Reserve? && !l.StoreByte? && !l.ClearOffset? && !l.ScrubByte?
    requires j < |s.region| && !(Dirty(Do(s, l).gate).0 <= j < Dirty(Do(s, l).gate).1)
    ensures ByteOk(Do(s, l), j)
  {
    var s' := Do(s, l);
    PassiveStep(s, l);
    assert s'.region == s.region && Tiles'(s') == Tiles'(s);
    assert !(Dirty(s.gate).0 <= j < Dirty(s.gate).1);
    assert ByteOk(s, j);
    forall c
      ensures Owes(s, c, j) == Owes(s', c, j)
    {
      PassiveOwes(s, l, c, j);
    }
  }

  lemma ReserveByte(s: State, c: nat, j: nat)
    requires CallsStorable(s) && Slots(s) && Enabled(s, Reserve(c)) && j < |s.region| && ByteOk(s, j)
    ensures ByteOk(DoReserve(s, c), j)
  {
    var p, s' := s.calls[c].p, DoReserve(s, c);
    ReserveLog(s, c);
    assert Tiles'(s) == Tiles(Payloads(s.log)) && Tiles'(s') == Tiles(Payloads(s'.log));
    forall d | d != c
      ensures Owes(s', d, j) == Owes(s, d, j)
    {}
    assert !Owes(s, c, j);
    assert IsFilling(s', c) ==> (Owes(s', c, j) <==> s.offset <= j < s.offset + 4 + |p|);
    if exists d :: Owes(s, d, j) {
      var d :| Owes(s, d, j);
      assert Owes(s', d, j);
    }
  }

  lemma StoreByteByte(s: State, c: nat, j: nat)
    requires Slots(s) && Enabled(s, StoreByte(c)) && j < |s.region| && ByteOk(s, j)
    ensures ByteOk(DoStoreByte(s, c), j)
  {
    var f, s' := s.calls[c], DoStoreByte(s, c);
    assert IsFilling(s, c) && OwnsSlot(s, c);
    forall d | d != c
      ensures Owes(s', d, j) == Owes(s, d, j)
    {}
    if j == f.at + f.stored {
      forall d
        ensures !Owes(s', d, j)
      {
        assert d != c && IsFilling(s, d) ==> Apart(s.calls[c], s.calls[d]);
      }
      assert Image(f.p)[f.stored] == Tiles(Payloads(s.log))[f.at..f.at + 4 + |f.p|][f.stored];
    } else {
      assert Owes(s', c, j) == Owes(s, c, j);
    }
  }

  lemma ClearOffsetByte(s: State, j: nat)
    requires Fence(s) && Slots(s) && Contents(s) && Enabled(s, ClearOffset) && Used(s) <= j < |s.region|
    ensures ByteOk(Do(s, ClearOffset), j)
  {
    assert ByteOk(s, j);
    assert Payloads([]) == [] && Tiles([]) == [];
  }

  lemma ScrubByteByte(s: State, j: nat)
    requires Fence(s) && Contents(s) && Enabled(s, ScrubByte) && j < |s.region| && !(s.gate.zeroed < j < s.gate.prev)
    ensures ByteOk(Do(s, ScrubByte), j)
  {
    assert j != s.gate.zeroed ==> ByteOk(s, j);
    assert Payloads(s.log) == [] && Tiles([]) == [];
    forall c
      ensures !Owes(s, c, j) && !Owes(Do(s, ScrubByte), c, j)
    {}
  }

  lemma StepContents(s: State, l: Label)
    requires CallsStorable(s) && Fence(s) && Slots(s) && Contents(s) && s.nextCall !in s.calls
    requires Enabled(s, l) && Orderly(s, l)
    ensures Contents(Do(s, l))
  {
    var s' := Do(s, l);
    forall j | 0 <= j < |s'.region| && !(Dirty(s'.gate).0 <= j < Dirty(s'.gate).1)
      ensures ByteOk(s', j)
    {
      match l
      case Reserve(c) => ReserveByte(s, c, j);
      case StoreByte(c) => StoreByteByte(s, c, j);
      case ClearOffset => ClearOffsetByte(s, j);
      case ScrubByte => ScrubByteByte(s, j);
      case _ => PassiveByte(s, l, j);
    }
  }

  lemma StepInv(s: State, l: Label)
    requires Inv(s) && Enabled(s, l) && Orderly(s, l)
    ensures Inv(Do(s, l))
  {
    StepStorable(s, l);
    StepFence(s, l);
    StepSlots(s, l);
    StepContents(s, l);
    StepBookkeeping(s, l);
  }

  lemma {:induction false} RunInv(s: State, run: seq<Label>)
    requires Inv(s) && Valid(s, run) && OrderlyRun(s, run)
    ensures Inv(Run(s, run))
    decreases |run|
  {
    if run != [] {
      StepInv(s, run[0]);
      RunInv(Do(s, run[0]), run[1..]);
    }
  }

  // ------------------------------------------------------------ whole runs

  ghost predicate Reachable(s: State) {
    exists cap, run :: ReachedBy(s, cap, run)
  }

  ghost predicate ReachedBy(s: State, cap: nat, run: seq<Label>) {
    Valid(Init(cap), run) && OrderlyRun(Init(cap), run) && Run(Init(cap), run) == s
  }

  lemma ReachableInv(s: State)
    requires Reachable(s)
    ensures Inv(s)
  {
    var cap, run :| ReachedBy(s, cap, run);
    InitInv(cap);
    RunInv(Init(cap), run);
  }

  lemma ReachableStep(s: State, l: Label)
    requires Reachable(s) && Enabled(s, l) && Orderly(s, l)
    ensures Reachable(Do(s, l))
  {
    var cap, run :| ReachedBy(s, cap, run);
    RunAppend(Init(cap), run, l);
    assert ReachedBy(Do(s, l), cap, run + [l]);
  }

  lemma {:induction false} RunAppend(s: State, run: seq<Label>, l: Label)
    requires Valid(s, run) && OrderlyRun(s, run) && Enabled(Run(s, run), l) && Orderly(Run(s, run), l)
    ensures Valid(s, run + [l]) && OrderlyRun(s, run + [l]) && Run(s, run + [l]) == Do(Run(s, run), l)
    decreases |run|
  {
    if run == [] {
      assert run + [l] == [l] && [l][1..] == [];
    } else {
      RunAppend(Do(s, run[0]), run[1..], l);
      assert (run + [l])[1..] == run[1..] + [l];
    }
  }

  /** While nobody is filling a slot and nothing is being cleared, the region is the tiled
      frames with zeros after them; their end is the offset, unless that has overrun. */
  lemma SettledHolds(s: State)
    requires Reachable(s) && (s.gate.Open? || s.gate.Sealing? || s.gate.Quiet?) && forall c :: !IsFilling(s, c)
    ensures Holds(s.region, Payloads(s.log)) && |Tiles(Payloads(s.log))| <= Used(s)
    ensures s.offset <= |s.region| ==> s.offset == |Tiles(Payloads(s.log))|
  {
    ReachableInv(s);
    var t := Tiles(Payloads(s.log));
    forall c, j
      ensures !Owes(s, c, j)
    {
      assert !IsFilling(s, c);
    }
    forall j | 0 <= j < |s.region|
      ensures s.region[j] == (t + Zeros(|s.region| - |t|))[j]
    {
      assert ByteOk(s, j);
    }
  }

  /** Past the moment `Seal` reads `writers_ == 0`: the region holds exactly the
      frames of the calls that returned true, tiled in reservation order and with
      zeros after them, and the frame walk recovers just those. */
  lemma SealedSnapshot(s: State)
    requires Reachable(s) && s.gate.Quiet?
    ensures Holds(s.region, Payloads(s.log))
    ensures Walk(s.region, Used(s), 0) == Payloads(s.log)
    ensures forall i | 0 <= i < |s.log| :: s.log[i].call in s.accepted && s.accepted[s.log[i].call] == s.log[i].payload
    ensures forall c | c in s.accepted :: Entry(c, s.accepted[c]) in s.log
    ensures forall i, j | 0 <= i < j < |s.log| :: s.log[i].call != s.log[j].call
  {
    ReachableInv(s);
    SettledHolds(s);
    WalkExact(s.region, Used(s), Payloads(s.log));
    forall i | 0 <= i < |s.log|
      ensures s.log[i].call in s.accepted && s.accepted[s.log[i].call] == s.log[i].payload
    {
      assert Vouched(s, s.log[i]);
    }
    assert forall c | c in s.accepted :: Logged(s.log, c, s.accepted[c]);
  }

  /** And it stays so until the reset: no step of anybody else moves the snapshot,
      and a writer that reaches the check is turned away. */
  lemma SealedFence(s: State, l: Label)
    requires Reachable(s) && s.gate.Quiet? && Enabled(s, l) && !l.ClearOffset?
    ensures var s' := Do(s, l);
      && s'.gate.Quiet? && s'.region == s.region && s'.offset == s.offset
      && s'.log == s.log && s'.accepted == s.accepted
      && (forall c | c in s'.calls :: s'.calls[c].Entered? || s'.calls[c].Refused?)
  {
    ReachableInv(s);
    ReachableFence(s, l);
  }

  lemma ReachableFence(s: State, l: Label)
    requires Fence(s) && s.gate.Quiet? && Enabled(s, l) && !l.ClearOffset?
    ensures var s' := Do(s, l);
      && s'.gate.Quiet? && s'.region == s.region && s'.offset == s.offset
      && s'.log == s.log && s'.accepted == s.accepted
      && (forall c | c in s'.calls :: s'.calls[c].Entered? || s'.calls[c].Refused?)
  {}

  lemma EmptyReadsZero(s: State)
    requires Reachable(s) && s.gate.Open? && s.log == []
    ensures forall j :: 0 <= j < |s.region| ==> s.region[j] == 0
  {
    ReachableInv(s);
    assert Payloads(s.log) == [] && Tiles'(s) == [];
    forall j | 0 <= j < |s.region|
      ensures s.region[j] == 0
    {
      assert ByteOk(s, j);
    }
  }

  predicate SameCycle(run: seq<Label>) {
    forall i :: 0 <= i < |run| ==> !run[i].ClearOffset?
  }

  /** Within a cycle the log only grows at its end, and after the first overrun it
      does not grow at all: no later reservation of the cycle succeeds. */
  lemma {:induction false} OverrunIsFinal(s: State, run: seq<Label>)
    requires Valid(s, run) && SameCycle(run)
    ensures s.log <= Run(s, run).log && s.offset <= Run(s, run).offset && |Run(s, run).region| == |s.region|
    ensures s.offset > |s.region| ==> Run(s, run).log == s.log
    decreases |run|
  {
    if run != [] {
      assert !run[0].ClearOffset?;
      var s1 := Do(s, run[0]);
      assert s.log <= s1.log && s.offset <= s1.offset && |s1.region| == |s.region|;
      OverrunIsFinal(s1, run[1..]);
    }
  }

  // --------------------------------------- a Write that overlaps the reset

  /** Nothing a `Write` has stored in a slot it was granted has been wiped. */
  ghost predicate Intact(s: State) {
    forall j :: 0 <= j < |s.region| && j < |Tiles'(s)| ==> Pending(s, j) || s.region[j] == Tiles'(s)[j]
  }

  function Resets(run: seq<Label>): nat {
    if run == [] then 0 else (if run[0].ClearOffset? then 1 else 0) + Resets(run[1..])
  }

  /** The reset that comes next is harmless however writers overlap it. */
  ghost predicate NextResetSafe(s: State) {
    forall run :: Valid(s, run) && Resets(run) <= 1 ==> Intact(Run(s, run))
  }

  lemma InvIntact(s: State)
    requires Inv(s)
    ensures Intact(s)
  {
    forall j | 0 <= j < |s.region| && j < |Tiles'(s)|
      ensures Pending(s, j) || s.region[j] == Tiles'(s)[j]
    {
      assert Payloads([]) == [] && Tiles([]) == [];
      assert ByteOk(s, j);
    }
  }

  /** With nothing to clear the reset is harmless: every run is an orderly one. */
  ghost predicate NothingToClear(s: State, resetsLeft: nat) {
    && Inv(s)
    && (resetsLeft > 0 ==> resetsLeft == 1 && s.gate.Quiet? && Used(s) == 0)
    && (resetsLeft == 0 ==> (s.gate.Unsealing? || s.gate.Scrubbing? ==> s.gate.prev == 0))
  }

  lemma {:induction false} NothingToClearRun(s: State, run: seq<Label>, resetsLeft: nat)
    requires NothingToClear(s, resetsLeft) && Valid(s, run) && Resets(run) <= resetsLeft
    ensures Intact(Run(s, run))
    decreases |run|
  {
    if run == [] {
      InvIntact(s);
    } else {
      var l := run[0];
      StepInv(s, l);
      if l.ClearOffset? {
        NothingToClearRun(Do(s, l), run[1..], resetsLeft - 1);
      } else {
        if resetsLeft == 1 { ReachableFence(s, l); }
        NothingToClearRun(Do(s, l), run[1..], resetsLeft);
      }
    }
  }

  /** A region too small for any frame never holds one. */
  lemma {:induction false} TooSmallRun(s: State, run: seq<Label>)
    requires CallsStorable(s) && s.log == [] && |s.region| < 5 && Valid(s, run)
    ensures Intact(Run(s, run))
    decreases |run|
  {
    assert Payloads([]) == [] && Tiles([]) == [];
    if run != [] {
      StepStorable(s, run[0]);
      TooSmallRun(Do(s, run[0]), run[1..]);
    }
  }

  /** The interleaving that breaks it: a writer with a stale buffer pointer is let
      in by the cleared `sealed_`, takes the slot at 0, completes and returns true;
      the memset then wipes its header. */
  function LateWrite(c: nat): seq<Label> {
    Intrude(c) + [StoreByte(c), StoreByte(c), StoreByte(c), StoreByte(c), StoreByte(c), Leave(c), ScrubByte]
  }

  function Intrude(c: nat): seq<Label> {
    [ClearOffset, ClearSealed] + [Enter([1]), ReadSealed(c), Reserve(c)]
  }

  lemma RunStep(s: State, l: Label, rest: seq<Label>)
    requires Enabled(s, l) && Valid(Do(s, l), rest)
    ensures Valid(s, [l] + rest) && Run(s, [l] + rest) == Run(Do(s, l), rest)
  {
    assert ([l] + rest)[1..] == rest;
  }

  lemma {:induction false} RunConcat(s: State, a: seq<Label>, b: seq<Label>)
    requires Valid(s, a) && Valid(Run(s, a), b)
    ensures Valid(s, a + b) && Run(s, a + b) == Run(Run(s, a), b)
    decreases |a|
  {
    if a == [] {
      assert a + b == b;
    } else {
      RunConcat(Do(s, a[0]), a[1..], b);
      assert a + b == [a[0]] + (a[1..] + b);
      RunStep(s, a[0], a[1..] + b);
    }
  }

  function Unsealed(s: State): State {
    s.(offset := 0, sealed := false, gate := Scrubbing(Used(s), 0), log := [], accepted := map[])
  }

  lemma UnsealRuns(s: State)
    requires s.gate.Quiet?
    ensures Valid(s, [ClearOffset, ClearSealed]) && Run(s, [ClearOffset, ClearSealed]) == Unsealed(s)
  {
    var s1 := Do(s, ClearOffset);
    RunStep(s1, ClearSealed, []);
    RunStep(s, ClearOffset, [ClearSealed]);
  }

  function Granted(s: State): State {
    s.(offset := 5, writers := s.writers + 1, calls := s.calls[s.nextCall := Filling([1], 0, 0)],
       nextCall := s.nextCall + 1, log := [Entry(s.nextCall, [1])])
  }

  lemma GrantRuns(s: State, c: nat)
    requires !s.sealed && s.offset == 0 && s.log == [] && c == s.nextCall && |s.region| >= 5
    ensures var run := [Enter([1]), ReadSealed(c), Reserve(c)]; Valid(s, run) && Run(s, run) == Granted(s)
  {
    var s1 := Do(s, Enter([1]));
    var s2 := Do(s1, ReadSealed(c));
    assert Do(s2, Reserve(c)).calls == Granted(s).calls;
    RunStep(s2, Reserve(c), []);
    RunStep(s1, ReadSealed(c), [Reserve(c)]);
    RunStep(s, Enter([1]), [ReadSealed(c), Reserve(c)]);
  }

  lemma IntrudeRuns(s: State)
    requires s.gate.Quiet? && |s.region| >= 5
    ensures Valid(s, Intrude(s.nextCall)) && Run(s, Intrude(s.nextCall)) == Granted(Unsealed(s))
  {
    UnsealRuns(s);
    GrantRuns(Unsealed(s), s.nextCall);
    RunConcat(s, [ClearOffset, ClearSealed], [Enter([1]), ReadSealed(s.nextCall), Reserve(s.nextCall)]);
  }

  lemma FillRuns(s: State, c: nat, left: nat)
    requires IsFilling(s, c) && s.calls[c].p == [1] && s.calls[c].stored + left == 5 && s.calls[c].at + 5 <= |s.region|
    requires s.writers > 0 && s.gate.Scrubbing? && s.gate.zeroed == 0 < s.gate.prev
    ensures var run := seq(left, _ => StoreByte(c)) + [Leave(c), ScrubByte];
      && Valid(s, run) && Run(s, run).log == s.log && Run(s, run).accepted == s.accepted[c := [1]]
      && Run(s, run).calls == s.calls - {c} && |Run(s, run).region| == |s.region| && Run(s, run).region[0] == 0
    decreases left
  {
    var tail := [Leave(c), ScrubByte];
    if left == 0 {
      var s1 := Do(s, Leave(c));
      RunStep(s1, ScrubByte, []);
      RunStep(s, Leave(c), [ScrubByte]);
      assert seq(left, _ => StoreByte(c)) + tail == [Leave(c)] + [ScrubByte];
    } else {
      var s1 := Do(s, StoreByte(c));
      FillRuns(s1, c, left - 1);
      var rest := seq(left - 1, _ => StoreByte(c)) + tail;
      RunStep(s, StoreByte(c), rest);
      assert seq(left, _ => StoreByte(c)) + tail == [StoreByte(c)] + rest;
      assert s1.calls - {c} == s.calls - {c};
    }
  }

  lemma LateWriteIsLost(s: State)
    requires Inv(s) && s.gate.Quiet? && Used(s) > 0 && |s.region| >= 5
    ensures var c, run := s.nextCall, LateWrite(s.nextCall);
      && Valid(s, run) && Resets(run) == 1
      && c in Run(s, run).accepted && Run(s, run).log == [Entry(c, [1])]
      && !Intact(Run(s, run))
  {
    var c := s.nextCall;
    IntrudeRuns(s);
    var a := Run(s, Intrude(c));
    var fill := seq(5, _ => StoreByte(c)) + [Leave(c), ScrubByte];
    FillRuns(a, c, 5);
    RunConcat(s, Intrude(c), fill);
    assert LateWrite(c) == Intrude(c) + fill;
    var e := Run(s, LateWrite(c));
    HeaderWiped(s, e, c);
    assert Resets(LateWrite(c)) == 1 by { ResetsOnce(c); }
  }

  lemma HeaderWiped(s: State, e: State, c: nat)
    requires Fence(s) && s.gate.Quiet? && e.calls == s.calls[c := Filling([1], 0, 0)] - {c}
    requires e.log == [Entry(c, [1])] && |e.region| >= 5 && e.region[0] == 0
    ensures !Intact(e)
  {
    TilesAppend([], [1]);
    assert Payloads(e.log) == [] + [[1]];
    assert Tiles'(e) == Tiles([]) + Image([1]) == Image([1]);
    assert forall d :: !Owes(e, d, 0);
  }

  lemma ResetsOnce(c: nat)
    ensures Resets(LateWrite(c)) == 1
  {
    var run := LateWrite(c);
    NoResets(run[1..]);
  }

  lemma {:induction false} NoResets(run: seq<Label>)
    requires SameCycle(run)
    ensures Resets(run) == 0
  {
    if run != [] { NoResets(run[1..]); }
  }

  /** A reset is safe under every interleaving exactly when there is nothing to clear
      (or no frame fits at all): `Used() == 0` is the guard of its memset. */
  lemma ResetSafeIff(s: State)
    requires Reachable(s) && s.gate.Quiet?
    ensures NextResetSafe(s) <==> Used(s) == 0 || |s.region| < 5
  {
    ReachableInv(s);
    if Used(s) == 0 {
      forall run | Valid(s, run) && Resets(run) <= 1
        ensures Intact(Run(s, run))
      {
        NothingToClearRun(s, run, 1);
      }
    } else if |s.region| < 5 {
      LogTooSmall(s);
      forall run | Valid(s, run) && Resets(run) <= 1
        ensures Intact(Run(s, run))
      {
        TooSmallRun(s, run);
      }
    } else {
      LateWriteIsLost(s);
    }
  }

  lemma LogTooSmall(s: State)
    requires WellFormedLog(s) && |s.region| < 5
    ensures s.log == []
  {
    TilesLongEnough(Payloads(s.log));
  }
}
