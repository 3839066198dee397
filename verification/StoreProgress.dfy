/** What the drain side of the store can always still do: a waiter is never stuck, and
    exactly which accepted frames a flush can leave behind. */
module StoreProgress {
  import opened Counting
  import opened StoreMachine
  import opened StoreFrames
  import opened Store
  import O = StoreOwnership
  import W = StoreWaits

  /** The lock holder or the strand has something to do. */
  predicate Busy(s: State) {
    !s.section.Unlocked? || !s.drain.Idle? || s.strand != []
  }

  /** Its next step; no wait or timeout of anybody else is involved. */
  ghost function Pump(s: State): Label
    requires Busy(s)
  {
    match s.section
    case Exchanging(_, _, _) => Exchange
    case Counting(_, _, _) => Count
    case Posting(_, _, _) => Post
    case Unlocked =>
      match s.drain
      case Idle => StartDrain
      case Sealing(_) => SealBuf
      case Walking(b, k) => if b < |s.bufs| && k < |s.bufs[b].frames| then Persist else ResetBuf
      case Returning(_) => ReturnBuf
      case NotifyingFree => if W.Sleepers(s) == {} then NotifyNobody else (var c :| c in W.Sleepers(s); NotifyOne(c))
      case Subtracting => Subtract
      case NotifyingFlush => NotifyFlush
  }

  function SectionRank(s: State): nat {
    match s.section
    case Exchanging(_, _, _) => 3
    case Counting(_, _, _) => 2
    case Posting(_, _, _) => 1
    case Unlocked => 0
  }

  function DrainRank(s: State): nat {
    match s.drain
    case Sealing(_) => 6
    case Walking(_, _) => 5
    case Returning(_) => 4
    case NotifyingFree => 3
    case Subtracting => 2
    case NotifyingFlush => 1
    case Idle => 0
  }

  function FramesLeft(s: State): nat {
    if s.drain.Walking? && s.drain.b < |s.bufs| && s.drain.k <= |s.bufs[s.drain.b].frames|
    then |s.bufs[s.drain.b].frames| - s.drain.k else 0
  }

  lemma PumpEnabled(s: State)
    requires Inv(s) && Busy(s)
    ensures Enabled(s, Pump(s))
  {
    if s.drain.Sealing? || s.drain.Walking? { O.OwnedInPool(s, s.drain.b); }
    assert W.Sleepers(s) == {} ==> forall c | c in s.calls :: c !in W.Sleepers(s);
    forall c | c in s.calls && s.calls[c].Asleep?
      ensures c in W.Sleepers(s)
    {}
  }

  lemma PumpDecreases(s: State)
    requires Inv(s) && Busy(s) && Enabled(s, Pump(s))
    ensures var s' := Do(s, Pump(s));
      || SectionRank(s') < SectionRank(s)
      || (SectionRank(s') == SectionRank(s) && |s'.strand| < |s.strand|)
      || (SectionRank(s') == SectionRank(s) && |s'.strand| == |s.strand| && DrainRank(s') < DrainRank(s))
      || (SectionRank(s') == SectionRank(s) && |s'.strand| == |s.strand| && DrainRank(s') == DrainRank(s)
          && FramesLeft(s') < FramesLeft(s))
  {}

  /** Where neither the strand nor the lock holder touches a buffer. */
  predicate Shelved(s: State, b: nat) {
    Parked(s, b) || (b == s.master && !s.section.Exchanging?)
  }

  predicate FlushCall(s: State, c: nat) {
    c in s.calls && (s.calls[c].FlushEntry? || s.calls[c].FlushTest?)
  }

  lemma PumpKeeps(s: State, b: nat)
    requires Inv(s) && Busy(s) && Enabled(s, Pump(s)) && b < |s.bufs| && Shelved(s, b)
    ensures var s' := Do(s, Pump(s));
      Shelved(s', b) && |s'.bufs| == |s.bufs| && s'.bufs[b] == s.bufs[b] && (Parked(s, b) ==> Parked(s', b))
  {
    assert O.Owners(s, b) == 1;
  }

  lemma PumpKeepsCall(s: State, c: nat)
    requires Inv(s) && Busy(s) && Enabled(s, Pump(s)) && FlushCall(s, c)
    ensures FlushCall(Do(s, Pump(s)), c) && Do(s, Pump(s)).calls[c] == s.calls[c]
  {}

  lemma ValidCons(s: State, l: Label, rest: seq<Label>)
    requires Enabled(s, l) && Valid(Do(s, l), rest)
    ensures Valid(s, [l] + rest) && Run(s, [l] + rest) == Run(Do(s, l), rest)
  {
    assert ([l] + rest)[1..] == rest;
  }

  lemma {:induction false} ValidConcat(s: State, a: seq<Label>, b: seq<Label>)
    requires Valid(s, a) && Valid(Run(s, a), b)
    ensures Valid(s, a + b) && Run(s, a + b) == Run(Run(s, a), b)
    decreases |a|
  {
    if a == [] {
      assert a + b == b;
    } else {
      ValidConcat(Do(s, a[0]), a[1..], b);
      assert a + b == [a[0]] + (a[1..] + b);
      ValidCons(s, a[0], a[1..] + b);
    }
  }

  /** Left to themselves, the lock holder and the strand finish all posted work. */
  lemma {:induction false} PumpDry(s: State, b: nat, c: nat) returns (run: seq<Label>)
    requires Inv(s) && b < |s.bufs| && Shelved(s, b) && FlushCall(s, c)
    ensures Valid(s, run)
    ensures var e := Run(s, run);
      && !Busy(e) && Shelved(e, b) && (Parked(s, b) ==> Parked(e, b))
      && |e.bufs| == |s.bufs| && e.bufs[b] == s.bufs[b] && c in e.calls && e.calls[c] == s.calls[c]
    decreases SectionRank(s), |s.strand|, DrainRank(s), FramesLeft(s)
  {
    run := [];
    if Busy(s) {
      var l := Pump(s);
      PumpEnabled(s);
      PumpDecreases(s);
      PumpKeeps(s, b);
      PumpKeepsCall(s, c);
      StepInv(s, l);
      var rest := PumpDry(Do(s, l), b, c);
      ValidCons(s, l, rest);
      run := [l] + rest;
    }
  }

  // ------------------------------------------------------------ stuck waits

  lemma PoolGrows(s: State, l: Label)
    requires Enabled(s, l)
    ensures |s.bufs| <= |Do(s, l).bufs| && Do(s, l).cfg == s.cfg
  {}

  /** With two buffers and none free, a drain or a swap is under way. */
  lemma SomethingAhead(s: State)
    requires Inv(s) && |s.bufs| >= 2 && s.free == []
    ensures Busy(s)
  {
    var other := if s.master == 0 then 1 else 0;
    assert O.Owners(s, other) == 1;
  }

  lemma FreeMakesTwo(s: State)
    requires O.Partition(s) && s.free != []
    ensures |s.bufs| >= 2
  {
    var b := s.free[0];
    assert multiset(s.free)[b] > 0;
    assert O.Owners(s, b) == One(b < |s.bufs|);
    assert O.Owners(s, s.master) == One(s.master < |s.bufs|);
  }

  lemma {:induction false} OneBufferForever(s: State, run: seq<Label>)
    requires Inv(s) && s.cfg.maxBuffers < 2 && Valid(s, run)
    ensures Run(s, run).free == []
    decreases |run|
  {
    if run == [] {
      if s.free != [] { FreeMakesTwo(s); }
    } else {
      StepInv(s, run[0]);
      PoolGrows(s, run[0]);
      OneBufferForever(Do(s, run[0]), run[1..]);
    }
  }

  // ------------------------------------------------- what a flush leaves behind

  /** However the run goes on, a flush that begins in `s` delivers all that was accepted. */
  ghost predicate FlushGuarantees(s: State) {
    forall run, f | Valid(Do(s, BeginFlush), run) && Returns(Run(Do(s, BeginFlush), run), s.nextCall) && f in s.accepted ::
      f in Run(Do(s, BeginFlush), run).persisted
  }

  /** The rest of a swap, uninterrupted. */
  lemma SwapFinishes(s: State) returns (run: seq<Label>)
    requires s.section.Exchanging?
    ensures Valid(s, run)
    ensures var e := Run(s, run);
      && e.bufs == s.bufs && e.free == s.free && e.drain == s.drain && e.section.Unlocked? && e.master == s.section.next
      && e.calls == s.calls[s.section.c := match s.section.who case Producer(f) => Loading(f) case Flusher(owed) => FlushTest(owed)]
  {
    var s1 := Do(s, Exchange);
    var s2 := Do(s1, Count);
    ValidCons(s2, Post, []);
    ValidCons(s1, Count, [Post] + []);
    ValidCons(s, Exchange, [Count] + ([Post] + []));
    run := [Exchange] + ([Count] + ([Post] + []));
  }

  /** The first step of flush `c`, with a buffer at hand. */
  lemma FlushLocks(s: State, c: nat, b: nat)
    requires Inv(s) && !Busy(s) && c in s.calls && s.calls[c].FlushEntry? && b < |s.bufs| && Parked(s, b)
    ensures Enabled(s, LockFlush(c))
    ensures var s1 := Do(s, LockFlush(c));
      && s1.bufs == s.bufs
      && if s.bufs[s.master].offset == 0
         then s1.section.Unlocked? && Shelved(s1, b) && c in s1.calls && s1.calls[c].FlushTest?
         else s1.section.Exchanging? && s1.section.c == c && s1.section.who.Flusher? && (b in s1.free || b == s1.section.next)
  {
    O.OwnedInPool(s, s.master);
    assert s.free == [s.free[0]] + s.free[1..];
  }

  /** The swap of flush `c`, uninterrupted, with a buffer at hand. */
  lemma SwapRuns(s: State, c: nat, b: nat) returns (run: seq<Label>)
    requires Inv(s) && !Busy(s) && c in s.calls && s.calls[c].FlushEntry? && b < |s.bufs| && Parked(s, b)
    ensures Valid(s, run)
    ensures var e := Run(s, run);
      && Shelved(e, b) && |e.bufs| == |s.bufs| && e.bufs[b] == s.bufs[b] && c in e.calls && e.calls[c].FlushTest?
  {
    hide Inv, Do, Enabled;
    FlushLocks(s, c, b);
    var s1, rest := Do(s, LockFlush(c)), [];
    if s1.section.Exchanging? { rest := SwapFinishes(s1); }
    ValidCons(s, LockFlush(c), rest);
    run := [LockFlush(c)] + rest;
  }

  /** A parked frame can be left behind: drain everything, swap, drain again, return. */
  lemma ParkedFrameMissed(s: State, f: Frame) returns (run: seq<Label>)
    requires Reachable(s) && Missed(s, f)
    ensures Valid(Do(s, BeginFlush), run)
    ensures var e := Run(Do(s, BeginFlush), run); Returns(e, s.nextCall) && f !in e.persisted
  {
    ReachableInv(s);
    var s1, c := Do(s, BeginFlush), s.nextCall;
    var b := BeginMissed(s, f);
    var r1 := PumpDry(s1, b, c);
    var s2 := Run(s1, r1);
    RunInv(s1, r1);
    var r2 := SwapRuns(s2, c, b);
    var s3 := Run(s2, r2);
    RunInv(s2, r2);
    var r3 := PumpDry(s3, b, c);
    var s4 := Run(s3, r3);
    RunInv(s3, r3);
    ValidConcat(s2, r2, r3);
    ValidConcat(s1, r1, r2 + r3);
    run := r1 + (r2 + r3);
    StillThere(s4, c, b, f);
  }

  lemma StillThere(s: State, c: nat, b: nat, f: Frame)
    requires Inv(s) && !Busy(s) && b < |s.bufs| && f in s.bufs[b].frames && c in s.calls && s.calls[c].FlushTest?
    ensures Returns(s, c) && f !in s.persisted
  {
    assert Loads(s)[b] == s.bufs[b].frames;
    TallyAtLeast(Loads(s), b, f);
    OncePlaced(s, f);
  }

  lemma BeginMissed(s: State, f: Frame) returns (b: nat)
    requires Inv(s) && Missed(s, f)
    ensures var s1 := Do(s, BeginFlush);
      && Inv(s1) && b < |s1.bufs| && Parked(s1, b) && f in s1.bufs[b].frames
      && s.nextCall in s1.calls && s1.calls[s.nextCall].FlushEntry?
  {
    StepInv(s, BeginFlush);
    b :| 0 <= b < |s.bufs| && Parked(s, b) && f in s.bufs[b].frames;
  }

  lemma ParkedIsAccepted(s: State, f: Frame)
    requires Inv(s) && Missed(s, f)
    ensures f in s.accepted
  {
    var b :| 0 <= b < |s.bufs| && Parked(s, b) && f in s.bufs[b].frames;
    assert O.Owners(s, b) == 1;
    assert Loads(s)[b] == s.bufs[b].frames;
    TallyAtLeast(Loads(s), b, f);
    OncePlaced(s, f);
  }

  /** `Flush` keeps its promise exactly when, as it begins, no buffer in `free_` or on
      the way there holds a frame, that is when no late `Write` has gone astray there. */
  lemma FlushGuaranteesIff(s: State)
    requires Reachable(s)
    ensures FlushGuarantees(s) <==>
      forall b | 0 <= b < |s.bufs| && (b in s.free || s.drain == Returning(b)) :: s.bufs[b].frames == []
  {
    ReachableInv(s);
    if b :| 0 <= b < |s.bufs| && (b in s.free || s.drain == Returning(b)) && s.bufs[b].frames != [] {
      assert Parked(s, b);
      var f := s.bufs[b].frames[0];
      ParkedIsAccepted(s, f);
      var run := ParkedFrameMissed(s, f);
    } else {
      forall run, f | Valid(Do(s, BeginFlush), run) && Returns(Run(Do(s, BeginFlush), run), s.nextCall) && f in s.accepted
        ensures f in Run(Do(s, BeginFlush), run).persisted
      {
        FlushComplete(s, run, f);
      }
    }
  }

  // ---------------------------------------------- a write that goes astray

  const TWO_SMALL := Config(16, 2, 2)
  const FIRST := Frame(0, [7])
  const LATE := Frame(1, [8])

  lemma Two(s: State, l: Label, k: Label)
    requires Enabled(s, l) && Enabled(Do(s, l), k)
    ensures Valid(s, [l, k]) && Run(s, [l, k]) == Do(Do(s, l), k)
  {
    ValidCons(Do(s, l), k, []);
    ValidCons(s, l, [k]);
    assert [l] + [k] == [l, k];
  }

  /** One record is in the master. */
  function Written(): State {
    State(TWO_SMALL, [Buf([FIRST], 5, false), FRESH_BUF], [1], 0, 0, [], Idle, Unlocked, map[], 1, [FIRST], [], {})
  }

  lemma RunsToWritten() returns (run: seq<Label>)
    ensures Valid(Init(TWO_SMALL), run) && Run(Init(TWO_SMALL), run) == Written()
    ensures run == [BeginAppend([7]), LoadMaster(0), TryWrite(0)]
  {
    var s0 := Init(TWO_SMALL);
    assert s0.bufs == [FRESH_BUF, FRESH_BUF] && s0.free == [1];
    var s1 := Do(s0, BeginAppend([7]));
    Two(s1, LoadMaster(0), TryWrite(0));
    var s2 := Do(s1, LoadMaster(0));
    assert s2.calls == map[0 := Writing(FIRST, 0)];
    assert FRESH_BUF.frames + [FIRST] == [FIRST];
    var s3 := Do(s2, TryWrite(0));
    assert s3.bufs == [Buf([FIRST], 5, false), FRESH_BUF] && s3.calls == map[];
    ValidCons(s0, BeginAppend([7]), [LoadMaster(0), TryWrite(0)]);
    run := [BeginAppend([7])] + [LoadMaster(0), TryWrite(0)];
  }

  /** A second producer has just loaded the master. */
  function Loaded(): State {
    Written().(calls := map[1 := Writing(LATE, 0)], nextCall := 2)
  }

  /** A flush holds the lock and the free buffer. */
  function Taken(): State {
    Loaded().(free := [], section := Exchanging(2, Flusher({FIRST}), 1), nextCall := 3)
  }

  lemma RunsToTaken()
    ensures Valid(Written(), [BeginAppend([8]), LoadMaster(1)])
    ensures Run(Written(), [BeginAppend([8]), LoadMaster(1)]) == Loaded()
    ensures Valid(Loaded(), [BeginFlush, LockFlush(2)])
    ensures Run(Loaded(), [BeginFlush, LockFlush(2)]) == Taken()
  {
    Two(Written(), BeginAppend([8]), LoadMaster(1));
    assert Owed(Loaded()) == {FIRST};
    assert Do(Loaded(), BeginFlush).calls - {2} == Loaded().calls;
    Two(Loaded(), BeginFlush, LockFlush(2));
  }

  /** It has swapped the master out and posted the drain. */
  function Swapped(): State {
    Loaded().(free := [], master := 1, inFlight := 1, strand := [0], nextCall := 3,
              calls := map[1 := Writing(LATE, 0), 2 := FlushTest({FIRST})])
  }

  lemma RunsToSwapped() returns (run: seq<Label>)
    ensures Valid(Taken(), run) && Run(Taken(), run) == Swapped()
    ensures run == [Exchange, Count, Post]
  {
    var s1 := Do(Taken(), Exchange);
    Two(s1, Count, Post);
    ValidCons(Taken(), Exchange, [Count, Post]);
    run := [Exchange] + [Count, Post];
  }

  /** The record is delivered and the buffer reset, on its way to `free_`. */
  function Emptied(): State {
    Swapped().(bufs := [FRESH_BUF, FRESH_BUF], strand := [], drain := Returning(0), persisted := [FIRST])
  }

  lemma RunsToEmptied()
    ensures Valid(Swapped(), [StartDrain, SealBuf])
    ensures var s := Run(Swapped(), [StartDrain, SealBuf]);
      Valid(s, [Persist, ResetBuf]) && Run(s, [Persist, ResetBuf]) == Emptied()
  {
    Two(Swapped(), StartDrain, SealBuf);
    var s := Run(Swapped(), [StartDrain, SealBuf]);
    assert s == Sealed();
    DrainsSealed();
  }

  function Sealed(): State {
    Swapped().(bufs := [Buf([FIRST], 5, true), FRESH_BUF], strand := [], drain := Walking(0, 0))
  }

  lemma DrainsSealed()
    ensures Valid(Sealed(), [Persist, ResetBuf]) && Run(Sealed(), [Persist, ResetBuf]) == Emptied()
  {
    Two(Sealed(), Persist, ResetBuf);
  }

  /** The late producer writes to the buffer it loaded, drained and reset by now; the
      write succeeds, and the record sits where no flush looks. */
  lemma LateWriteStrays()
    ensures Enabled(Emptied(), TryWrite(1)) && Reachable(Emptied())
    ensures var s := Do(Emptied(), TryWrite(1));
      Reachable(s) && LATE in s.accepted && Missed(s, LATE) && s.stray == {LATE} && !FlushGuarantees(s)
  {
    var s, t := Emptied(), Do(Emptied(), TryWrite(1));
    var toEmptied := RunToEmptied();
    assert ReachedBy(s, TWO_SMALL, toEmptied);
    ValidCons(s, TryWrite(1), []);
    ValidConcat(Init(TWO_SMALL), toEmptied, [TryWrite(1)]);
    assert ReachedBy(t, TWO_SMALL, toEmptied + [TryWrite(1)]);
    assert Parked(t, 0) && LATE in t.bufs[0].frames;
    assert Missed(t, LATE);
    FlushGuaranteesIff(t);
  }

  lemma RunToEmptied() returns (run: seq<Label>)
    ensures Valid(Init(TWO_SMALL), run) && Run(Init(TWO_SMALL), run) == Emptied()
  {
    var first := RunsToWritten();
    var rest := EmptiedFromWritten();
    ValidConcat(Init(TWO_SMALL), first, rest);
    run := first + rest;
  }

  lemma EmptiedFromWritten() returns (run: seq<Label>)
    ensures Valid(Written(), run) && Run(Written(), run) == Emptied()
    ensures run != [] && run[0] == BeginAppend([8]) && forall i | 0 < i < |run| :: !run[i].BeginAppend?
  {
    var second := RunsToSwapped();
    RunsToTaken();
    RunsToEmptied();
    var load, flush := [BeginAppend([8]), LoadMaster(1)], [BeginFlush, LockFlush(2)];
    var seal, empty := [StartDrain, SealBuf], [Persist, ResetBuf];
    ValidConcat(Swapped(), seal, empty);
    ValidConcat(Taken(), second, seal + empty);
    ValidConcat(Loaded(), flush, second + (seal + empty));
    ValidConcat(Written(), load, flush + (second + (seal + empty)));
    run := load + (flush + (second + (seal + empty)));
  }
}
