/** What `Append` does when its `Write` has failed, among other threads: the second look at
    the master under the lock, the swap, and the ways in which the call can end. */
module StoreAppend {
  import opened Bytes
  import opened Counting
  import opened StoreMachine
  import opened Store
  import opened StoreProgress
  import O = StoreOwnership
  import W = StoreWaits

  /** `e` is `s` but for call `c`. */
  predicate OnlyCall(s: State, e: State, c: nat) {
    && e.cfg == s.cfg && e.bufs == s.bufs && e.free == s.free && e.master == s.master && e.inFlight == s.inFlight
    && e.strand == s.strand && e.drain == s.drain && e.section == s.section && e.nextCall == s.nextCall
    && e.accepted == s.accepted && e.persisted == s.persisted && e.stray == s.stray
    && e.calls - {c} == s.calls - {c}
  }

  /** A producer that finds another master under the lock takes no buffer and does not wait;
      its next write goes to the master it found, and is accepted exactly if it fits there. */
  lemma RecheckRetries(s: State, c: nat)
    requires Reachable(s) && Enabled(s, LockAppend(c)) && s.master != s.calls[c].cur
    ensures var e, f := Do(s, LockAppend(c)), s.calls[c].f;
      && OnlyCall(s, e, c) && c in e.calls && e.calls[c] == Loading(f)
      && Valid(e, [LoadMaster(c), TryWrite(c)]) && s.master < |s.bufs|
      && var r, fits := Run(e, [LoadMaster(c), TryWrite(c)]),
                           0 < |f.payload| < 0x1_0000_0000 && s.bufs[s.master].offset + 4 + |f.payload| <= s.cfg.capacity;
         && (r.accepted == s.accepted + [f] <==> fits) && (r.accepted == s.accepted <==> !fits)
         && (c !in r.calls <==> fits) && (!fits ==> r.calls[c] == Locking(f, s.master))
         && |r.bufs| == |s.bufs| && (fits ==> r.bufs[s.master].frames == s.bufs[s.master].frames + [f])
         && r.free == s.free && r.master == s.master && r.strand == s.strand && r.section == s.section
  {
    var e, f := Do(s, LockAppend(c)), s.calls[c].f;
    hide Inv, Do, Enabled;
    ReachableInv(s);
    MasterUnsealed(s);
    GoesRound(s, c);
    LoadAndWrite(e, c, f);
  }

  lemma GoesRound(s: State, c: nat)
    requires Enabled(s, LockAppend(c)) && s.master != s.calls[c].cur
    ensures var e := Do(s, LockAppend(c)); OnlyCall(s, e, c) && c in e.calls && e.calls[c] == Loading(s.calls[c].f)
  {}

  /** One round of the loop in `Append`, with nobody in between. */
  lemma LoadAndWrite(s: State, c: nat, f: Frame)
    requires c in s.calls && s.calls[c] == Loading(f) && s.master < |s.bufs| && !s.bufs[s.master].sealed
    ensures Valid(s, [LoadMaster(c), TryWrite(c)])
    ensures var r, fits := Run(s, [LoadMaster(c), TryWrite(c)]), 0 < |f.payload| < 0x1_0000_0000 && s.bufs[s.master].offset + 4 + |f.payload| <= s.cfg.capacity;
      && (r.accepted == s.accepted + [f] <==> fits) && (r.accepted == s.accepted <==> !fits)
      && (c !in r.calls <==> fits) && (!fits ==> r.calls[c] == Locking(f, s.master)) && |r.bufs| == |s.bufs|
      && (fits ==> r.bufs[s.master].frames == s.bufs[s.master].frames + [f])
      && r.free == s.free && r.master == s.master && r.strand == s.strand && r.section == s.section
  {
    var s1 := Do(s, LoadMaster(c));
    var s2 := Do(s1, TryWrite(c));
    ValidCons(s1, TryWrite(c), []);
    ValidCons(s, LoadMaster(c), [TryWrite(c)] + []);
    assert [LoadMaster(c)] + ([TryWrite(c)] + []) == [LoadMaster(c), TryWrite(c)];
    assert |s.accepted + [f]| == |s.accepted| + 1;
  }

  lemma MasterUnsealed(s: State)
    requires Inv(s)
    ensures s.master < |s.bufs| && !s.bufs[s.master].sealed
  {
    O.OwnedInPool(s, s.master);
    assert O.Owners(s, s.master) == 1;
  }

  // ------------------------------------------------ one swap for each full buffer

  /** A producer whose write to `b` failed takes the lock. */
  predicate LocksAfter(s: State, l: Label, b: nat) {
    Enabled(s, l) && l.LockAppend? && s.calls[l.c].cur == b
  }

  /** And it goes on without waiting. */
  predicate NoWait(s: State, l: Label, b: nat) {
    LocksAfter(s, l, b) && !(l.c in Do(s, l).calls && Do(s, l).calls[l.c].Asleep?)
  }

  /** And it comes out with a buffer to swap in. */
  predicate Swaps(s: State, l: Label, b: nat) {
    LocksAfter(s, l, b) && Do(s, l).section.Exchanging?
  }

  /** `b` is swapped out. */
  predicate Leaves(s: State, l: Label, b: nat) {
    Enabled(s, l) && l == Exchange && s.master == b
  }

  /** `b` is swapped in. */
  predicate Enters(s: State, l: Label, b: nat) {
    Enabled(s, l) && l == Exchange && s.section.next == b
  }

  datatype Tally = Tally(noWait: nat, swaps: nat, leaves: nat, enters: nat)

  /** How often each of these happens along a run. */
  function Count(s: State, run: seq<Label>, b: nat): Tally
    requires Valid(s, run)
    decreases |run|
  {
    if run == [] then Tally(0, 0, 0, 0)
    else
      var l, rest := run[0], Count(Do(s, run[0]), run[1..], b);
      Tally(rest.noWait + One(NoWait(s, l, b)), rest.swaps + One(Swaps(s, l, b)),
            rest.leaves + One(Leaves(s, l, b)), rest.enters + One(Enters(s, l, b)))
  }

  /** `b` is the master, and nobody is about to swap it out. */
  predicate Settled(s: State, b: nat) {
    s.master == b && !s.section.Exchanging?
  }

  lemma StepCounts(s: State, l: Label, b: nat)
    requires Enabled(s, l)
    ensures One(Swaps(s, l, b)) + One(Settled(Do(s, l), b)) <= One(Settled(s, b)) + One(Enters(s, l, b))
    ensures One(Leaves(s, l, b)) + One(Do(s, l).master == b) == One(s.master == b) + One(Enters(s, l, b))
    ensures NoWait(s, l, b) ==> !Settled(Do(s, l), b)
    ensures !Settled(s, b) && !Enters(s, l, b) ==> !Settled(Do(s, l), b)
  {}

  /** Over any run, whatever others do: `b` is swapped out as often as it became master, less
      one if it still is, and producers that failed on it swap it out no more often. */
  lemma {:induction false} SwapsBalance(s: State, run: seq<Label>, b: nat)
    requires Valid(s, run)
    ensures var t, e := Count(s, run, b), Run(s, run);
      && t.leaves + One(e.master == b) == One(s.master == b) + t.enters
      && t.swaps + One(Settled(e, b)) <= One(Settled(s, b)) + t.enters
      && (t.noWait > 0 && t.enters == 0 ==> !Settled(e, b))
    decreases |run|
  {
    hide Do, Enabled, NoWait, Swaps, Leaves, Enters, Settled;
    if run != [] {
      StepCounts(s, run[0], b);
      SwapsBalance(Do(s, run[0]), run[1..], b);
      if !Settled(Do(s, run[0]), b) && Count(s, run, b).enters == 0 { StaysGone(Do(s, run[0]), run[1..], b); }
    }
  }

  lemma {:induction false} StaysGone(s: State, run: seq<Label>, b: nat)
    requires Valid(s, run) && !Settled(s, b) && Count(s, run, b).enters == 0
    ensures !Settled(Run(s, run), b)
    decreases |run|
  {
    hide Do, Enabled, NoWait, Swaps, Leaves, Enters, Settled;
    if run != [] {
      StepCounts(s, run[0], b);
      StaysGone(Do(s, run[0]), run[1..], b);
    }
  }

  /** However many producers fail on one full buffer, it is swapped out exactly once if any
      of them took the lock without having to wait, by one of them or by somebody else: for
      every run that does not bring the buffer back, once nobody is swapping. */
  lemma SwappedOutOnce(s: State, run: seq<Label>, b: nat)
    requires Valid(s, run) && s.master == b && s.section.Unlocked? && Count(s, run, b).enters == 0
    ensures var t, e := Count(s, run, b), Run(s, run);
      && t.swaps <= 1 && t.leaves <= 1
      && (t.noWait > 0 && e.section.Unlocked? ==> t.leaves == 1 && e.master != b)
  {
    SwapsBalance(s, run, b);
  }

  // ------------------------------------------------------------ taking a buffer

  /** Free buffers are taken in turn; the pool grows only when none is free and it may; and
      the buffer taken is the one swapped in. */
  lemma BuffersTakenInTurn(s: State, l: Label)
    requires Enabled(s, l)
    ensures var e := Do(s, l);
      && (e.free == s.free || (s.free != [] && e.free == s.free[1..]) || (s.drain.Returning? && e.free == s.free + [s.drain.b]))
      && (|e.bufs| != |s.bufs| ==>
            s.free == [] && |s.bufs| < s.cfg.maxBuffers && e.bufs == s.bufs + [Buf([], 0, false)] && e.section.Exchanging?)
      && (s.section.Unlocked? && !e.section.Unlocked? ==>
            e.section.Exchanging? && e.section.next == if s.free != [] then s.free[0] else |s.bufs|)
      && (e.master != s.master ==> s.section.Exchanging? && e.master == s.section.next)
  {}

  /** A thread is put to sleep only when nothing is free and the pool is full. */
  lemma SleepsWhenNothingLeft(s: State, l: Label, c: nat)
    requires Reachable(s) && Enabled(s, l) && c in Do(s, l).calls && Do(s, l).calls[c].Asleep?
    ensures (c in s.calls && s.calls[c].Asleep?) || (s.free == [] && |s.bufs| == s.cfg.maxBuffers)
  {
    ReachableInv(s);
    PoolFull(s);
    if c in s.calls && s.calls[c].Woken? { WokenWhenFull(s, c); }
    hide Inv;
  }

  lemma PoolFull(s: State)
    requires Inv(s)
    ensures |s.bufs| <= s.cfg.maxBuffers && O.CallsKnown(s)
  {}

  // ------------------------------------------------------------- how calls end

  /** Call `c` has not returned. */
  predicate Under(s: State, c: nat) {
    c in s.calls || (!s.section.Unlocked? && s.section.c == c)
  }

  /** The frame that a producer's call is to write. */
  predicate Appends(s: State, c: nat, f: Frame) {
    && (c in s.calls ==>
          match s.calls[c]
          case Loading(g) => g == f
          case Writing(g, _) => g == f
          case Locking(g, _) => g == f
          case Asleep(who) => who == Producer(f)
          case Woken(who, _) => who == Producer(f)
          case _ => false)
    && (!s.section.Unlocked? && s.section.c == c ==> s.section.who == Producer(f))
  }

  /** An `Append` returns true when a write was accepted that fits behind what the buffer
      holds, and false only when its wait has timed out with nothing free and the pool full;
      until then it is still the same append. */
  lemma AppendEnds(s: State, l: Label, c: nat, f: Frame)
    requires Reachable(s) && Enabled(s, l) && Under(s, c) && Appends(s, c, f)
    ensures var e := Do(s, l);
      if Under(e, c) then Appends(e, c, f) && (l == TryWrite(c) ==> e.accepted == s.accepted)
      else if l == TryWrite(c) then
        && s.calls[c].cur < |s.bufs| && e.accepted == s.accepted + [f]
        && 0 < |f.payload| < 0x1_0000_0000 && !s.bufs[s.calls[c].cur].sealed
        && s.bufs[s.calls[c].cur].offset + 4 + |f.payload| <= s.cfg.capacity
      else
        && l == Resume(c) && s.calls[c] == Woken(Producer(f), true) && s.free == [] && |s.bufs| == s.cfg.maxBuffers
        && e.accepted == s.accepted
  {
    hide Inv;
    ReachableInv(s);
    PoolFull(s);
    if c in s.calls && s.calls[c].Woken? { WokenWhenFull(s, c); }
    if l.Exchange? || l.Count? || l.Post? {
      HolderGoesOn(s, l, c, f);
    } else if l == TryWrite(c) || l == Resume(c) {
      OwnEnd(s, l, c, f);
    } else {
      OthersLeave(s, l, c, f);
    }
  }

  lemma HolderGoesOn(s: State, l: Label, c: nat, f: Frame)
    requires O.CallsKnown(s) && Enabled(s, l) && Under(s, c) && Appends(s, c, f) && (l.Exchange? || l.Count? || l.Post?)
    ensures Under(Do(s, l), c) && Appends(Do(s, l), c, f)
  {}

  lemma OthersLeave(s: State, l: Label, c: nat, f: Frame)
    requires O.CallsKnown(s) && Enabled(s, l) && Under(s, c) && Appends(s, c, f)
    requires !(l.Exchange? || l.Count? || l.Post?) && l != TryWrite(c) && l != Resume(c)
    ensures Under(Do(s, l), c) && Appends(Do(s, l), c, f)
  {}

  lemma OwnEnd(s: State, l: Label, c: nat, f: Frame)
    requires O.CallsKnown(s) && Enabled(s, l) && Under(s, c) && Appends(s, c, f) && (l == TryWrite(c) || l == Resume(c))
    ensures var e := Do(s, l);
      if Under(e, c) then Appends(e, c, f) && (l == TryWrite(c) ==> e.accepted == s.accepted)
      else if l == TryWrite(c) then
        && s.calls[c].cur < |s.bufs| && e.accepted == s.accepted + [f]
        && 0 < |f.payload| < 0x1_0000_0000 && !s.bufs[s.calls[c].cur].sealed
        && s.bufs[s.calls[c].cur].offset + 4 + |f.payload| <= s.cfg.capacity
      else
        && s.calls[c] == Woken(Producer(f), true) && s.free == [] && e.accepted == s.accepted
  {}

  lemma WokenWhenFull(s: State, c: nat)
    requires Inv(s) && c in s.calls && s.calls[c].Woken?
    ensures |s.bufs| == s.cfg.maxBuffers
  {
    assert c in W.Risen(s);
  }

  // ------------------------------------------------------------------- flush

  /** A flush leaves an unused master alone, and will have a used one swapped out. */
  lemma FlushSwapsUsed(s: State, c: nat)
    requires Enabled(s, LockFlush(c))
    ensures var e := Do(s, LockFlush(c));
      if s.bufs[s.master].offset == 0 then OnlyCall(s, e, c) && c in e.calls && e.calls[c].FlushTest?
      else (e.section.Exchanging? && e.section.c == c) || (c in e.calls && e.calls[c].Asleep? && OnlyCall(s, e, c))
  {}

  /** The wait of a flush has no timeout. */
  ghost predicate Patient(s: State) {
    forall c | c in s.calls && s.calls[c].Woken? && s.calls[c].who.Flusher? :: !s.calls[c].timedOut
  }

  lemma {:induction false} RunPatient(s: State, run: seq<Label>)
    requires Patient(s) && Valid(s, run)
    ensures Patient(Run(s, run))
    decreases |run|
  {
    hide Do, Enabled, Patient;
    if run != [] {
      StepPatient(s, run[0]);
      RunPatient(Do(s, run[0]), run[1..]);
    }
  }

  lemma StepPatient(s: State, l: Label)
    requires Patient(s) && Enabled(s, l)
    ensures Patient(Do(s, l))
  {}

  lemma FlushWaitsOn(s: State, l: Label, c: nat, owed: set<Frame>)
    requires O.CallsKnown(s) && Patient(s) && Enabled(s, l) && Under(s, c) && Keeps(s, c, owed)
    ensures if Under(Do(s, l), c) then Keeps(Do(s, l), c, owed) else l == TestFlush(c) && s.inFlight == 0
  {
    StepKeeps(s, l, c, owed);
  }

  /** A flush returns only from the test that finds nothing in flight; until then it is still
      the flush that is owed what it was owed as it began. */
  lemma FlushEnds(s: State, l: Label, c: nat, owed: set<Frame>)
    requires Reachable(s) && Enabled(s, l) && Under(s, c) && Keeps(s, c, owed)
    ensures if Under(Do(s, l), c) then Keeps(Do(s, l), c, owed) else l == TestFlush(c) && s.inFlight == 0
  {
    hide Inv, Do, Enabled, Patient, Keeps;
    ReachableInv(s);
    PoolFull(s);
    var cfg, run :| ReachedBy(s, cfg, run);
    StartsPatient(cfg);
    RunPatient(Init(cfg), run);
    FlushWaitsOn(s, l, c, owed);
  }

  lemma StartsPatient(cfg: Config)
    ensures Patient(Init(cfg))
  {}
}
