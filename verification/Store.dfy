/** What holds of the store over whole runs. */
module Store {
  import opened Counting
  import opened StoreMachine
  import opened StoreFrames
  import O = StoreOwnership
  import F = StoreFlush
  import W = StoreWaits
  import S = StoreOrder

  ghost predicate Inv(s: State) {
    && O.Inv(s) && CursorOk(s) && Conserved(s) && Identified(s)
    && F.OffsetOk(s) && F.FlushInv(s) && W.Inv(s)
  }

  lemma InitInv(c: Config)
    ensures Inv(Init(c)) && S.Solo(Init(c)) && S.CallOrder(Init(c)) && OrderInv(Init(c))
  {
    var s := Init(c);
    O.InitInv(c);
    forall f: Frame
      ensures Balanced(s, f) && F.AllMet(s, f)
    {
      TallyEmpty(Loads(s), f);
    }
    assert forall d, f :: !Carries(s, d, f);
    assert forall d :: !S.Active(s, d);
    S.PathIsOk(s);
    S.FlatEmpty(Loads(s), S.Path(s));
  }

  lemma {:induction false} TallyEmpty(loads: seq<seq<Frame>>, f: Frame)
    requires forall i | 0 <= i < |loads| :: loads[i] == []
    ensures Tally(loads, f) == 0
  {
    if loads != [] { TallyEmpty(loads[1..], f); }
  }

  lemma StepInv(s: State, l: Label)
    requires Inv(s) && Enabled(s, l)
    ensures Inv(Do(s, l))
  {
    O.StepInv(s, l);
    StepCursor(s, l);
    StepConserved(s, l);
    StepIdentified(s, l);
    F.StepOffset(s, l);
    F.StepFlush(s, l);
    W.StepInv(s, l);
  }

  lemma {:induction false} RunInv(s: State, run: seq<Label>)
    requires Inv(s) && Valid(s, run)
    ensures Inv(Run(s, run))
    decreases |run|
  {
    if run != [] {
      StepInv(s, run[0]);
      RunInv(Do(s, run[0]), run[1..]);
    }
  }

  ghost predicate Reachable(s: State) {
    exists c, run :: ReachedBy(s, c, run)
  }

  ghost predicate ReachedBy(s: State, c: Config, run: seq<Label>) {
    Valid(Init(c), run) && Run(Init(c), run) == s
  }

  lemma ReachableInv(s: State)
    requires Reachable(s)
    ensures Inv(s)
  {
    var c, run :| ReachedBy(s, c, run);
    InitInv(c);
    RunInv(Init(c), run);
  }

  /** Ownership: each buffer of the pool is the master, free, posted, being drained, or
      in the lock holder's hands, and only one of these; the pool respects its bound,
      the master is never sealed, and `in_flight_` counts the unfinished drain tasks. */
  lemma OwnershipPartition(s: State)
    requires Reachable(s)
    ensures forall b: nat | b < |s.bufs| :: O.Owners(s, b) == 1
    ensures forall b: nat | b >= |s.bufs| :: O.Owners(s, b) == 0
    ensures 0 < |s.bufs| <= s.cfg.maxBuffers && s.master < |s.bufs| && !s.bufs[s.master].sealed
    ensures s.inFlight == |s.strand| + One(!s.drain.Idle? && !s.drain.NotifyingFlush?) + One(s.section.Posting?)
  {
    ReachableInv(s);
    assert O.Owners(s, s.master) == One(s.master < |s.bufs|);
  }

  /** Conservation, stale master loads included: every frame that `Append` accepted has
      been delivered once or sits undelivered in one buffer, and nothing else has. */
  lemma NothingLostOrRepeated(s: State, f: Frame)
    requires Reachable(s)
    ensures multiset(s.accepted)[f] == multiset(s.persisted)[f] + Tally(Loads(s), f) <= 1
    ensures f in s.accepted <==> f in s.persisted || exists b :: 0 <= b < |s.bufs| && f in Loads(s)[b]
  {
    ReachableInv(s);
    OncePlaced(s, f);
    if Tally(Loads(s), f) > 0 { var b := TallyFinds(Loads(s), f); }
    if b :| 0 <= b < |s.bufs| && f in Loads(s)[b] { TallyAtLeast(Loads(s), b, f); }
  }

  /** No notification is lost: a sleeper with a free buffer has a notification or a
      woken thread ahead of it, and a sleeping flusher with nothing in flight is about
      to be woken. */
  lemma NoLostWakeup(s: State)
    requires Reachable(s)
    ensures W.Sleepers(s) != {} ==> |s.free| <= One(s.drain.NotifyingFree?) + |W.Risen(s)|
    ensures s.inFlight == 0 && (exists c :: c in s.calls && s.calls[c].FlushAsleep?) ==> s.drain.NotifyingFlush?
    ensures W.Sleepers(s) != {} ==> |s.bufs| == s.cfg.maxBuffers
  {
    ReachableInv(s);
  }

  // ----------------------------------------------------------------- flush

  /** The flush in call `c` is about to return. */
  predicate Returns(s: State, c: nat) {
    Enabled(s, TestFlush(c)) && s.inFlight == 0
  }

  /** Call `c` is the flush owed `owed`, or is over. */
  predicate Keeps(s: State, c: nat, owed: set<Frame>) {
    && c < s.nextCall
    && (c in s.calls ==> F.ClaimOf(s.calls[c]) == F.Before(owed) || F.ClaimOf(s.calls[c]) == F.After(owed))
    && (!s.section.Unlocked? && s.section.c == c ==> s.section.who == Flusher(owed))
  }

  lemma StepKeeps(s: State, l: Label, c: nat, owed: set<Frame>)
    requires O.CallsKnown(s) && Keeps(s, c, owed) && Enabled(s, l)
    ensures Keeps(Do(s, l), c, owed)
  {}

  lemma {:induction false} RunKeeps(s: State, run: seq<Label>, c: nat, owed: set<Frame>)
    requires Inv(s) && Keeps(s, c, owed) && Valid(s, run)
    ensures Keeps(Run(s, run), c, owed)
    decreases |run|
  {
    if run != [] {
      StepInv(s, run[0]);
      StepKeeps(s, run[0], c, owed);
      RunKeeps(Do(s, run[0]), run[1..], c, owed);
    }
  }

  /** With nothing in flight and the lock free, no buffer is in line. */
  lemma LineEmpty(s: State, b: nat)
    requires O.InFlightExact(s) && s.inFlight == 0 && s.section.Unlocked?
    ensures !F.InLine(s, b)
  {}

  /** When a flush that began in `s` returns, whatever others did meanwhile, every frame
      accepted before it began has been handed over, unless a parked buffer held it. */
  lemma FlushComplete(s: State, run: seq<Label>, f: Frame)
    requires Reachable(s) && Valid(Do(s, BeginFlush), run) && Returns(Run(Do(s, BeginFlush), run), s.nextCall)
    requires f in s.accepted
    ensures f in Run(Do(s, BeginFlush), run).persisted
      || exists b :: 0 <= b < |s.bufs| && (b in s.free || s.drain == Returning(b)) && f in s.bufs[b].frames
  {
    hide Inv;
    var c, s1 := s.nextCall, Do(s, BeginFlush);
    ReachableInv(s);
    StepInv(s, BeginFlush);
    RunInv(s1, run);
    Begun(s);
    RunKeeps(s1, run, c, Owed(s));
    if !Missed(s, f) { ReturnedMeets(Run(s1, run), c, Owed(s), f); }
  }

  lemma Begun(s: State)
    requires Inv(s)
    ensures Keeps(Do(s, BeginFlush), s.nextCall, Owed(s))
  {}

  lemma ReturnedMeets(e: State, c: nat, owed: set<Frame>, f: Frame)
    requires Inv(e) && Keeps(e, c, owed) && Returns(e, c) && f in owed
    ensures f in e.persisted
  {
    assert F.AllMet(e, f) && F.Met(e, F.ClaimOf(e.calls[c]), f);
    forall b
      ensures !F.InLine(e, b)
    {
      LineEmpty(e, b);
    }
  }

  // ----------------------------------------------------------------- order

  ghost predicate OrderInv(s: State) {
    S.OffClean(s) && (s.stray == {} ==> S.InOrder(s) && S.WritersLast(s))
  }

  ghost predicate PoliteRun(s: State, run: seq<Label>)
    requires Valid(s, run)
    decreases |run|
  {
    run == [] || (S.Polite(s, run[0]) && PoliteRun(Do(s, run[0]), run[1..]))
  }

  lemma StepOrder(s: State, l: Label)
    requires Inv(s) && S.Solo(s) && OrderInv(s) && Enabled(s, l)
    ensures OrderInv(Do(s, l))
  {
    S.StepOffClean(s, l);
    if Do(s, l).stray == {} {
      O.StepInv(s, l);
      S.PathIsOk(Do(s, l));
      S.StepInOrder(s, l);
      S.StepWritersLast(s, l);
    }
  }

  lemma {:induction false} RunOrder(s: State, run: seq<Label>)
    requires Inv(s) && S.Solo(s) && S.CallOrder(s) && OrderInv(s) && Valid(s, run) && PoliteRun(s, run)
    ensures OrderInv(Run(s, run)) && S.CallOrder(Run(s, run))
    decreases |run|
  {
    if run != [] {
      var l := run[0];
      StepInv(s, l);
      S.StepSolo(s, l);
      S.StepCallOrder(s, l);
      StepOrder(s, l);
      RunOrder(Do(s, l), run[1..]);
    }
  }
}
