/** The store goes on serving: posted work gets done, and a thread that waits for a buffer
    gets one, exactly when the pool may hold two. */
module StoreService {
  import opened Framing
  import opened StoreMachine
  import opened StoreFrames
  import opened Store
  import opened StoreProgress
  import O = StoreOwnership
  import F = StoreFlush
  import W = StoreWaits

  /** A step of the lock holder or of the strand. */
  predicate Works(l: Label) {
    || l.Exchange? || l.Count? || l.Post?
    || l.StartDrain? || l.SealBuf? || l.Persist? || l.ResetBuf? || l.ReturnBuf?
    || l.NotifyOne? || l.NotifyNobody? || l.Subtract? || l.NotifyFlush?
  }

  /** Or of a thread that has been woken: no new call, no timeout, no spurious wake-up. */
  predicate Serves(l: Label) {
    Works(l) || l.Resume?
  }

  predicate AllWork(run: seq<Label>) {
    forall i | 0 <= i < |run| :: Works(run[i])
  }

  predicate AllServe(run: seq<Label>) {
    forall i | 0 <= i < |run| :: Serves(run[i])
  }

  lemma PumpWorks(s: State)
    requires Inv(s) && Busy(s)
    ensures Works(Pump(s)) && Enabled(s, Pump(s)) && Do(s, Pump(s)).accepted == s.accepted
  {
    PumpEnabled(s);
  }

  lemma HandedIsDelivered(s: State, f: Frame)
    requires Inv(s) && !Busy(s) && F.Handed(s, f)
    ensures f in s.persisted
  {}

  /** Left to themselves, the lock holder and the strand finish all posted work: nothing is
      left in flight, and what was in line has been delivered. */
  lemma {:induction false} WorkGetsDone(s: State) returns (run: seq<Label>)
    requires Inv(s)
    ensures Valid(s, run) && AllWork(run)
    ensures var e := Run(s, run);
      && !Busy(e) && e.inFlight == 0 && e.accepted == s.accepted
      && forall f | F.Handed(s, f) :: f in e.persisted
    decreases SectionRank(s), |s.strand|, DrainRank(s), FramesLeft(s)
  {
    if Busy(s) {
      var l := Pump(s);
      PumpWorks(s);
      PumpDecreases(s);
      StepInv(s, l);
      forall f | F.Handed(s, f)
        ensures F.Handed(Do(s, l), f)
      {
        F.StepHanded(s, l, f);
      }
      var rest := WorkGetsDone(Do(s, l));
      ValidCons(s, l, rest);
      run := [l] + rest;
    } else {
      run := [];
      forall f | F.Handed(s, f)
        ensures f in s.persisted
      {
        HandedIsDelivered(s, f);
      }
    }
  }

  // --------------------------------------------------------------- a waiting thread

  predicate Sleeps(s: State, c: nat) {
    c in s.calls && s.calls[c].Asleep?
  }

  predicate Awake(s: State, c: nat) {
    c in s.calls && s.calls[c].Woken?
  }

  /** Call `c` has got a buffer, and holds the lock to swap it in. */
  predicate Holds(s: State, c: nat, who: Who) {
    s.section.Exchanging? && s.section.c == c && s.section.who == who
  }

  /** A notification of the waiters is still to come. */
  predicate NotifyAhead(s: State) {
    !s.section.Unlocked? || s.strand != [] || DrainRank(s) >= 3
  }

  lemma PumpKeepsWaiter(s: State, c: nat)
    requires Inv(s) && Busy(s) && Enabled(s, Pump(s)) && (Sleeps(s, c) || Awake(s, c))
    requires Sleeps(s, c) ==> !(s.section.Unlocked? && s.drain.NotifyingFree?)
    ensures c in Do(s, Pump(s)).calls && Do(s, Pump(s)).calls[c] == s.calls[c]
    ensures Sleeps(s, c) && NotifyAhead(s) ==> NotifyAhead(Do(s, Pump(s)))
    ensures |s.bufs| <= |Do(s, Pump(s)).bufs|
  {}

  lemma {:induction false} PumpToNotify(s: State, c: nat) returns (run: seq<Label>)
    requires Inv(s) && Sleeps(s, c) && NotifyAhead(s)
    ensures Valid(s, run) && AllServe(run)
    ensures var e := Run(s, run);
      Inv(e) && Sleeps(e, c) && e.calls[c] == s.calls[c] && e.section.Unlocked? && e.drain.NotifyingFree? && |s.bufs| <= |e.bufs|
    decreases SectionRank(s), |s.strand|, DrainRank(s), FramesLeft(s)
  {
    run := [];
    if !(s.section.Unlocked? && s.drain.NotifyingFree?) {
      var l := Pump(s);
      PumpWorks(s);
      PumpDecreases(s);
      PumpKeepsWaiter(s, c);
      StepInv(s, l);
      var rest := PumpToNotify(Do(s, l), c);
      ValidCons(s, l, rest);
      run := [l] + rest;
    }
  }

  /** With nothing of the kind ahead, a free buffer is due to a thread that has been woken,
      and what that thread swaps out will be drained. */
  lemma SomebodyWoken(s: State, c: nat) returns (d: nat)
    requires Inv(s) && Sleeps(s, c) && |s.bufs| >= 2 && !NotifyAhead(s)
    ensures Enabled(s, Resume(d)) && NotifyAhead(Do(s, Resume(d)))
    ensures Sleeps(Do(s, Resume(d)), c) && Do(s, Resume(d)).calls[c] == s.calls[c]
  {
    SomethingAheadHere(s);
    assert c in W.Sleepers(s);
    assert |W.Risen(s)| > 0;
    assert W.Risen(s) != {};
    d :| d in W.Risen(s);
  }

  lemma SomethingAheadHere(s: State)
    requires Inv(s) && |s.bufs| >= 2 && !NotifyAhead(s)
    ensures s.free != []
  {
    var other := if s.master == 0 then 1 else 0;
    assert O.Owners(s, other) == 1;
  }

  lemma WakeUp(s: State, c: nat) returns (run: seq<Label>)
    requires Inv(s) && Sleeps(s, c) && |s.bufs| >= 2
    ensures Valid(s, run) && AllServe(run)
    ensures var e := Run(s, run); Inv(e) && |e.bufs| >= 2 && c in e.calls && e.calls[c] == Woken(s.calls[c].who, false)
  {
    var s1, first := s, [];
    if !NotifyAhead(s) {
      var d := SomebodyWoken(s, c);
      first := [Resume(d)];
      StepInv(s, Resume(d));
      s1 := Do(s, Resume(d));
      PoolGrows(s, Resume(d));
      ValidCons(s, Resume(d), []);
      assert first == [Resume(d)] + [];
    }
    var second := PumpToNotify(s1, c);
    var s2 := Run(s1, second);
    StepInv(s2, NotifyOne(c));
    ValidCons(s2, NotifyOne(c), []);
    ValidConcat(s1, second, [NotifyOne(c)] + []);
    ValidConcat(s, first, second + ([NotifyOne(c)] + []));
    run := first + (second + ([NotifyOne(c)] + []));
  }

  lemma {:induction false} PumpToFree(s: State, c: nat) returns (run: seq<Label>)
    requires Inv(s) && Awake(s, c) && |s.bufs| >= 2
    ensures Valid(s, run) && AllServe(run)
    ensures var e := Run(s, run); Awake(e, c) && e.calls[c] == s.calls[c] && e.section.Unlocked? && e.free != []
    decreases SectionRank(s), |s.strand|, DrainRank(s), FramesLeft(s)
  {
    run := [];
    if !(s.section.Unlocked? && s.free != []) {
      if s.section.Unlocked? { SomethingAhead(s); }
      var l := Pump(s);
      PumpWorks(s);
      PumpDecreases(s);
      PumpKeepsWaiter(s, c);
      StepInv(s, l);
      var rest := PumpToFree(Do(s, l), c);
      ValidCons(s, l, rest);
      run := [l] + rest;
    }
  }

  lemma SleeperServed(s: State, c: nat) returns (run: seq<Label>)
    requires Inv(s) && Sleeps(s, c) && |s.bufs| >= 2
    ensures Valid(s, run) && AllServe(run) && Holds(Run(s, run), c, s.calls[c].who)
  {
    var first := WakeUp(s, c);
    var s1 := Run(s, first);
    var second := PumpToFree(s1, c);
    var s2 := Run(s1, second);
    ValidCons(s2, Resume(c), []);
    ValidConcat(s1, second, [Resume(c)] + []);
    ValidConcat(s, first, second + ([Resume(c)] + []));
    run := first + (second + ([Resume(c)] + []));
  }

  lemma HoldingTakesTwo(s: State)
    requires Inv(s) && s.section.Exchanging?
    ensures |s.bufs| >= 2
  {
    O.OwnedInPool(s, s.section.next);
    O.OwnedInPool(s, s.master);
    assert O.Owners(s, s.master) == 1;
  }

  /** With one buffer nobody ever gets another, whatever happens. */
  lemma {:induction false} NeverHeld(s: State, run: seq<Label>)
    requires Inv(s) && s.cfg.maxBuffers < 2 && Valid(s, run)
    ensures !Run(s, run).section.Exchanging?
    decreases |run|
  {
    if run == [] {
      if s.section.Exchanging? { HoldingTakesTwo(s); }
    } else {
      StepInv(s, run[0]);
      PoolGrows(s, run[0]);
      NeverHeld(Do(s, run[0]), run[1..]);
    }
  }

  /** A thread asleep in `AcquireFreeBufferLocked_` gets a buffer by steps of the lock holder,
      the strand and the threads woken, without any timeout or new call, if and only if the
      pool may hold two buffers. */
  lemma NoStuckWait(s: State, c: nat)
    requires Reachable(s) && Sleeps(s, c)
    ensures (exists run :: Valid(s, run) && AllServe(run) && Holds(Run(s, run), c, s.calls[c].who)) <==> s.cfg.maxBuffers >= 2
  {
    ReachableInv(s);
    assert c in W.Sleepers(s);
    if s.cfg.maxBuffers >= 2 {
      var run := SleeperServed(s, c);
    } else {
      forall run | Valid(s, run)
        ensures !Run(s, run).section.Exchanging?
      {
        NeverHeld(s, run);
      }
    }
  }

  // ----------------------------------------------------- a payload that never fits

  predicate Fits(cfg: Config, f: Frame) {
    Storable(f.payload) && 4 + |f.payload| <= cfg.capacity
  }

  lemma {:induction false} AcceptedFit(s: State, run: seq<Label>)
    requires Valid(s, run) && forall f | f in s.accepted :: Fits(s.cfg, f)
    ensures Run(s, run).cfg == s.cfg && forall f | f in Run(s, run).accepted :: Fits(s.cfg, f)
    decreases |run|
  {
    if run != [] {
      StepFits(s, run[0]);
      AcceptedFit(Do(s, run[0]), run[1..]);
    }
  }

  lemma StepFits(s: State, l: Label)
    requires Enabled(s, l)
    ensures Do(s, l).cfg == s.cfg
    ensures forall f | f in Do(s, l).accepted :: f in s.accepted || Fits(s.cfg, f)
  {}

  /** Only payloads that fit are ever accepted: `Append` of another does not return true. */
  lemma OversizeNeverAccepted(c: Config, run: seq<Label>, f: Frame)
    requires Valid(Init(c), run) && f in Run(Init(c), run).accepted
    ensures Fits(Normalise(c), f)
  {
    AcceptedFit(Init(c), run);
  }

  /** Steps of call `c` itself, or that serve it. */
  predicate Concerns(l: Label, c: nat) {
    Serves(l) || l == LoadMaster(c) || l == TryWrite(c) || l == LockAppend(c)
  }

  predicate AllConcern(run: seq<Label>, c: nat) {
    forall i | 0 <= i < |run| :: Concerns(run[i], c)
  }

  /** Call `c` is at the top of its loop, and nobody is inside the lock. */
  predicate AtTop(s: State, c: nat, f: Frame) {
    c in s.calls && s.calls[c] == Loading(f) && s.section.Unlocked?
  }

  lemma SwapsIn(s: State, c: nat, f: Frame) returns (run: seq<Label>)
    requires Inv(s) && Holds(s, c, Producer(f))
    ensures Valid(s, run) && AllConcern(run, c) && AtTop(Run(s, run), c, f)
  {
    var s1 := Do(s, Exchange);
    var s2 := Do(s1, Count);
    ValidCons(s2, Post, []);
    ValidCons(s1, Count, [Post] + []);
    ValidCons(s, Exchange, [Count] + ([Post] + []));
    run := [Exchange] + ([Count] + ([Post] + []));
  }

  lemma WriteRefused(s: State, c: nat, f: Frame)
    requires Inv(s) && AtTop(s, c, f) && !Fits(s.cfg, f)
    ensures Enabled(s, LoadMaster(c)) && Enabled(Do(s, LoadMaster(c)), TryWrite(c))
    ensures var s2 := Do(Do(s, LoadMaster(c)), TryWrite(c));
      && Enabled(s2, LockAppend(c)) && Do(s2, LockAppend(c)) == Acquire(s2, c, Producer(f))
      && s2.section.Unlocked? && |s2.bufs| == |s.bufs| && s2.cfg == s.cfg && s2.free == s.free
  {
    O.OwnedInPool(s, s.master);
  }

  lemma BackToTop(s: State, c: nat, f: Frame) returns (run: seq<Label>)
    requires Inv(s) && s.cfg.maxBuffers >= 2 && (Holds(s, c, Producer(f)) || (Sleeps(s, c) && s.calls[c].who == Producer(f)))
    requires Sleeps(s, c) ==> |s.bufs| >= 2
    ensures Valid(s, run) && AllConcern(run, c) && AtTop(Run(s, run), c, f)
  {
    var first := [];
    if !Holds(s, c, Producer(f)) { first := SleeperServed(s, c); }
    RunInv(s, first);
    var second := SwapsIn(Run(s, first), c, f);
    ValidConcat(s, first, second);
    run := first + second;
  }

  lemma AcquireLeads(s: State, c: nat, f: Frame)
    requires Inv(s) && c in s.calls && s.section.Unlocked?
    ensures var e := Acquire(s, c, Producer(f));
      && (Holds(e, c, Producer(f)) || (Sleeps(e, c) && e.calls[c].who == Producer(f)))
      && (Sleeps(e, c) && !Holds(e, c, Producer(f)) ==> |e.bufs| == e.cfg.maxBuffers)
      && (Holds(e, c, Producer(f)) ==> !Sleeps(e, c)) && e.cfg == s.cfg
  {}

  /** With two buffers or more, an append of a payload that does not fit comes round to the
      top of its loop again, after a swap, by its own steps and those that serve it. */
  lemma OversizeGoesRound(s: State, c: nat, f: Frame) returns (run: seq<Label>)
    requires Inv(s) && AtTop(s, c, f) && !Fits(s.cfg, f) && s.cfg.maxBuffers >= 2
    ensures run != [] && Valid(s, run) && AllConcern(run, c) && AtTop(Run(s, run), c, f)
  {
    hide Inv, Fits, AtTop, Holds, Acquire, Sleeps;
    WriteRefused(s, c, f);
    var s1 := Do(s, LoadMaster(c));
    var s2 := Do(s1, TryWrite(c));
    var s3 := Do(s2, LockAppend(c));
    StepInv(s, LoadMaster(c));
    StepInv(s1, TryWrite(c));
    StepInv(s2, LockAppend(c));
    AcquireLeads(s2, c, f);
    var rest := BackToTop(s3, c, f);
    ValidCons(s2, LockAppend(c), rest);
    ValidCons(s1, TryWrite(c), [LockAppend(c)] + rest);
    ValidCons(s, LoadMaster(c), [TryWrite(c)] + ([LockAppend(c)] + rest));
    run := [LoadMaster(c)] + ([TryWrite(c)] + ([LockAppend(c)] + rest));
  }

  /** And so without end: for every number there is a run with as many swaps. */
  lemma {:induction false} OversizeGoesOn(s: State, c: nat, f: Frame, rounds: nat) returns (run: seq<Label>)
    requires Inv(s) && AtTop(s, c, f) && !Fits(s.cfg, f) && s.cfg.maxBuffers >= 2
    ensures |run| >= rounds && Valid(s, run) && AllConcern(run, c) && AtTop(Run(s, run), c, f)
    decreases rounds
  {
    hide Inv, Fits, AtTop, Concerns;
    run := [];
    if rounds > 0 {
      var first := OversizeGoesRound(s, c, f);
      RunInv(s, first);
      SameConfig(s, first);
      var rest := OversizeGoesOn(Run(s, first), c, f, rounds - 1);
      ValidConcat(s, first, rest);
      run := first + rest;
    }
  }

  lemma {:induction false} SameConfig(s: State, run: seq<Label>)
    requires Valid(s, run)
    ensures Run(s, run).cfg == s.cfg
    decreases |run|
  {
    if run != [] {
      StepFits(s, run[0]);
      SameConfig(Do(s, run[0]), run[1..]);
    }
  }
}
