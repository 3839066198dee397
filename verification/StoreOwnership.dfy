/** Who owns which buffer of the store, in every reachable state. */
module StoreOwnership {
  import opened Counting
  import opened StoreMachine

  function DrainHolds(d: Drain): seq<nat> {
    if d.Sealing? || d.Walking? || d.Returning? then [d.b] else []
  }

  function SectionHolds(sec: Section): seq<nat> {
    match sec
    case Unlocked => []
    case Exchanging(_, _, next) => [next]
    case Counting(_, _, prior) => [prior]
    case Posting(_, _, prior) => [prior]
  }

  /** How many places own buffer `b`. */
  function Owners(s: State, b: nat): nat {
    One(b == s.master) + multiset(s.free)[b] + multiset(s.strand)[b]
    + multiset(DrainHolds(s.drain))[b] + multiset(SectionHolds(s.section))[b]
  }

  /** `pool_` is the disjoint union of the master, `free_`, the posted and running
      drains, and the one buffer the lock holder has in its hands. */
  ghost predicate Partition(s: State) {
    && (forall b: nat :: Owners(s, b) == One(b < |s.bufs|))
    && s.cfg.minBuffers <= |s.bufs| <= s.cfg.maxBuffers
  }

  ghost predicate SealedOnlyWhileWalked(s: State) {
    forall b | 0 <= b < |s.bufs| :: s.bufs[b].sealed <==> s.drain.Walking? && s.drain.b == b
  }

  /** Drain tasks posted (or about to be, under the lock) and not yet past their fetch_sub. */
  ghost predicate InFlightExact(s: State) {
    s.inFlight == |s.strand| + One(!s.drain.Idle? && !s.drain.NotifyingFlush?) + One(s.section.Posting?)
  }

  ghost predicate CallsKnown(s: State) {
    && (forall c | c in s.calls :: c < s.nextCall && ((s.calls[c].Writing? || s.calls[c].Locking?) ==> s.calls[c].cur < |s.bufs|))
    && (!s.section.Unlocked? ==> s.section.c !in s.calls && s.section.c < s.nextCall)
  }

  ghost predicate Inv(s: State) {
    Partition(s) && SealedOnlyWhileWalked(s) && InFlightExact(s) && CallsKnown(s)
  }

  lemma OwnedInPool(s: State, b: nat)
    requires Partition(s)
    requires b == s.master || b in s.free || b in s.strand || b in DrainHolds(s.drain) || b in SectionHolds(s.section)
    ensures b < |s.bufs|
  {
    assert Owners(s, b) == One(b < |s.bufs|);
  }

  lemma InitInv(c: Config)
    ensures Inv(Init(c))
  {
    var s := Init(c);
    forall b: nat
      ensures Owners(s, b) == One(b < |s.bufs|)
    {
      InitFree(s.cfg.minBuffers, b);
    }
  }

  lemma {:induction false} InitFree(n: nat, b: nat)
    requires n > 0
    ensures One(b == 0) + multiset(seq(n - 1, i => i + 1))[b] == One(b < n)
  {
    if n > 1 {
      InitFree(n - 1, b);
      assert seq(n - 1, i => i + 1) == seq(n - 2, i => i + 1) + [n - 1];
    }
  }

  ghost predicate SameOwners(s: State, s': State) {
    && s'.cfg == s.cfg && |s'.bufs| == |s.bufs| && s'.master == s.master && s'.free == s.free && s'.strand == s.strand
    && DrainHolds(s'.drain) == DrainHolds(s.drain) && SectionHolds(s'.section) == SectionHolds(s.section)
  }

  predicate Moves(l: Label) {
    l.LockAppend? || l.LockFlush? || l.Resume? || l.Exchange? || l.Post? || l.StartDrain? || l.ReturnBuf?
  }

  lemma StayPut(s: State, l: Label)
    requires Enabled(s, l) && !Moves(l)
    ensures SameOwners(s, Do(s, l))
  {}

  lemma AcquireOwners(s: State, c: nat, who: Who, b: nat)
    requires s.section.Unlocked?
    ensures Owners(Acquire(s, c, who), b) == Owners(s, b) + One(b == |s.bufs| && |Acquire(s, c, who).bufs| > |s.bufs|)
  {
    if s.free != [] { CountHead(s.free, b); }
  }

  lemma AcquirePartition(s: State, c: nat, who: Who)
    requires Partition(s) && s.section.Unlocked?
    ensures Partition(Acquire(s, c, who))
  {
    forall b: nat
      ensures Owners(Acquire(s, c, who), b) == One(b < |Acquire(s, c, who).bufs|)
    {
      assert Owners(s, b) == One(b < |s.bufs|);
      AcquireOwners(s, c, who, b);
    }
  }

  /** A buffer that changes hands has one owner before and one after. */
  lemma ExchangeOwners(s: State, b: nat)
    requires Enabled(s, Exchange)
    ensures Owners(Do(s, Exchange), b) == Owners(s, b)
  {}

  lemma PostOwners(s: State, b: nat)
    requires Enabled(s, Post)
    ensures Owners(DoPost(s), b) == Owners(s, b)
  {
    CountEnd(s.strand, s.section.prior, b);
  }

  lemma StartDrainOwners(s: State, b: nat)
    requires Enabled(s, StartDrain)
    ensures Owners(Do(s, StartDrain), b) == Owners(s, b)
  {
    CountHead(s.strand, b);
  }

  lemma ReturnBufOwners(s: State, b: nat)
    requires Enabled(s, ReturnBuf)
    ensures Owners(Do(s, ReturnBuf), b) == Owners(s, b)
  {
    CountEnd(s.free, s.drain.b, b);
  }

  lemma SamePartition(s: State, s': State)
    requires Partition(s)
    requires s'.cfg == s.cfg && |s'.bufs| == |s.bufs|
    requires forall b: nat :: Owners(s', b) == Owners(s, b)
    ensures Partition(s')
  {
    forall b: nat
      ensures Owners(s', b) == One(b < |s'.bufs|)
    {
      assert Owners(s, b) == One(b < |s.bufs|);
    }
  }

  lemma LockPartition(s: State, l: Label)
    requires Partition(s) && Enabled(s, l) && (l.LockAppend? || l.LockFlush? || l.Resume?)
    ensures Partition(Do(s, l))
  {
    if SameOwners(s, Do(s, l)) {
      SamePartition(s, Do(s, l));
    } else {
      match l
      case LockAppend(c) => AcquirePartition(s, c, Producer(s.calls[c].f));
      case LockFlush(c) => AcquirePartition(s, c, Flusher(s.calls[c].owed));
      case Resume(c) => AcquirePartition(s, c, s.calls[c].who);
    }
  }

  lemma StepOwners(s: State, l: Label, b: nat)
    requires Enabled(s, l) && !l.LockAppend? && !l.LockFlush? && !l.Resume?
    ensures Owners(Do(s, l), b) == Owners(s, b)
  {
    match l
    case Exchange => ExchangeOwners(s, b);
    case Post => PostOwners(s, b);
    case StartDrain => StartDrainOwners(s, b);
    case ReturnBuf => ReturnBufOwners(s, b);
    case _ => StayPut(s, l);
  }

  lemma StepPartition(s: State, l: Label)
    requires Partition(s) && Enabled(s, l)
    ensures Partition(Do(s, l))
  {
    if l.LockAppend? || l.LockFlush? || l.Resume? {
      LockPartition(s, l);
    } else {
      forall b: nat
        ensures Owners(Do(s, l), b) == Owners(s, b)
      {
        StepOwners(s, l, b);
      }
      KeepsPool(s, l);
      SamePartition(s, Do(s, l));
    }
  }

  lemma KeepsPool(s: State, l: Label)
    requires Enabled(s, l) && !l.LockAppend? && !l.LockFlush? && !l.Resume?
    ensures Do(s, l).cfg == s.cfg && |Do(s, l).bufs| == |s.bufs|
  {}

  lemma StepSealed(s: State, l: Label)
    requires Partition(s) && SealedOnlyWhileWalked(s) && Enabled(s, l)
    ensures SealedOnlyWhileWalked(Do(s, l))
  {
    hide Partition, Owners;
    if s.drain.Sealing? || s.drain.Walking? || s.drain.Returning? { OwnedInPool(s, s.drain.b); }
  }

  lemma StepInFlight(s: State, l: Label)
    requires InFlightExact(s) && Enabled(s, l)
    ensures InFlightExact(Do(s, l))
  {}

  lemma StepCalls(s: State, l: Label)
    requires Partition(s) && CallsKnown(s) && Enabled(s, l)
    ensures CallsKnown(Do(s, l))
  {
    OwnedInPool(s, s.master);
  }

  lemma StepInv(s: State, l: Label)
    requires Inv(s) && Enabled(s, l)
    ensures Inv(Do(s, l))
  {
    StepPartition(s, l);
    StepSealed(s, l);
    StepInFlight(s, l);
    StepCalls(s, l);
  }
}
