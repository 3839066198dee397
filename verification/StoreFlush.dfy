/** `Flush` sees every frame it is owed through to `on_persist`. */
module StoreFlush {
  import opened StoreMachine
  import opened StoreFrames
  import O = StoreOwnership

  /** Between leaving the master role and the end of its frame walk. */
  predicate InLine(s: State, b: nat) {
    || ((s.drain.Sealing? || s.drain.Walking?) && s.drain.b == b)
    || b in s.strand
    || ((s.section.Counting? || s.section.Posting?) && s.section.prior == b)
  }

  predicate QueuedIn(s: State, f: Frame, b: nat) {
    b < |s.bufs| && InLine(s, b) && f in Undelivered(s, b)
  }

  /** Delivered, or in a buffer whose drain is under way or posted. */
  ghost predicate Handed(s: State, f: Frame) {
    f in s.persisted || exists b :: QueuedIn(s, f, b)
  }

  predicate InMaster(s: State, f: Frame) {
    s.master < |s.bufs| && f in Undelivered(s, s.master)
  }

  predicate InNext(s: State, f: Frame) {
    s.section.Exchanging? && s.section.next < |s.bufs| && f in Undelivered(s, s.section.next)
  }

  ghost predicate InPlay(s: State, f: Frame) {
    Handed(s, f) || InMaster(s, f) || InNext(s, f)
  }

  /** How far a flush has come with the frames it is owed. */
  datatype Claim =
    | Nothing
    | Before(owed: set<Frame>)     // has not swapped the master out yet
    | Swapping(owed: set<Frame>)   // holds the lock and the next buffer
    | After(owed: set<Frame>)      // has swapped, or found the master empty

  function WhoClaims(who: Who, held: bool): Claim {
    match who
    case Producer(_) => Nothing
    case Flusher(owed) => if held then Swapping(owed) else Before(owed)
  }

  function ClaimOf(call: Call): Claim {
    match call
    case FlushEntry(owed) => Before(owed)
    case Asleep(who) => WhoClaims(who, false)
    case Woken(who, _) => WhoClaims(who, false)
    case FlushTest(owed) => After(owed)
    case FlushAsleep(owed) => After(owed)
    case _ => Nothing
  }

  function SectionClaim(sec: Section): Claim {
    match sec
    case Unlocked => Nothing
    case Exchanging(_, who, _) => WhoClaims(who, true)
    case Counting(_, who, _) => if who.Flusher? then After(who.owed) else Nothing
    case Posting(_, who, _) => if who.Flusher? then After(who.owed) else Nothing
  }

  ghost predicate Met(s: State, claim: Claim, f: Frame) {
    match claim
    case Nothing => true
    case Before(owed) => f in owed ==> InPlay(s, f)
    case Swapping(owed) => f in owed ==> Handed(s, f) || InMaster(s, f)
    case After(owed) => f in owed ==> Handed(s, f)
  }

  ghost predicate AllMet(s: State, f: Frame) {
    && (forall c | c in s.calls :: Met(s, ClaimOf(s.calls[c]), f))
    && Met(s, SectionClaim(s.section), f)
  }

  ghost predicate FlushInv(s: State) {
    forall f: Frame :: AllMet(s, f)
  }

  ghost predicate OffsetOk(s: State) {
    forall b | 0 <= b < |s.bufs| :: s.bufs[b].offset == 0 ==> s.bufs[b].frames == []
  }

  lemma StepOffset(s: State, l: Label)
    requires OffsetOk(s) && Enabled(s, l)
    ensures OffsetOk(Do(s, l))
  {}

  lemma StepQueued(s: State, l: Label, f: Frame, b: nat)
    requires O.Inv(s) && CursorOk(s) && Enabled(s, l) && QueuedIn(s, f, b)
    ensures f in Do(s, l).persisted || QueuedIn(Do(s, l), f, b)
  {
    hide O.Inv, CursorOk, InLine;
    match l
    case TryWrite(c) => WriteLoads(s, c); KeepsLine(s, l, b); WriteKeeps(s, c, f, b);
    case Persist => PersistLoads(s); PersistKeeps(s, f, b);
    case _ => QuietUndelivered(s, l, b); KeepsLine(s, l, b);
  }

  lemma KeepsLine(s: State, l: Label, b: nat)
    requires O.Inv(s) && CursorOk(s) && Enabled(s, l) && InLine(s, b) && b < |s.bufs|
    ensures InLine(Do(s, l), b) || (l.ResetBuf? && Undelivered(s, b) == [])
  {}

  lemma WriteKeeps(s: State, c: nat, f: Frame, b: nat)
    requires O.Inv(s) && CursorOk(s) && Enabled(s, TryWrite(c)) && b < |s.bufs| && f in Undelivered(s, b)
    ensures f in Undelivered(DoTryWrite(s, c), b)
  {
    WriteLoads(s, c);
    assert Loads(s)[b] == Undelivered(s, b) && Loads(DoTryWrite(s, c))[b] == Undelivered(DoTryWrite(s, c), b);
  }

  lemma PersistKeeps(s: State, f: Frame, b: nat)
    requires CursorOk(s) && Enabled(s, Persist) && QueuedIn(s, f, b)
    ensures f in Do(s, Persist).persisted || QueuedIn(Do(s, Persist), f, b)
  {
    var s', u := Do(s, Persist), Undelivered(s, b);
    if b == s.drain.b {
      PersistLoads(s);
      assert Loads(s')[b] == u[1..];
      assert f == u[0] || f in u[1..];
    }
  }

  lemma StepHanded(s: State, l: Label, f: Frame)
    requires O.Inv(s) && CursorOk(s) && Enabled(s, l) && Handed(s, f)
    ensures Handed(Do(s, l), f)
  {
    if f in s.persisted {
      PersistGrows(s, l);
    } else {
      var b :| QueuedIn(s, f, b);
      StepQueued(s, l, f, b);
    }
  }

  lemma PersistGrows(s: State, l: Label)
    requires Enabled(s, l)
    ensures s.persisted <= Do(s, l).persisted && s.accepted <= Do(s, l).accepted
  {}

  lemma StepMaster(s: State, l: Label, f: Frame)
    requires O.Inv(s) && CursorOk(s) && Enabled(s, l) && InMaster(s, f)
    ensures if l.Exchange? then Handed(Do(s, l), f) else InMaster(Do(s, l), f)
  {
    var s' := Do(s, l);
    O.OwnedInPool(s, s.master);
    MasterNotWalked(s);
    hide O.Partition, O.SealedOnlyWhileWalked, O.InFlightExact, O.CallsKnown, CursorOk;
    match l
    case TryWrite(c) => WriteKeeps(s, c, f, s.master);
    case Persist =>
    case Exchange => assert QueuedIn(s', f, s.master);
    case _ => QuietUndelivered(s, l, s.master); KeepsMaster(s, l);
  }

  lemma KeepsMaster(s: State, l: Label)
    requires Enabled(s, l) && !l.Exchange?
    ensures Do(s, l).master == s.master
  {}

  lemma MasterNotWalked(s: State)
    requires O.Partition(s)
    ensures s.drain.Walking? ==> s.drain.b != s.master
  {
    assert O.Owners(s, s.master) == 1;
  }

  lemma StepNext(s: State, l: Label, f: Frame)
    requires O.Inv(s) && CursorOk(s) && Enabled(s, l) && InNext(s, f)
    ensures if l.Exchange? then InMaster(Do(s, l), f) else InNext(Do(s, l), f)
  {
    var b := s.section.next;
    O.OwnedInPool(s, b);
    assert O.Owners(s, b) == 1;
    match l
    case TryWrite(c) => WriteKeeps(s, c, f, b);
    case Persist =>
    case _ => QuietUndelivered(s, l, b);
  }

  lemma StepInPlay(s: State, l: Label, f: Frame)
    requires O.Inv(s) && CursorOk(s) && Enabled(s, l) && InPlay(s, f)
    ensures InPlay(Do(s, l), f)
  {
    if Handed(s, f) {
      StepHanded(s, l, f);
    } else if InMaster(s, f) {
      StepMaster(s, l, f);
    } else {
      StepNext(s, l, f);
    }
  }

  /** Every accepted frame that is not parked is in play. */
  lemma OwedInPlay(s: State, f: Frame)
    requires O.Inv(s) && Conserved(s) && f in Owed(s)
    ensures InPlay(s, f)
  {
    assert Balanced(s, f);
    if f !in s.persisted {
      var b := TallyFinds(Loads(s), f);
      assert Loads(s)[b] == Undelivered(s, b);
      assert O.Owners(s, b) == 1;
      assert !Parked(s, b);
      if b != s.master && !InNext(s, f) { assert QueuedIn(s, f, b); }
    }
  }

  /** A claim that neither changes nor passes the swap stays met. */
  lemma StepMet(s: State, l: Label, claim: Claim, f: Frame)
    requires O.Inv(s) && CursorOk(s) && Enabled(s, l) && Met(s, claim, f)
    requires claim.Swapping? ==> !l.Exchange?
    ensures Met(Do(s, l), claim, f)
  {
    match claim
    case Nothing =>
    case Before(owed) => if f in owed { StepInPlay(s, l, f); }
    case Swapping(owed) =>
      if f in owed {
        if Handed(s, f) { StepHanded(s, l, f); } else { StepMaster(s, l, f); }
      }
    case After(owed) => if f in owed { StepHanded(s, l, f); }
  }

  /** Where the claims of the calls come from. */
  lemma ClaimSource(s: State, l: Label, c: nat)
    requires Enabled(s, l) && c in Do(s, l).calls
    ensures var claim := ClaimOf(Do(s, l).calls[c]);
      || claim == Nothing
      || (c in s.calls && claim == ClaimOf(s.calls[c]))
      || (l.BeginFlush? && claim == Before(Owed(s)))
      || (l.LockFlush? && c == l.c && s.bufs[s.master].offset == 0 && claim == After(s.calls[c].owed))
      || (l.Post? && claim == SectionClaim(s.section))
  {}

  lemma SectionSource(s: State, l: Label)
    requires Enabled(s, l)
    ensures var claim := SectionClaim(Do(s, l).section);
      || claim == Nothing
      || (claim == SectionClaim(s.section) && (l.Exchange? ==> !claim.Swapping?))
      || ((l.LockFlush? || l.Resume?) && claim.Swapping? && ClaimOf(s.calls[l.c]) == Before(claim.owed))
      || (l.Exchange? && claim.After? && SectionClaim(s.section) == Swapping(claim.owed))
  {}

  lemma StepCallMet(s: State, l: Label, f: Frame, c: nat)
    requires O.Inv(s) && CursorOk(s) && Conserved(s) && OffsetOk(s) && AllMet(s, f) && Enabled(s, l)
    requires c in Do(s, l).calls
    ensures Met(Do(s, l), ClaimOf(Do(s, l).calls[c]), f)
  {
    var claim := ClaimOf(Do(s, l).calls[c]);
    ClaimSource(s, l, c);
    if claim != Nothing && f in claim.owed {
      if l.BeginFlush? && claim == Before(Owed(s)) {
        OwedInPlay(s, f);
      } else if c in s.calls && claim == ClaimOf(s.calls[c]) {
        assert Met(s, claim, f);
      } else if l.LockFlush? {
        assert Met(s, ClaimOf(s.calls[c]), f);
      }
      StepMet(s, l, claim, f);
    }
  }

  lemma StepSectionMet(s: State, l: Label, f: Frame)
    requires O.Inv(s) && CursorOk(s) && AllMet(s, f) && Enabled(s, l)
    ensures Met(Do(s, l), SectionClaim(Do(s, l).section), f)
  {
    var claim := SectionClaim(Do(s, l).section);
    SectionSource(s, l);
    if claim == Nothing {
    } else if claim == SectionClaim(s.section) {
      StepMet(s, l, claim, f);
    } else if l.Exchange? {
      if f in claim.owed {
        if Handed(s, f) { StepHanded(s, l, f); } else { StepMaster(s, l, f); }
      }
    } else {
      assert Met(s, ClaimOf(s.calls[l.c]), f);
      StepMet(s, l, claim, f);
    }
  }

  lemma StepFlush(s: State, l: Label)
    requires O.Inv(s) && CursorOk(s) && Conserved(s) && OffsetOk(s) && FlushInv(s) && Enabled(s, l)
    ensures FlushInv(Do(s, l))
  {
    forall f: Frame
      ensures AllMet(Do(s, l), f)
    {
      assert AllMet(s, f);
      forall c | c in Do(s, l).calls
        ensures Met(Do(s, l), ClaimOf(Do(s, l).calls[c]), f)
      {
        StepCallMet(s, l, f, c);
      }
      StepSectionMet(s, l, f);
    }
  }
}
