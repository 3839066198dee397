/** The condition variables of the store: no notification is lost. */
module StoreWaits {
  import opened Counting
  import opened StoreMachine
  import O = StoreOwnership

  /** Blocked in `free_cv_`. */
  function Sleepers(s: State): set<nat> {
    set c | c in s.calls && s.calls[c].Asleep?
  }

  /** Out of `free_cv_` and about to look at `free_` again. */
  function Risen(s: State): set<nat> {
    set c | c in s.calls && s.calls[c].Woken?
  }

  /** While somebody sleeps, each free buffer has a notification under way or a
      woken thread that will look. */
  ghost predicate FreeNotified(s: State) {
    Sleepers(s) != {} ==> |s.free| <= One(s.drain.NotifyingFree?) + |Risen(s)|
  }

  /** A flusher asleep with nothing in flight is about to be woken. */
  ghost predicate FlushNotified(s: State) {
    s.inFlight == 0 && (exists c :: c in s.calls && s.calls[c].FlushAsleep?) ==> s.drain.NotifyingFlush?
  }

  /** Threads wait for a buffer only when the pool cannot grow. */
  ghost predicate WaitsOnlyWhenFull(s: State) {
    Sleepers(s) + Risen(s) != {} ==> |s.bufs| == s.cfg.maxBuffers
  }

  ghost predicate Inv(s: State) {
    FreeNotified(s) && FlushNotified(s) && WaitsOnlyWhenFull(s)
  }

  predicate Shifts(l: Label) {
    l.LockAppend? || l.LockFlush? || l.Rouse? || l.Resume? || l.NotifyOne? || l.ReturnBuf? || l.NotifyNobody?
  }

  lemma SameSleepers(s: State, l: Label)
    requires O.CallsKnown(s) && Enabled(s, l) && !Shifts(l)
    ensures Sleepers(Do(s, l)) == Sleepers(s) && Risen(Do(s, l)) == Risen(s)
    ensures Do(s, l).free == s.free && Do(s, l).drain.NotifyingFree? == s.drain.NotifyingFree?
    ensures |Do(s, l).bufs| == |s.bufs| && Do(s, l).cfg == s.cfg
  {}

  lemma AcquireNotified(s: State, c: nat, who: Who)
    requires FreeNotified(s) && WaitsOnlyWhenFull(s) && s.section.Unlocked? && |s.bufs| <= s.cfg.maxBuffers
    requires c in s.calls && !s.calls[c].Asleep? && !s.calls[c].Woken?
    ensures FreeNotified(Acquire(s, c, who)) && WaitsOnlyWhenFull(Acquire(s, c, who))
  {
    var s' := Acquire(s, c, who);
    assert Risen(s') == Risen(s);
    if s'.section.Exchanging? { assert Sleepers(s') == Sleepers(s); }
  }

  lemma LockNotified(s: State, l: Label)
    requires O.Inv(s) && FreeNotified(s) && WaitsOnlyWhenFull(s) && Enabled(s, l) && (l.LockAppend? || l.LockFlush?)
    ensures FreeNotified(Do(s, l)) && WaitsOnlyWhenFull(Do(s, l))
  {
    var s' := Do(s, l);
    if l.LockAppend? && s.master == s.calls[l.c].cur {
      AcquireNotified(s, l.c, Producer(s.calls[l.c].f));
    } else if l.LockFlush? && s.bufs[s.master].offset > 0 {
      AcquireNotified(s, l.c, Flusher(s.calls[l.c].owed));
    } else {
      assert Sleepers(s') == Sleepers(s) && Risen(s') == Risen(s);
    }
  }

  lemma WakeNotified(s: State, l: Label)
    requires FreeNotified(s) && WaitsOnlyWhenFull(s) && Enabled(s, l) && (l.Rouse? || l.NotifyOne?)
    ensures FreeNotified(Do(s, l)) && WaitsOnlyWhenFull(Do(s, l))
  {
    var s' := Do(s, l);
    assert l.c in Sleepers(s) && l.c !in Risen(s);
    assert Risen(s') == Risen(s) + {l.c};
    assert Sleepers(s') == Sleepers(s) - {l.c};
  }

  lemma ResumeNotified(s: State, c: nat)
    requires FreeNotified(s) && WaitsOnlyWhenFull(s) && Enabled(s, Resume(c))
    ensures FreeNotified(DoResume(s, c)) && WaitsOnlyWhenFull(DoResume(s, c))
  {
    var s' := DoResume(s, c);
    assert c in Risen(s) && c !in Sleepers(s);
    assert Risen(s') == Risen(s) - {c};
    if s.free != [] { assert Sleepers(s') == Sleepers(s); }
  }

  lemma StepNotified(s: State, l: Label)
    requires O.Inv(s) && FreeNotified(s) && WaitsOnlyWhenFull(s) && Enabled(s, l)
    ensures FreeNotified(Do(s, l)) && WaitsOnlyWhenFull(Do(s, l))
  {
    if l.LockAppend? || l.LockFlush? {
      LockNotified(s, l);
    } else if l.Rouse? || l.NotifyOne? {
      WakeNotified(s, l);
    } else if l.Resume? {
      ResumeNotified(s, l.c);
    } else if l.ReturnBuf? || l.NotifyNobody? {
      assert Sleepers(Do(s, l)) == Sleepers(s) && Risen(Do(s, l)) == Risen(s);
    } else {
      SameSleepers(s, l);
    }
  }

  lemma StepFlushNotified(s: State, l: Label)
    requires O.Inv(s) && FlushNotified(s) && Enabled(s, l)
    ensures FlushNotified(Do(s, l))
  {
    var s' := Do(s, l);
    if s'.inFlight == 0 && (exists c :: c in s'.calls && s'.calls[c].FlushAsleep?) && !l.Subtract? {
      assert s.inFlight == 0;
      var c :| c in s'.calls && s'.calls[c].FlushAsleep?;
      assert c in s.calls && s.calls[c].FlushAsleep?;
    }
  }

  lemma StepInv(s: State, l: Label)
    requires O.Inv(s) && Inv(s) && Enabled(s, l)
    ensures Inv(Do(s, l))
  {
    StepNotified(s, l);
    StepFlushNotified(s, l);
  }
}
