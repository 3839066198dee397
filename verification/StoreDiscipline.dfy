/** When records come out in call order: exactly while no write goes astray, and always
    under a discipline that callers can keep. */
module StoreDiscipline {
  import opened Counting
  import opened Framing
  import opened StoreMachine
  import opened StoreFrames
  import opened Store
  import opened StoreProgress
  import O = StoreOwnership
  import S = StoreOrder

  /** The step is a `Write` that succeeds on a buffer that has been reset and is not
      master again. */
  predicate GoesAstray(s: State, l: Label)
    requires Enabled(s, l)
  {
    l.TryWrite? && OffPath(s, s.calls[l.c].cur) && WriteTo(s.cfg.capacity, s.bufs[s.calls[l.c].cur], s.calls[l.c].f).1
  }

  ghost predicate OnCourse(s: State, run: seq<Label>)
    requires Valid(s, run)
    decreases |run|
  {
    run == [] || (!GoesAstray(s, run[0]) && OnCourse(Do(s, run[0]), run[1..]))
  }

  /** At every moment of the run, delivered frames, then the queued buffers in strand
      order, then the master are the accepted frames. */
  ghost predicate AlwaysInOrder(s: State, run: seq<Label>)
    requires Valid(s, run)
    decreases |run|
  {
    S.InOrder(s) && (run == [] || AlwaysInOrder(Do(s, run[0]), run[1..]))
  }

  // ------------------------------------------------- a stray write breaks the order

  lemma {:induction false} TallyTwo(loads: seq<seq<Frame>>, a: nat, b: nat, f: Frame)
    requires a < b < |loads| && f in loads[a] && f in loads[b]
    ensures Tally(loads, f) >= 2
    decreases |loads|
  {
    if a == 0 {
      assert multiset(loads[0])[f] > 0;
      TallyAtLeast(loads[1..], b - 1, f);
    } else {
      TallyTwo(loads[1..], a - 1, b - 1, f);
    }
  }

  lemma {:induction false} FlatFinds(loads: seq<seq<Frame>>, path: seq<nat>, f: Frame) returns (p: nat)
    requires S.InRange(loads, path) && f in S.Flat(loads, path)
    ensures p < |path| && f in loads[path[p]]
    decreases |path|
  {
    if f in loads[path[0]] {
      p := 0;
    } else {
      var q := FlatFinds(loads, path[1..], f);
      p := q + 1;
    }
  }

  lemma OffThePath(s: State, b: nat, p: nat)
    requires O.Partition(s) && OffPath(s, b) && p < |S.Path(s)|
    ensures b < |s.bufs| && S.Path(s)[p] != b
  {
    assert O.Owners(s, b) == One(b < |s.bufs|);
    if b in s.free { assert multiset(s.free)[b] > 0; }
    if S.Path(s)[p] == b { assert b in multiset(S.Path(s)); }
    OffCounts(s, b);
  }

  lemma OffCounts(s: State, b: nat)
    requires OffPath(s, b)
    ensures multiset(S.Path(s))[b] + 1 <= O.Owners(s, b)
  {
    if b in s.free { assert multiset(s.free)[b] > 0; }
  }

  /** A frame held off the path is missing from the equation. */
  lemma OffPathBreaksOrder(s: State, b: nat, f: Frame)
    requires Inv(s) && OffPath(s, b) && b < |s.bufs| && f in Loads(s)[b] && f in s.accepted
    ensures !S.InOrder(s)
  {
    OncePlaced(s, f);
    TallyAtLeast(Loads(s), b, f);
    if S.InOrder(s) {
      var p := FlatFinds(Loads(s), S.Path(s), f);
      OffThePath(s, b, p);
      var a := S.Path(s)[p];
      if a < b { TallyTwo(Loads(s), a, b, f); } else { TallyTwo(Loads(s), b, a, f); }
    }
  }

  lemma StrayBreaksOrder(s: State, l: Label)
    requires Inv(s) && Enabled(s, l) && GoesAstray(s, l)
    ensures !S.InOrder(Do(s, l))
  {
    var cur, f := s.calls[l.c].cur, s.calls[l.c].f;
    StepInv(s, l);
    WriteLoads(s, l.c);
    OffPathBreaksOrder(Do(s, l), cur, f);
  }

  lemma StaysOnCourse(s: State, l: Label)
    requires Enabled(s, l) && !GoesAstray(s, l)
    ensures Do(s, l).stray == s.stray
  {}

  lemma {:induction false} RunOrderIff(s: State, run: seq<Label>)
    requires Inv(s) && S.Solo(s) && S.CallOrder(s) && OrderInv(s) && s.stray == {} && Valid(s, run) && PoliteRun(s, run)
    ensures AlwaysInOrder(s, run) <==> OnCourse(s, run)
    decreases |run|
  {
    if run != [] {
      var l := run[0];
      if GoesAstray(s, l) {
        StrayBreaksOrder(s, l);
      } else {
        StaysOnCourse(s, l);
        StepInv(s, l);
        S.StepSolo(s, l);
        S.StepCallOrder(s, l);
        StepOrder(s, l);
        RunOrderIff(Do(s, l), run[1..]);
      }
    }
  }

  /** With appends serialised, as `Log` serialises them, records stay in call order at
      every moment if and only if no write goes astray. */
  lemma OrderIff(c: Config, run: seq<Label>)
    requires Valid(Init(c), run) && PoliteRun(Init(c), run)
    ensures AlwaysInOrder(Init(c), run) <==> OnCourse(Init(c), run)
  {
    InitInv(c);
    RunOrderIff(Init(c), run);
  }

  lemma {:induction false} NoStrays(s: State, run: seq<Label>)
    requires Valid(s, run) && OnCourse(s, run)
    ensures Run(s, run).stray == s.stray
    decreases |run|
  {
    if run != [] {
      StaysOnCourse(s, run[0]);
      NoStrays(Do(s, run[0]), run[1..]);
    }
  }

  // ------------------------------------------------------- the callers' discipline

  /** No append begins while another append or a flush is under way, and no flush begins
      while an append is. */
  ghost predicate Exclusive(s: State, l: Label) {
    && (l.BeginAppend? ==> s.calls == map[] && s.section.Unlocked?)
    && (l.BeginFlush? ==> forall c :: !S.Active(s, c))
  }

  ghost predicate ExclusiveRun(s: State, run: seq<Label>)
    requires Valid(s, run)
    decreases |run|
  {
    run == [] || (Exclusive(s, run[0]) && ExclusiveRun(Do(s, run[0]), run[1..]))
  }

  /** An append under way is the only call, and the buffer it loaded is the master. */
  ghost predicate Alone(s: State) {
    && (forall c, d | c in s.calls && d in s.calls && S.Active(s, c) :: c == d)
    && (forall c | c in s.calls && S.Active(s, c) :: s.section.Unlocked?)
    && (!s.section.Unlocked? && s.section.who.Producer? ==> forall c :: c !in s.calls)
    && (forall c | c in s.calls && s.calls[c].Writing? :: s.calls[c].cur == s.master)
  }

  lemma StepAlone(s: State, l: Label)
    requires O.CallsKnown(s) && Alone(s) && Enabled(s, l) && Exclusive(s, l)
    ensures Alone(Do(s, l))
  {
    var s' := Do(s, l);
    assert l.BeginFlush? ==> s.section.Unlocked? || !S.Active(s, s.section.c);
    forall c, d | c in s'.calls && d in s'.calls && S.Active(s', c)
      ensures c == d && s'.section.Unlocked?
    {
      S.StepActive(s, l, c);
    }
  }

  lemma AloneIsPolite(s: State, l: Label)
    requires Inv(s) && Alone(s) && Enabled(s, l) && Exclusive(s, l)
    ensures S.Polite(s, l) && !GoesAstray(s, l)
  {
    assert O.Owners(s, s.master) == One(s.master < |s.bufs|);
    if l.BeginAppend? {
      forall c
        ensures !S.Active(s, c)
      {}
    }
  }

  lemma {:induction false} RunDisciplined(s: State, run: seq<Label>)
    requires Inv(s) && Alone(s) && Valid(s, run) && ExclusiveRun(s, run)
    ensures PoliteRun(s, run) && OnCourse(s, run) && Alone(Run(s, run))
    decreases |run|
  {
    if run != [] {
      AloneIsPolite(s, run[0]);
      StepInv(s, run[0]);
      StepAlone(s, run[0]);
      RunDisciplined(Do(s, run[0]), run[1..]);
    }
  }

  /** Callers who keep appends and flushes apart get the order, in every run. */
  lemma DisciplineKeepsOrder(c: Config, run: seq<Label>)
    requires Valid(Init(c), run) && ExclusiveRun(Init(c), run)
    ensures PoliteRun(Init(c), run) && OnCourse(Init(c), run) && AlwaysInOrder(Init(c), run)
  {
    InitInv(c);
    RunDisciplined(Init(c), run);
    OrderIff(c, run);
  }

  /** Appends are serialised, and either flushes keep off them or no write went astray. */
  ghost predicate Orderly(s: State, run: seq<Label>)
    requires Valid(s, run)
  {
    ExclusiveRun(s, run) || (PoliteRun(s, run) && OnCourse(s, run))
  }

  /** Delivered frames, then the queued buffers in strand order, then the master, are the
      accepted frames in call order. */
  lemma SingleProducerOrder(c: Config, run: seq<Label>)
    requires Valid(Init(c), run) && Orderly(Init(c), run)
    ensures var s := Run(Init(c), run);
      && S.PathOk(s) && s.accepted == s.persisted + S.Flat(Loads(s), S.Path(s))
      && (forall i, j | 0 <= i < j < |s.accepted| :: s.accepted[i].call < s.accepted[j].call)
  {
    InitInv(c);
    if ExclusiveRun(Init(c), run) { DisciplineKeepsOrder(c, run); }
    NoStrays(Init(c), run);
    RunOrder(Init(c), run);
  }

  // ---------------------------------------------- what `Log` alone does not give

  lemma {:induction false} PoliteConcat(s: State, a: seq<Label>, b: seq<Label>)
    requires Valid(s, a) && Valid(Run(s, a), b) && PoliteRun(s, a) && PoliteRun(Run(s, a), b)
    ensures Valid(s, a + b) && PoliteRun(s, a + b)
    decreases |a|
  {
    ValidConcat(s, a, b);
    if a == [] {
      assert a + b == b;
    } else {
      assert (a + b)[1..] == a[1..] + b;
      PoliteConcat(Do(s, a[0]), a[1..], b);
    }
  }

  lemma {:induction false} NoAppendIsPolite(s: State, run: seq<Label>)
    requires Valid(s, run) && forall i | 0 <= i < |run| :: !run[i].BeginAppend?
    ensures PoliteRun(s, run)
    decreases |run|
  {
    if run != [] { NoAppendIsPolite(Do(s, run[0]), run[1..]); }
  }

  lemma OneAppendIsPolite(s: State, run: seq<Label>)
    requires s.calls == map[] && s.section.Unlocked? && Valid(s, run) && run != []
    requires forall i | 0 < i < |run| :: !run[i].BeginAppend?
    ensures PoliteRun(s, run)
  {
    NoAppendIsPolite(Do(s, run[0]), run[1..]);
  }

  /** The late producer's write of `LateWriteStrays`, seen as a break of the order. */
  lemma EmptiedBreaks()
    ensures Valid(Emptied(), [TryWrite(1)]) && !S.InOrder(Run(Emptied(), [TryWrite(1)]))
  {
    LateWriteStrays();
    ReachableInv(Emptied());
    StrayBreaksOrder(Emptied(), TryWrite(1));
    ValidCons(Emptied(), TryWrite(1), []);
    assert [TryWrite(1)] + [] == [TryWrite(1)];
  }

  /** `Log` serialises appends but not flushes against them: this run keeps to that, a
      write goes astray in it, and the order is lost. */
  lemma LateWriteBreaksOrder() returns (run: seq<Label>)
    ensures Valid(Init(TWO_SMALL), run) && PoliteRun(Init(TWO_SMALL), run) && !S.InOrder(Run(Init(TWO_SMALL), run))
  {
    hide Do, Enabled, Emptied, S.InOrder, Run, Valid, PoliteRun;
    var first := RunsToWritten();
    var second := EmptiedFromWritten();
    var tail := [TryWrite(1)];
    EmptiedBreaks();
    ValidConcat(Written(), second, tail);
    ValidConcat(Init(TWO_SMALL), first, second + tail);
    OneAppendIsPolite(Init(TWO_SMALL), first);
    OneAppendIsPolite(Written(), second + tail);
    PoliteConcat(Init(TWO_SMALL), first, second + tail);
    run := first + (second + tail);
  }
}
