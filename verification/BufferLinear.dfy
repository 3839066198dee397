/** `MmapBuffer` is linearizable: in every orderly interleaving the `Write` calls take
    effect one at a time, between their start and their end, on the buffer that the store
    machine assumes, where sealing and resetting are single steps as well. */
module BufferLinear {
  import opened BufferMachine
  import opened Bytes
  import opened Framing
  import SM = StoreMachine

  /** An operation on the buffer, taken as one step, with its result. */
  datatype Op = Wrote(c: nat, p: Payload, ok: bool) | Sealed | Reset

  predicate Possible(cap: nat, b: SM.Buf, op: Op) {
    match op
    case Wrote(c, p, ok) => SM.WriteTo(cap, b, SM.Frame(c, p)).1 == ok
    case Sealed => !b.sealed
    case Reset => b.sealed
  }

  function Apply(cap: nat, b: SM.Buf, op: Op): SM.Buf {
    match op
    case Wrote(c, p, ok) => SM.WriteTo(cap, b, SM.Frame(c, p)).0
    case Sealed => b.(sealed := true)
    case Reset => SM.FRESH_BUF
  }

  predicate Legal(cap: nat, b: SM.Buf, h: seq<Op>)
    decreases |h|
  {
    h == [] || (Possible(cap, b, h[0]) && Legal(cap, Apply(cap, b, h[0]), h[1..]))
  }

  function Replay(cap: nat, b: SM.Buf, h: seq<Op>): SM.Buf
    decreases |h|
  {
    if h == [] then b else Replay(cap, Apply(cap, b, h[0]), h[1..])
  }

  lemma {:induction false} ReplayConcat(cap: nat, b: SM.Buf, g: seq<Op>, h: seq<Op>)
    ensures Legal(cap, b, g + h) <==> Legal(cap, b, g) && Legal(cap, Replay(cap, b, g), h)
    ensures Replay(cap, b, g + h) == Replay(cap, Replay(cap, b, g), h)
    decreases |g|
  {
    hide Possible, Apply;
    if g == [] {
      assert g + h == h;
    } else {
      assert (g + h)[1..] == g[1..] + h;
      ReplayConcat(cap, Apply(cap, b, g[0]), g[1..], h);
    }
  }

  lemma ReplayOne(cap: nat, b: SM.Buf, h: seq<Op>, op: Op)
    ensures Legal(cap, b, h + [op]) <==> Legal(cap, b, h) && Possible(cap, Replay(cap, b, h), op)
    ensures Replay(cap, b, h + [op]) == Apply(cap, Replay(cap, b, h), op)
  {
    hide Possible, Apply;
    ReplayConcat(cap, b, h, [op]);
    assert [op][1..] == [];
  }

  // -------------------------------------------------------------- the order of effects

  /** The operations in the order of their effects. While `Seal` spins, writers that were
      let in before still reserve: they count as before the seal, so what was decided
      since the seal is kept apart in `late`. Also kept: which calls had returned when a
      call started, and what each call returned. */
  datatype Trace = Trace(done: seq<Op>, late: seq<Op>, before: map<nat, set<nat>>, results: map<nat, bool>)

  function History(t: Trace): seq<Op> {
    t.done + t.late
  }

  function Decided(t: Trace, op: Op): Trace {
    if t.late == [] then t.(done := t.done + [op]) else t.(late := t.late + [op])
  }

  function Track(t: Trace, s: State, l: Label): Trace
    requires Enabled(s, l)
  {
    match l
    case Enter(p) => t.(before := t.before[s.nextCall := t.results.Keys])
    case ReadSealed(c) => if s.sealed then Decided(t, Wrote(c, s.calls[c].p, false)) else t
    case Reserve(c) => t.(done := t.done + [Wrote(c, s.calls[c].p, s.offset + 4 + |s.calls[c].p| <= |s.region|)])
    case Leave(c) => t.(results := t.results[c := s.calls[c].Filling?])
    case StoreSealed => t.(late := [Sealed])
    case SawNoWriters => t.(done := t.done + t.late, late := [])
    case ClearSealed => t.(done := t.done + [Reset])
    case _ => t
  }

  function TrackRun(t: Trace, s: State, run: seq<Label>): Trace
    requires Valid(s, run)
    decreases |run|
  {
    if run == [] then t else TrackRun(Track(t, s, run[0]), Do(s, run[0]), run[1..])
  }

  const START := Trace([], [], map[], map[])

  // ----------------------------------------------------- legality of the history

  function FramesOf(log: seq<Entry>): (fs: seq<SM.Frame>)
    ensures |fs| == |log| && forall i | 0 <= i < |log| :: fs[i] == SM.Frame(log[i].call, log[i].payload)
  {
    seq(|log|, i requires 0 <= i < |log| => SM.Frame(log[i].call, log[i].payload))
  }

  function View(s: State, shut: bool): SM.Buf {
    SM.Buf(FramesOf(s.log), s.offset, shut)
  }

  /** After the seal nothing but refusals. */
  predicate Refusals(h: seq<Op>) {
    forall i | 0 <= i < |h| :: h[i].Wrote? && !h[i].ok
  }

  ghost predicate LateOk(s: State, t: Trace) {
    if s.gate.Sealing? then t.late != [] && t.late[0] == Sealed && Refusals(t.late[1..]) else t.late == []
  }

  /** Once cleared, the offset stays so until the buffer is open again. */
  predicate Cleared(s: State) {
    s.gate.Unsealing? ==> s.log == [] && s.offset == 0
  }

  lemma StepCleared(s: State, l: Label)
    requires Fence(s) && Cleared(s) && Enabled(s, l)
    ensures Cleared(Do(s, l))
  {}

  /** `done` is a legal sequential history, and ends in what the buffer shows. */
  ghost predicate DoneOk(s: State, t: Trace) {
    var b := Replay(|s.region|, SM.FRESH_BUF, t.done);
    && Legal(|s.region|, SM.FRESH_BUF, t.done)
    && (if s.gate.Sealing? then b == View(s, false)
        else if s.gate.Unsealing? then b.sealed
        else b == View(s, s.sealed))
  }

  lemma {:induction false} RefusalsLegal(cap: nat, b: SM.Buf, h: seq<Op>)
    requires b.sealed && Refusals(h)
    ensures Legal(cap, b, h) && Replay(cap, b, h) == b
    decreases |h|
  {
    if h != [] {
      assert Possible(cap, b, h[0]) && Apply(cap, b, h[0]) == b;
      assert Refusals(h[1..]);
      RefusalsLegal(cap, b, h[1..]);
    }
  }

  /** What was decided since the seal is legal after any writes that came in before it. */
  lemma LateLegal(cap: nat, b: SM.Buf, late: seq<Op>)
    requires !b.sealed && late != [] && late[0] == Sealed && Refusals(late[1..])
    ensures Legal(cap, b, late) && Replay(cap, b, late) == b.(sealed := true)
  {
    RefusalsLegal(cap, b.(sealed := true), late[1..]);
  }

  lemma ReserveDone(s: State, t: Trace, c: nat)
    requires Fence(s) && CallsStorable(s) && DoneOk(s, t) && Enabled(s, Reserve(c))
    ensures DoneOk(DoReserve(s, c), Track(t, s, Reserve(c)))
  {
    var p := s.calls[c].p;
    var op := Wrote(c, p, s.offset + 4 + |p| <= |s.region|);
    ReplayOne(|s.region|, SM.FRESH_BUF, t.done, op);
    assert FramesOf(s.log + [Entry(c, p)]) == FramesOf(s.log) + [SM.Frame(c, p)];
  }

  lemma StepDone(s: State, t: Trace, l: Label)
    requires Fence(s) && CallsStorable(s) && Cleared(s) && DoneOk(s, t) && LateOk(s, t) && Enabled(s, l)
    ensures DoneOk(Do(s, l), Track(t, s, l))
  {
    var cap, b := |s.region|, Replay(|s.region|, SM.FRESH_BUF, t.done);
    match l
    case Reserve(c) => ReserveDone(s, t, c);
    case ReadSealed(c) => ReplayOne(cap, SM.FRESH_BUF, t.done, Wrote(c, s.calls[c].p, false));
    case SawNoWriters =>
      LateLegal(cap, b, t.late);
      ReplayConcat(cap, SM.FRESH_BUF, t.done, t.late);
    case ClearSealed => ReplayOne(cap, SM.FRESH_BUF, t.done, Reset);
    case _ => QuietDone(s, t, l);
  }

  lemma QuietDone(s: State, t: Trace, l: Label)
    requires Fence(s) && DoneOk(s, t) && Enabled(s, l)
    requires !l.Reserve? && !l.ReadSealed? && !l.SawNoWriters? && !l.ClearSealed?
    ensures DoneOk(Do(s, l), Track(t, s, l))
  {
    assert Track(t, s, l).done == t.done;
  }

  lemma StepLate(s: State, t: Trace, l: Label)
    requires Fence(s) && LateOk(s, t) && Enabled(s, l)
    ensures LateOk(Do(s, l), Track(t, s, l))
  {
    if l.ReadSealed? && s.sealed && t.late != [] {
      assert Decided(t, Wrote(l.c, s.calls[l.c].p, false)).late[1..] == t.late[1..] + [Wrote(l.c, s.calls[l.c].p, false)];
    }
  }

  // --------------------------------------------------- each call once, in its interval

  /** `op` is the effect of call `c`. */
  predicate Of(op: Op, c: nat) {
    op.Wrote? && op.c == c
  }

  predicate NoneOf(h: seq<Op>, c: nat) {
    forall op | op in h :: !Of(op, c)
  }

  predicate Once(h: seq<Op>) {
    forall i, j | 0 <= i < j < |h| && h[i].Wrote? :: !Of(h[j], h[i].c)
  }

  /** Whether the call has taken effect yet, and how. */
  predicate EffectOk(h: seq<Op>, c: nat, phase: Phase) {
    if phase.Filling? || phase.Refused? then Wrote(c, phase.p, phase.Filling?) in h else NoneOf(h, c)
  }

  ghost predicate Returned(h: seq<Op>, c: nat, ok: bool) {
    exists p :: Wrote(c, p, ok) in h
  }

  ghost predicate ResultsOk(h: seq<Op>, s: State, results: map<nat, bool>) {
    && Once(h)
    && (forall op | op in h && op.Wrote? :: op.c < s.nextCall)
    && (forall c | c in s.calls :: c < s.nextCall && c !in results && EffectOk(h, c, s.calls[c]))
    && (forall c | c in results :: c < s.nextCall && Returned(h, c, results[c]))
  }

  /** No operation comes after one whose call started when its own had already returned. */
  ghost predicate RealTime(h: seq<Op>, before: map<nat, set<nat>>) {
    forall i, j | 0 <= i < j < |h| && h[i].Wrote? && h[j].Wrote? && h[i].c in before :: h[j].c !in before[h[i].c]
  }

  /** Calls in progress had not returned when any call started; and what was decided since
      the seal belongs to calls that had not when those let in before it started. */
  ghost predicate BeforeOk(s: State, t: Trace) {
    && (forall c | c in s.calls :: c in t.before)
    && (forall c, d | c in t.before && d in t.before[c] :: d in t.results)
    && (forall op, c | op in t.late && op.Wrote? && c in s.calls && s.calls[c].Admitted? :: op.c !in t.before[c])
  }

  lemma InsertMembers(g: seq<Op>, op: Op, h: seq<Op>)
    ensures forall x :: x in g + [op] + h <==> x == op || x in g + h
  {
    forall x
      ensures x in g + [op] + h <==> x == op || x in g + h
    {
      assert x in g + [op] + h <==> x in g || x == op || x in h;
    }
  }

  /** The element at `i` of a sequence with one inserted. */
  lemma InsertAt(g: seq<Op>, op: Op, h: seq<Op>, i: nat)
    requires i < |g + [op] + h|
    ensures (g + [op] + h)[i] == if i < |g| then (g + h)[i] else if i == |g| then op else (g + h)[i - 1]
    ensures i < |g| ==> (g + h)[i] in g
    ensures i > |g| ==> (g + h)[i - 1] in h
  {
    if i > |g| { assert (g + h)[i - 1] == h[i - 1 - |g|]; }
  }

  lemma InsertOnce(g: seq<Op>, op: Op, h: seq<Op>)
    requires Once(g + h) && (op.Wrote? ==> NoneOf(g + h, op.c))
    ensures Once(g + [op] + h)
  {
    var r := g + [op] + h;
    forall i, j | 0 <= i < j < |r| && r[i].Wrote?
      ensures !Of(r[j], r[i].c)
    {
      InsertAt(g, op, h, i);
      InsertAt(g, op, h, j);
      InsertMembers(g, op, h);
      if i == |g| { assert r[j] in g + h; } else if j == |g| { assert r[i] in g + h; }
    }
  }

  lemma InsertRealTime(g: seq<Op>, op: Op, h: seq<Op>, before: map<nat, set<nat>>)
    requires RealTime(g + h, before)
    requires op.Wrote? ==> forall x | x in g && x.Wrote? && x.c in before :: op.c !in before[x.c]
    requires op.Wrote? && op.c in before ==> forall x | x in h && x.Wrote? :: x.c !in before[op.c]
    ensures RealTime(g + [op] + h, before)
  {
    var r := g + [op] + h;
    forall i, j | 0 <= i < j < |r| && r[i].Wrote? && r[j].Wrote? && r[i].c in before
      ensures r[j].c !in before[r[i].c]
    {
      InsertAt(g, op, h, i);
      InsertAt(g, op, h, j);
    }
  }

  /** How a step changes the history: not at all, or by one operation at one place. */
  predicate Inserts(l: Label) {
    l.ReadSealed? || l.Reserve? || l.StoreSealed? || l.ClearSealed?
  }

  lemma SameHistory(s: State, t: Trace, l: Label)
    requires Enabled(s, l) && (!Inserts(l) || (l.ReadSealed? && !s.sealed))
    ensures History(Track(t, s, l)) == History(t)
  {}

  lemma DecidedHistory(t: Trace, op: Op)
    ensures History(Decided(t, op)) == History(t) + [op] + []
  {}

  lemma InsertResults(g: seq<Op>, op: Op, h: seq<Op>, s: State, s': State, results: map<nat, bool>)
    requires ResultsOk(g + h, s, results) && s'.nextCall == s.nextCall
    requires op.Wrote? ==> op.c in s.calls && NoneOf(g + h, op.c)
    requires forall c | c in s'.calls ::
      c in s.calls && if Of(op, c) then EffectOk([op], c, s'.calls[c]) else s'.calls[c] == s.calls[c]
    ensures ResultsOk(g + [op] + h, s', results)
  {
    hide Once;
    InsertMembers(g, op, h);
    InsertOnce(g, op, h);
    forall c | c in s'.calls
      ensures c < s'.nextCall && c !in results && EffectOk(g + [op] + h, c, s'.calls[c])
    {
      assert EffectOk(g + h, c, s.calls[c]);
    }
    forall c | c in results
      ensures c < s'.nextCall && Returned(g + [op] + h, c, results[c])
    {
      var p :| Wrote(c, p, results[c]) in g + h;
      assert Wrote(c, p, results[c]) in g + [op] + h;
    }
  }

  lemma SameResults(h: seq<Op>, s: State, s': State, results: map<nat, bool>, results': map<nat, bool>)
    requires ResultsOk(h, s, results) && s'.nextCall >= s.nextCall
    requires forall c | c in s'.calls ::
      && c < s'.nextCall && c !in results'
      && if c in s.calls then EffectOk(h, c, s.calls[c]) ==> EffectOk(h, c, s'.calls[c]) else c >= s.nextCall && s'.calls[c].Entered?
    requires forall c | c in results' ::
      (c in results && results'[c] == results[c]) || (c in s.calls && (s.calls[c].Filling? || s.calls[c].Refused?) && results'[c] == s.calls[c].Filling?)
    ensures ResultsOk(h, s', results')
  {
    hide Once;
    forall c | c in s'.calls
      ensures EffectOk(h, c, s'.calls[c])
    {
      if c in s.calls { assert EffectOk(h, c, s.calls[c]); }
    }
    forall c | c in results'
      ensures c < s'.nextCall && Returned(h, c, results'[c])
    {
      if !(c in results && results'[c] == results[c]) {
        assert EffectOk(h, c, s.calls[c]);
        assert Wrote(c, s.calls[c].p, results'[c]) in h;
      }
    }
  }

  ghost predicate LinearInv(s: State, t: Trace) {
    && Cleared(s) && LateOk(s, t) && DoneOk(s, t)
    && ResultsOk(History(t), s, t.results) && RealTime(History(t), t.before) && BeforeOk(s, t)
  }

  lemma StepResults(s: State, t: Trace, l: Label)
    requires Fence(s) && LateOk(s, t) && ResultsOk(History(t), s, t.results) && Enabled(s, l)
    ensures ResultsOk(History(Track(t, s, l)), Do(s, l), Track(t, s, l).results)
  {
    hide ResultsOk;
    if l.Reserve? {
      ReserveResults(s, t, l.c);
    } else if l.ReadSealed? && s.sealed {
      RefuseResults(s, t, l.c);
    } else if l.StoreSealed? || l.ClearSealed? {
      SealResults(s, t, l);
    } else {
      QuietResults(s, t, l);
    }
  }

  lemma NotYet(s: State, t: Trace, c: nat)
    requires ResultsOk(History(t), s, t.results) && c in s.calls && (s.calls[c].Entered? || s.calls[c].Admitted?)
    ensures NoneOf(History(t), c)
  {
    assert EffectOk(History(t), c, s.calls[c]);
  }

  lemma ReserveResults(s: State, t: Trace, c: nat)
    requires ResultsOk(History(t), s, t.results) && Enabled(s, Reserve(c))
    ensures ResultsOk(History(Track(t, s, Reserve(c))), DoReserve(s, c), t.results)
  {
    hide ResultsOk;
    NotYet(s, t, c);
    var op := Wrote(c, s.calls[c].p, s.offset + 4 + |s.calls[c].p| <= |s.region|);
    InsertResults(t.done, op, t.late, s, DoReserve(s, c), t.results);
  }

  lemma RefuseResults(s: State, t: Trace, c: nat)
    requires ResultsOk(History(t), s, t.results) && Enabled(s, ReadSealed(c)) && s.sealed
    ensures ResultsOk(History(Track(t, s, ReadSealed(c))), Do(s, ReadSealed(c)), t.results)
  {
    hide ResultsOk;
    NotYet(s, t, c);
    var op := Wrote(c, s.calls[c].p, false);
    DecidedHistory(t, op);
    assert History(t) + [] == History(t);
    InsertResults(History(t), op, [], s, Do(s, ReadSealed(c)), t.results);
  }

  lemma SealResults(s: State, t: Trace, l: Label)
    requires Fence(s) && LateOk(s, t) && ResultsOk(History(t), s, t.results) && Enabled(s, l) && (l.StoreSealed? || l.ClearSealed?)
    ensures ResultsOk(History(Track(t, s, l)), Do(s, l), t.results)
  {
    hide ResultsOk;
    var op := if l.StoreSealed? then Sealed else Reset;
    assert t.late == [] && History(t) + [] == History(t) == t.done;
    assert History(Track(t, s, l)) == History(t) + [op] + [];
    InsertResults(History(t), op, [], s, Do(s, l), t.results);
  }

  lemma QuietResults(s: State, t: Trace, l: Label)
    requires ResultsOk(History(t), s, t.results) && Enabled(s, l) && (!Inserts(l) || (l.ReadSealed? && !s.sealed))
    ensures ResultsOk(History(Track(t, s, l)), Do(s, l), Track(t, s, l).results)
  {
    SameHistory(s, t, l);
    ResultsKnown(History(t), s, t.results);
    hide ResultsOk;
    SameResults(History(t), s, Do(s, l), t.results, Track(t, s, l).results);
  }

  lemma ResultsKnown(h: seq<Op>, s: State, results: map<nat, bool>)
    requires ResultsOk(h, s, results)
    ensures forall c | c in s.calls :: c < s.nextCall && c !in results
    ensures forall c | c in results :: c < s.nextCall
    ensures forall op | op in h && op.Wrote? :: op.c < s.nextCall
  {}

  lemma StepRealTime(s: State, t: Trace, l: Label)
    requires LateOk(s, t) && ResultsOk(History(t), s, t.results) && RealTime(History(t), t.before) && BeforeOk(s, t) && Enabled(s, l)
    ensures RealTime(History(Track(t, s, l)), Track(t, s, l).before)
  {
    ResultsKnown(History(t), s, t.results);
    hide ResultsOk;
    if l.Reserve? {
      InsertRealTime(t.done, Wrote(l.c, s.calls[l.c].p, s.offset + 4 + |s.calls[l.c].p| <= |s.region|), t.late, t.before);
    } else if l.ReadSealed? && s.sealed {
      DecidedHistory(t, Wrote(l.c, s.calls[l.c].p, false));
      assert History(t) + [] == History(t);
      InsertRealTime(History(t), Wrote(l.c, s.calls[l.c].p, false), [], t.before);
    } else if l.StoreSealed? || l.ClearSealed? {
      SealRealTime(s, t, l);
    } else {
      SameHistory(s, t, l);
      if l.Enter? { EnterRealTime(s, t, l.p); }
    }
  }

  lemma SealRealTime(s: State, t: Trace, l: Label)
    requires LateOk(s, t) && RealTime(History(t), t.before) && Enabled(s, l) && (l.StoreSealed? || l.ClearSealed?)
    ensures RealTime(History(Track(t, s, l)), t.before)
  {
    var op := if l.StoreSealed? then Sealed else Reset;
    assert t.late == [] && History(t) + [] == History(t) == t.done;
    assert History(Track(t, s, l)) == History(t) + [op] + [];
    InsertRealTime(History(t), op, [], t.before);
  }

  lemma EnterRealTime(s: State, t: Trace, p: Payload)
    requires RealTime(History(t), t.before) && forall op | op in History(t) && op.Wrote? :: op.c < s.nextCall
    ensures RealTime(History(t), t.before[s.nextCall := t.results.Keys])
  {
    var h, before' := History(t), t.before[s.nextCall := t.results.Keys];
    forall i, j | 0 <= i < j < |h| && h[i].Wrote? && h[j].Wrote? && h[i].c in before'
      ensures h[j].c !in before'[h[i].c]
    {
      assert h[i] in h && h[i].c < s.nextCall;
    }
  }

  lemma StepBefore(s: State, t: Trace, l: Label)
    requires Fence(s) && LateOk(s, t) && ResultsOk(History(t), s, t.results) && BeforeOk(s, t) && Enabled(s, l)
    ensures BeforeOk(Do(s, l), Track(t, s, l))
  {
    ResultsKnown(History(t), s, t.results);
    hide ResultsOk;
  }

  lemma StepLinear(s: State, t: Trace, l: Label)
    requires Inv(s) && LinearInv(s, t) && Enabled(s, l)
    ensures LinearInv(Do(s, l), Track(t, s, l)) && |Do(s, l).region| == |s.region|
  {
    hide Slots, Contents, Bookkeeping, LateOk, DoneOk, ResultsOk, RealTime, BeforeOk, Cleared;
    StepCleared(s, l);
    StepLate(s, t, l);
    StepDone(s, t, l);
    StepResults(s, t, l);
    StepRealTime(s, t, l);
    StepBefore(s, t, l);
  }

  lemma {:induction false} RunLinear(s: State, t: Trace, run: seq<Label>)
    requires Inv(s) && LinearInv(s, t) && Valid(s, run) && OrderlyRun(s, run)
    ensures LinearInv(Run(s, run), TrackRun(t, s, run)) && |Run(s, run).region| == |s.region|
    decreases |run|
  {
    hide Inv, LinearInv, Do, Enabled, Track;
    if run != [] {
      StepLinear(s, t, run[0]);
      StepInv(s, run[0]);
      RunLinear(Do(s, run[0]), Track(t, s, run[0]), run[1..]);
    }
  }

  lemma StartLinear(cap: nat)
    ensures LinearInv(Init(cap), START)
  {
    assert History(START) == [];
  }

  /** Linearizability, for any number of writers and any number of cycles: the history is
      legal for a buffer whose operations are single steps and leaves it as the bytes and
      fields of this one show; each call that returned is in it once, with the result it
      returned; and a call that returned before another started comes before it. */
  lemma Linearizable(cap: nat, run: seq<Label>)
    requires Valid(Init(cap), run) && OrderlyRun(Init(cap), run)
    ensures var s, t := Run(Init(cap), run), TrackRun(START, Init(cap), run);
      && Legal(cap, SM.FRESH_BUF, History(t))
      && (!s.gate.Unsealing? ==> Replay(cap, SM.FRESH_BUF, History(t)) == View(s, s.sealed))
      && Once(History(t)) && (forall c | c in t.results :: Returned(History(t), c, t.results[c]))
      && RealTime(History(t), t.before)
  {
    hide Inv, Once, RealTime, BeforeOk;
    InitInv(cap);
    StartLinear(cap);
    RunLinear(Init(cap), START, run);
    ReachableFenceOk(cap, run);
    LinearHistory(Run(Init(cap), run), TrackRun(START, Init(cap), run));
  }

  lemma ReachableFenceOk(cap: nat, run: seq<Label>)
    requires Valid(Init(cap), run) && OrderlyRun(Init(cap), run)
    ensures Fence(Run(Init(cap), run))
  {
    InitInv(cap);
    RunInv(Init(cap), run);
  }

  lemma LinearHistory(s: State, t: Trace)
    requires Fence(s) && DoneOk(s, t) && LateOk(s, t)
    ensures Legal(|s.region|, SM.FRESH_BUF, History(t))
    ensures !s.gate.Unsealing? ==> Replay(|s.region|, SM.FRESH_BUF, History(t)) == View(s, s.sealed)
  {
    ReplayConcat(|s.region|, SM.FRESH_BUF, t.done, t.late);
    if s.gate.Sealing? {
      LateLegal(|s.region|, Replay(|s.region|, SM.FRESH_BUF, t.done), t.late);
    }
  }
}
