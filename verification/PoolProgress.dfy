/** The pool goes on working: whatever has been submitted gets done, and a shutdown that
    has begun returns, without any new call, timeout or spurious wake-up. */
module PoolProgress {
  import opened Counting
  import opened PoolMachine

  /** A step of an existing worker, submitter or stopper. */
  predicate Helps(l: Label) {
    !l.Begin? && !l.BeginStop? && !l.Rouse?
  }

  predicate AllHelp(run: seq<Label>) {
    forall i | 0 <= i < |run| :: Helps(run[i])
  }

  // ----------------------------------------------------------------- the measure

  function AtLeast<V>(m: map<nat, V>, weight: V -> nat, k: nat): set<nat> {
    set x | x in m && weight(m[x]) >= k
  }

  /** The weights of all entries together, for weights up to `top`. */
  function Total<V>(m: map<nat, V>, weight: V -> nat, top: nat): nat {
    if top == 0 then 0 else |AtLeast(m, weight, top)| + Total(m, weight, top - 1)
  }

  lemma SubsetSize(a: set<nat>, b: set<nat>)
    requires a <= b
    ensures |a| <= |b| && (a != b ==> |a| < |b|)
    decreases |a|
  {
    if a == {} {
      assert b != {} ==> |b| > 0;
    } else {
      var x :| x in a;
      SubsetSize(a - {x}, b - {x});
      assert a == (a - {x}) + {x} && b == (b - {x}) + {x};
    }
  }

  /** An entry that gets lighter, or is removed, lowers the total. */
  lemma {:induction false} TotalLowers<V>(m: map<nat, V>, m': map<nat, V>, x: nat, weight: V -> nat, top: nat)
    requires x in m && (forall y | y in m' && y != x :: y in m && m'[y] == m[y])
    requires x in m' ==> weight(m'[x]) <= weight(m[x])
    ensures Total(m', weight, top) <= Total(m, weight, top)
    ensures (if x in m' then weight(m'[x]) else 0) < weight(m[x]) <= top ==> Total(m', weight, top) < Total(m, weight, top)
  {
    if top > 0 {
      TotalLowers(m, m', x, weight, top - 1);
      var a, b := AtLeast(m', weight, top), AtLeast(m, weight, top);
      SubsetSize(a, b);
      if (if x in m' then weight(m'[x]) else 0) < top == weight(m[x]) { assert x in b && x !in a; }
    }
  }

  lemma {:induction false} TotalRaises<V>(m: map<nat, V>, x: nat, p: V, weight: V -> nat, top: nat)
    requires x in m && weight(m[x]) <= weight(p) <= weight(m[x]) + 1
    ensures Total(m[x := p], weight, top) <= Total(m, weight, top) + 1
    ensures weight(m[x]) >= top ==> Total(m[x := p], weight, top) == Total(m, weight, top)
  {
    if top > 0 {
      TotalRaises(m, x, p, weight, top - 1);
      var a, b := AtLeast(m[x := p], weight, top), AtLeast(m, weight, top);
      if weight(m[x]) >= top || weight(p) < top {
        assert a == b;
      } else {
        assert a == b + {x};
      }
    }
  }

  function WorkerWeight(p: Worker): nat {
    match p
    case Dead => 0
    case Exiting => 1
    case Blocked => 2
    case Top => 3
    case Woken(_) => 4
    case Busy(_) => 4
  }

  function SubmitWeight(p: Submit): nat {
    match p
    case Arriving => 5
    case Locking => 4
    case Reaping => 3
    case Notifying(_) => 2
    case Spawning => 1
  }

  function StopperWeight(p: Stopper): nat {
    match p
    case Stopping => 4
    case Waking => 3
    case Taking => 2
    case Joining => 1
  }

  function Stops(s: State): nat {
    Total(s.stoppers, StopperWeight, 4)
  }

  function Submits(s: State): nat {
    Total(s.submits, SubmitWeight, 5)
  }

  function Work(s: State): nat {
    5 * |s.tasks| + Total(s.workers, WorkerWeight, 4)
  }

  function Handles(s: State): nat {
    |s.reap| + |s.taken|
  }

  /** The measure of `s'` is below that of `s`. */
  predicate Less(s': State, s: State) {
    || Stops(s') < Stops(s)
    || (Stops(s') == Stops(s) && Submits(s') < Submits(s))
    || (Stops(s') == Stops(s) && Submits(s') == Submits(s) && Work(s') < Work(s))
    || (Stops(s') == Stops(s) && Submits(s') == Submits(s) && Work(s') == Work(s) && Handles(s') < Handles(s))
  }

  lemma StopperLowers(s: State, l: Label)
    requires Enabled(s, l) && (l.Stop? || l.WakeAll? || l.TakeAll? || l.Return?)
    ensures Less(Do(s, l), s)
  {
    TotalLowers(s.stoppers, Do(s, l).stoppers, l.k, StopperWeight, 4);
  }

  /** What a step of a submitter does to its entry. */
  ghost predicate Lighter(m: map<nat, Submit>, m': map<nat, Submit>, e: nat) {
    && e in m
    && (m' == m - {e} || (e in m' && m' == m[e := m'[e]] && SubmitWeight(m'[e]) < SubmitWeight(m[e])))
  }

  predicate SameStop(s: State, s': State) {
    && s'.stoppers == s.stoppers && s'.stopped == s.stopped && s'.finished == s.finished
    && s'.submitted == s.submitted
  }

  lemma NotifyChange(s: State, l: Label)
    requires Enabled(s, l) && (l.NotifyOne? || l.NotifyNobody?)
    ensures SameStop(s, Do(s, l)) && Lighter(s.submits, Do(s, l).submits, l.e)
  {
    assert AfterNotify(s, l.e).submits == Do(s, l).submits;
  }

  lemma ArriveChange(s: State, l: Label)
    requires Enabled(s, l) && (l.ReadStopped? || l.Lock?)
    ensures SameStop(s, Do(s, l)) && Lighter(s.submits, Do(s, l).submits, l.e)
  {}

  lemma PushChange(s: State, l: Label)
    requires Enabled(s, l) && (l.Push? || l.Spawn?)
    ensures SameStop(s, Do(s, l)) && Lighter(s.submits, Do(s, l).submits, l.e)
  {
    hide Crowded;
  }

  lemma SubmitLowers(s: State, l: Label)
    requires Enabled(s, l) && OfSubmitter(l)
    ensures Less(Do(s, l), s)
  {
    hide Do, Enabled, Total;
    SubmitterChange(s, l);
    TotalLowers(s.submits, Do(s, l).submits, l.e, SubmitWeight, 5);
  }

  lemma HandleLowers(s: State, l: Label)
    requires Enabled(s, l) && (l.ReapOne? || l.JoinOne?)
    ensures Less(Do(s, l), s)
  {}

  lemma LookChange(s: State, w: nat)
    requires Enabled(s, Look(w))
    ensures var s', m, m' := DoLook(s, w), s.workers, DoLook(s, w).workers;
      && s'.stoppers == s.stoppers && s'.submits == s.submits && w in m && w in m' && m' == m[w := m'[w]]
      && (if s.tasks != []
          then s'.tasks == s.tasks[1..] && WorkerWeight(m[w]) <= WorkerWeight(m'[w]) <= WorkerWeight(m[w]) + 1
          else s'.tasks == s.tasks && WorkerWeight(m'[w]) < WorkerWeight(m[w]))
  {}

  lemma EndChange(s: State, l: Label)
    requires Enabled(s, l) && (l.Finish? || l.Die?)
    ensures var s', m, m' := Do(s, l), s.workers, Do(s, l).workers;
      && s'.stoppers == s.stoppers && s'.submits == s.submits && l.w in m && l.w in m' && m' == m[l.w := m'[l.w]]
      && s'.tasks == s.tasks && WorkerWeight(m'[l.w]) < WorkerWeight(m[l.w])
  {}

  /** What a step of a worker does to its entry and to the queue. */
  lemma WorkerChange(s: State, l: Label)
    requires Enabled(s, l) && (l.Look? || l.Finish? || l.Die?)
    ensures var s', m, m' := Do(s, l), s.workers, Do(s, l).workers;
      && s'.stoppers == s.stoppers && s'.submits == s.submits && l.w in m && l.w in m' && m' == m[l.w := m'[l.w]]
      && (if l.Look? && s.tasks != []
          then s'.tasks == s.tasks[1..] && WorkerWeight(m[l.w]) <= WorkerWeight(m'[l.w]) <= WorkerWeight(m[l.w]) + 1
          else s'.tasks == s.tasks && WorkerWeight(m'[l.w]) < WorkerWeight(m[l.w]))
  {
    hide Enabled;
    if l.Look? { LookChange(s, l.w); } else { EndChange(s, l); }
  }

  lemma WorkerLowers(s: State, l: Label)
    requires Enabled(s, l) && (l.Look? || l.Finish? || l.Die?)
    ensures Less(Do(s, l), s)
  {
    hide Do, Enabled, Total;
    WorkerChange(s, l);
    var s' := Do(s, l);
    if l.Look? && s.tasks != [] {
      TotalRaises(s.workers, l.w, s'.workers[l.w], WorkerWeight, 4);
    } else {
      TotalLowers(s.workers, s'.workers, l.w, WorkerWeight, 4);
    }
  }

  lemma HelpLowers(s: State, l: Label)
    requires Enabled(s, l) && Helps(l)
    ensures Less(Do(s, l), s)
  {
    hide Less, Do, Enabled;
    match l
    case Stop(_) => StopperLowers(s, l);
    case WakeAll(_) => StopperLowers(s, l);
    case TakeAll(_) => StopperLowers(s, l);
    case Return(_) => StopperLowers(s, l);
    case ReapOne(_, _) => HandleLowers(s, l);
    case JoinOne(_, _) => HandleLowers(s, l);
    case Look(_) => WorkerLowers(s, l);
    case Finish(_) => WorkerLowers(s, l);
    case Die(_) => WorkerLowers(s, l);
    case _ => SubmitLowers(s, l);
  }

  // ------------------------------------------------------------ somebody can move

  /** The lock has a holder, and a stop that has been decided has a Shutdown behind it. */
  ghost predicate Backed(s: State) {
    && (s.locked ==> exists e :: e in s.submits && s.submits[e].Reaping?)
    && (s.stopped ==> s.finished || exists k :: k in s.stoppers && !s.stoppers[k].Stopping?)
  }

  predicate OfSubmitter(l: Label) {
    l.ReadStopped? || l.Lock? || l.Push? || l.NotifyOne? || l.NotifyNobody? || l.Spawn?
  }

  lemma SubmitsSame(s: State, l: Label)
    requires Enabled(s, l) && !OfSubmitter(l)
    ensures Do(s, l).submits == if l.Begin? then s.submits[s.nextId := Arriving] else s.submits
  {}

  lemma SubmitterChange(s: State, l: Label)
    requires Enabled(s, l) && OfSubmitter(l)
    ensures SameStop(s, Do(s, l)) && Lighter(s.submits, Do(s, l).submits, l.e)
  {
    hide Do, Enabled, Lighter;
    if l.NotifyOne? || l.NotifyNobody? {
      NotifyChange(s, l);
    } else if l.ReadStopped? || l.Lock? {
      ArriveChange(s, l);
    } else {
      PushChange(s, l);
    }
  }

  lemma OnlyPushEnds(s: State, l: Label, e: nat)
    requires Enabled(s, l) && OfSubmitter(l) && e in s.submits && s.submits[e].Reaping? && l != Push(e)
    ensures l.e != e
  {}

  lemma HolderStays(s: State, l: Label, e: nat)
    requires KnownOk(s.workers, s.submits, s.submitted, s.stoppers, s.nextId) && Enabled(s, l)
    requires e in s.submits && s.submits[e].Reaping? && l != Push(e)
    ensures e in Do(s, l).submits && Do(s, l).submits[e].Reaping?
  {
    hide Do, Enabled;
    if OfSubmitter(l) {
      SubmitterChange(s, l);
      OnlyPushEnds(s, l, e);
    } else {
      SubmitsSame(s, l);
    }
  }

  lemma LockTaken(s: State, l: Label)
    requires Enabled(s, l) && (l.Lock? || l.Push?)
    ensures Do(s, l).locked ==> l.Lock? && l.e in Do(s, l).submits && Do(s, l).submits[l.e].Reaping?
  {
    hide Crowded;
  }

  lemma LockKept(s: State, l: Label)
    requires Enabled(s, l) && !l.Lock? && !l.Push?
    ensures Do(s, l).locked == s.locked
  {
    hide Do, Enabled;
    if OfSubmitter(l) {
      SubmitterKeepsLock(s, l);
    } else if OfStopper(l) {
      StopperKeepsLock(s, l);
    } else {
      OthersKeep(s, l);
    }
  }

  lemma SubmitterKeepsLock(s: State, l: Label)
    requires Enabled(s, l) && OfSubmitter(l) && !l.Lock? && !l.Push?
    ensures Do(s, l).locked == s.locked
  {
    hide Crowded;
    if l.NotifyOne? || l.NotifyNobody? {
      hide Enabled;
      assert AfterNotify(s, l.e).locked == s.locked == Do(s, l).locked;
    }
  }

  lemma StopperKeepsLock(s: State, l: Label)
    requires Enabled(s, l) && OfStopper(l)
    ensures Do(s, l).locked == s.locked
  {}

  predicate OfStopper(l: Label) {
    l.Stop? || l.WakeAll? || l.TakeAll? || l.Return?
  }

  lemma StoppersSame(s: State, l: Label)
    requires Enabled(s, l) && !OfStopper(l)
    ensures Do(s, l).stoppers == if l.BeginStop? then s.stoppers[s.nextId := Stopping] else s.stoppers
  {
    hide Do, Enabled;
    if OfSubmitter(l) { SubmitterChange(s, l); } else { OthersKeep(s, l); }
  }

  lemma OthersKeep(s: State, l: Label)
    requires Enabled(s, l) && !OfStopper(l) && !OfSubmitter(l)
    ensures Do(s, l).stoppers == if l.BeginStop? then s.stoppers[s.nextId := Stopping] else s.stoppers
    ensures Do(s, l).stopped == s.stopped && Do(s, l).finished == s.finished && Do(s, l).locked == s.locked
  {
    hide Enabled;
    if l.Look? { LookKeeps(s, l.w); }
  }

  lemma LookKeeps(s: State, w: nat)
    requires Enabled(s, Look(w))
    ensures SameStop(s, DoLook(s, w)) && DoLook(s, w).locked == s.locked
  {}

  lemma StopperChange(s: State, l: Label, k: nat)
    requires Enabled(s, l) && OfStopper(l) && l != Return(k)
    requires k in s.stoppers && !s.stoppers[k].Stopping?
    ensures k in Do(s, l).stoppers && !Do(s, l).stoppers[k].Stopping?
  {}

  lemma StopperStays(s: State, l: Label, k: nat)
    requires KnownOk(s.workers, s.submits, s.submitted, s.stoppers, s.nextId) && Enabled(s, l)
    requires k in s.stoppers && !s.stoppers[k].Stopping? && l != Return(k)
    ensures k in Do(s, l).stoppers && !Do(s, l).stoppers[k].Stopping?
  {
    hide Do, Enabled;
    if OfStopper(l) { StopperChange(s, l, k); } else { StoppersSame(s, l); }
  }

  lemma StopChange(s: State, l: Label)
    requires Enabled(s, l)
    ensures Do(s, l).stopped ==> s.stopped || (l.Stop? && l.k in Do(s, l).stoppers && !Do(s, l).stoppers[l.k].Stopping?)
    ensures l.Return? ==> Do(s, l).finished
    ensures s.finished ==> Do(s, l).finished
  {
    hide Do, Enabled;
    if OfSubmitter(l) {
      SubmitterChange(s, l);
    } else if OfStopper(l) {
      StopperStops(s, l);
    } else {
      OthersKeep(s, l);
    }
  }

  lemma StopperStops(s: State, l: Label)
    requires Enabled(s, l) && OfStopper(l)
    ensures Do(s, l).stopped ==> s.stopped || (l.Stop? && l.k in Do(s, l).stoppers && !Do(s, l).stoppers[l.k].Stopping?)
    ensures l.Return? ==> Do(s, l).finished
    ensures s.finished ==> Do(s, l).finished
    ensures s.stopped ==> Do(s, l).stopped
  {}

  lemma {:induction false} RunBacked(s: State, run: seq<Label>)
    requires Inv(s) && Backed(s) && Valid(s, run)
    ensures Backed(Run(s, run))
    decreases |run|
  {
    if run != [] {
      StepBacked(s, run[0]);
      StepInv(s, run[0]);
      RunBacked(Do(s, run[0]), run[1..]);
    }
  }

  lemma StepBacked(s: State, l: Label)
    requires Inv(s) && Backed(s) && Enabled(s, l)
    ensures Backed(Do(s, l))
  {
    hide Inv, Do, Enabled;
    if l.Lock? || l.Push? { LockTaken(s, l); } else { LockKept(s, l); }
    StopChange(s, l);
    NumbersKnown(s);
    if s.locked && Do(s, l).locked {
      var e :| e in s.submits && s.submits[e].Reaping?;
      if l != Push(e) { HolderStays(s, l, e); }
    }
    if s.stopped && !Do(s, l).finished {
      var k :| k in s.stoppers && !s.stoppers[k].Stopping?;
      if l != Return(k) { StopperStays(s, l, k); }
    }
  }

  lemma NumbersKnown(s: State)
    requires Inv(s)
    ensures KnownOk(s.workers, s.submits, s.submitted, s.stoppers, s.nextId)
  {
    hide KnownOk;
  }

  /** Nothing is left to do: only sleeping or ended workers. */
  predicate Quiet(s: State) {
    && s.tasks == [] && s.submits == map[] && s.stoppers == map[]
    && forall w | w in s.workers :: s.workers[w].Blocked? || s.workers[w].Dead?
  }

  /** Joining under the lock is no deadlock: what is in `reap_` needs the lock no more. */
  lemma ReaperMoves(s: State, e: nat) returns (l: Label)
    requires HandlesOk(s.workers, s.registered, s.reap, s.taken, s.joined) && e in s.submits && s.submits[e].Reaping?
    ensures Helps(l) && Enabled(s, l)
  {
    if s.reap == {} {
      l := Push(e);
    } else {
      var w :| w in s.reap;
      assert One(w in s.registered) + One(w in s.reap) + One(w in s.taken) + s.joined[w] == One(w in s.workers);
      l := if s.workers[w].Dead? then ReapOne(e, w) else Die(w);
    }
  }

  lemma WorkerMoves(s: State, w: nat) returns (l: Label)
    requires CountOk(s.cfg, s.count, s.workers, s.stopped, s.tasks) && !s.locked
    requires w in s.workers && !s.workers[w].Blocked? && !s.workers[w].Dead?
    ensures Helps(l) && Enabled(s, l)
  {
    assert IsLive(s.workers, w) ==> w in Live(s.workers);
    l := match s.workers[w] case Busy(_) => Finish(w) case Exiting => Die(w) case _ => Look(w);
  }

  lemma SubmitterMoves(s: State, e: nat) returns (l: Label)
    requires !s.locked && e in s.submits && !s.submits[e].Reaping?
    ensures Helps(l) && Enabled(s, l)
  {
    match s.submits[e]
    case Arriving => l := ReadStopped(e);
    case Locking => l := Lock(e);
    case Spawning => l := Spawn(e);
    case Notifying(_) =>
      if w :| w in s.workers && s.workers[w].Blocked? {
        l := NotifyOne(e, w);
      } else {
        l := NotifyNobody(e);
      }
  }

  lemma StopperMoves(s: State, k: nat) returns (l: Label)
    requires Core(s) && !s.locked && k in s.stoppers
    ensures Helps(l) && Enabled(s, l)
  {
    match s.stoppers[k]
    case Stopping => l := Stop(k);
    case Waking => l := WakeAll(k);
    case Taking => l := TakeAll(k);
    case Joining =>
      if s.taken == {} {
        l := Return(k);
      } else {
        var w :| w in s.taken;
        assert One(w in s.registered) + One(w in s.reap) + One(w in s.taken) + s.joined[w] == One(w in s.workers);
        NobodySleeps(s, k, w);
        if s.workers[w].Dead? { l := JoinOne(k, w); } else { l := WorkerMoves(s, w); }
      }
  }

  /** By the time threads are joined, the notify_all is over. */
  lemma NobodySleeps(s: State, k: nat, w: nat)
    requires ShutOk(s.stoppers, s.stopped, s.collected, s.finished) && AlarmOk(s.workers, s.stopped, s.stoppers)
    requires k in s.stoppers && s.stoppers[k].Joining? && w in s.workers
    ensures !s.workers[w].Blocked?
  {
    assert s.workers[w].Blocked? <==> w in Sleepers(s.workers);
  }

  lemma SomebodyMoves(s: State) returns (l: Label)
    requires Inv(s) && Backed(s) && !Quiet(s)
    ensures Helps(l) && Enabled(s, l)
  {
    hide Enabled, CountOk, HandlesOk, KnownOk, ShutOk, EmptiedOk, AlarmOk, Notified, Placed;
    if e :| e in s.submits && s.submits[e].Reaping? {
      l := ReaperMoves(s, e);
    } else if e :| e in s.submits {
      l := SubmitterMoves(s, e);
    } else if k :| k in s.stoppers {
      l := StopperMoves(s, k);
    } else if w :| w in s.workers && !s.workers[w].Blocked? && !s.workers[w].Dead? {
      l := WorkerMoves(s, w);
    } else {
      QueueAttended(s);
    }
  }

  /** A queued task has somebody awake ahead of it. */
  lemma QueueAttended(s: State)
    requires CountOk(s.cfg, s.count, s.workers, s.stopped, s.tasks) && Notified(s.workers, s.tasks, s.submits)
    requires s.submits == map[] && forall w | w in s.workers :: s.workers[w].Blocked? || s.workers[w].Dead?
    ensures s.tasks == []
  {
    assert Notifiers(s.submits) == {} && Risen(s.workers) == {};
    assert Live(s.workers) == Sleepers(s.workers);
  }

  // ----------------------------------------------------------------- progress

  /** A Shutdown has begun. */
  predicate Stopped(s: State) {
    s.stopped || s.stoppers != map[]
  }

  lemma HelpKeeps(s: State, l: Label)
    requires ShutOk(s.stoppers, s.stopped, s.collected, s.finished) && Enabled(s, l) && Helps(l)
    ensures Do(s, l).submitted == s.submitted && (Stopped(s) ==> Stopped(Do(s, l)))
  {
    hide Do, Enabled, ShutOk;
    SubmittedKept(s, l);
    if OfSubmitter(l) {
      SubmitterChange(s, l);
    } else if OfStopper(l) {
      StillStopped(s, l);
    } else {
      OthersKeep(s, l);
    }
  }

  lemma SubmittedKept(s: State, l: Label)
    requires Enabled(s, l) && !l.Begin?
    ensures Do(s, l).submitted == s.submitted
  {
    hide Do, Enabled;
    if OfSubmitter(l) {
      SubmitterChange(s, l);
    } else if OfStopper(l) {
      StopperKeepsSubmitted(s, l);
    } else {
      OthersKeepSubmitted(s, l);
    }
  }

  lemma StopperKeepsSubmitted(s: State, l: Label)
    requires Enabled(s, l) && OfStopper(l)
    ensures Do(s, l).submitted == s.submitted
  {}

  lemma OthersKeepSubmitted(s: State, l: Label)
    requires Enabled(s, l) && !OfSubmitter(l) && !OfStopper(l) && !l.Begin?
    ensures Do(s, l).submitted == s.submitted
  {
    if l.Look? { LookKeepsSubmitted(s, l.w); }
  }

  lemma LookKeepsSubmitted(s: State, w: nat)
    requires Enabled(s, Look(w))
    ensures DoLook(s, w).submitted == s.submitted
  {}

  lemma StillStopped(s: State, l: Label)
    requires ShutOk(s.stoppers, s.stopped, s.collected, s.finished) && Enabled(s, l) && OfStopper(l)
    ensures Stopped(Do(s, l))
  {}

  lemma ShutFacts(s: State)
    requires Inv(s)
    ensures ShutOk(s.stoppers, s.stopped, s.collected, s.finished)
  {
    hide ShutOk;
  }

  lemma {:induction false} RunsToQuiet(s: State) returns (run: seq<Label>)
    requires Inv(s) && Backed(s)
    ensures Valid(s, run) && AllHelp(run)
    ensures var e := Run(s, run); Quiet(e) && e.submitted == s.submitted && (Stopped(s) ==> Stopped(e))
    decreases Stops(s), Submits(s), Work(s), Handles(s)
  {
    hide Inv, Backed, Quiet, Enabled, Do, Stops, Submits, Work, Handles, Stopped;
    run := [];
    if !Quiet(s) {
      var l := SomebodyMoves(s);
      HelpLowers(s, l);
      ShutFacts(s);
      HelpKeeps(s, l);
      StepInv(s, l);
      StepBacked(s, l);
      var rest := RunsToQuiet(Do(s, l));
      run := [l] + rest;
      assert run[1..] == rest;
    }
  }

  lemma {:induction false} ReachableRun(s: State, run: seq<Label>)
    requires Reachable(s) && Valid(s, run)
    ensures Reachable(Run(s, run))
    decreases |run|
  {
    hide Reachable;
    if run != [] {
      ReachableStep(s, run[0]);
      ReachableRun(Do(s, run[0]), run[1..]);
    }
  }

  lemma ReachableBacked(s: State)
    requires Reachable(s)
    ensures Backed(s)
  {
    var c, run :| ReachedBy(s, c, run);
    InitInv(c);
    RunBacked(Init(c), run);
  }

  /** From every reachable state the workers, submitters and stoppers there finish by
      themselves: all calls return, every task submitted has run exactly once; and if a
      Shutdown had begun, it ends with every thread over and joined exactly once. */
  lemma FinishesByItself(s: State) returns (run: seq<Label>)
    requires Reachable(s)
    ensures Valid(s, run) && AllHelp(run)
    ensures var e := Run(s, run);
      && e.submits == map[] && e.stoppers == map[] && e.tasks == [] && e.submitted == s.submitted
      && (forall t: nat :: multiset(e.ran)[t] == One(t in s.submitted))
      && (Stopped(s) ==> e.finished && e.count == 0 && forall w: nat :: e.joined[w] == One(w in e.workers))
  {
    hide Inv, Backed, Reachable;
    ReachableInv(s);
    ReachableBacked(s);
    run := RunsToQuiet(s);
    var e := Run(s, run);
    ReachableRun(s, run);
    ReachableInv(e);
    ReachableBacked(e);
    forall t: nat
      ensures multiset(e.ran)[t] == One(t in s.submitted)
    {
      QuietRan(e, t);
    }
    if Stopped(s) {
      QuietFinished(e);
      ShutdownDrains(e);
    }
  }

  lemma QuietRan(s: State, t: nat)
    requires Inv(s) && Quiet(s)
    ensures multiset(s.ran)[t] == One(t in s.submitted)
  {
    assert Placed(s, t);
    assert BusyWith(s.workers, t) == {};
  }

  lemma QuietFinished(s: State)
    requires Backed(s) && Quiet(s) && Stopped(s)
    ensures s.finished
  {}
}
