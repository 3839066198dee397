/** The serial executor over the pool: any number of enqueuers, and any number of pool
    threads that may pick up a posted `Drain_`. */
module StrandMachine {
  import opened Wrappers

  datatype State<!T> = State(
    tasks: seq<T>,
    running: bool,
    posting: set<nat>,               // enqueuers that set running_ and have yet to post Drain_
    posted: nat,                     // Drain_ tokens queued in the pool
    drains: map<nat, Option<T>>,     // Drain_ calls in progress, with the task each one runs
    nextId: nat,
    entered: seq<T>,                 // tasks in the order of their Enqueue_ critical sections
    executed: seq<T>)

  datatype Label<T> = Enqueue(t: T) | Post(e: nat) | Start | Fetch(d: nat) | Finish(d: nat)

  function Init<T>(): State<T> {
    State([], false, {}, 0, map[], 0, [], [])
  }

  predicate Enabled<T>(s: State<T>, l: Label<T>) {
    match l
    case Enqueue(_) => true
    case Post(e) => e in s.posting
    case Start => s.posted > 0
    case Fetch(d) => d in s.drains && s.drains[d].None?
    case Finish(d) => d in s.drains && s.drains[d].Some?
  }

  function Do<T>(s: State<T>, l: Label<T>): State<T>
    requires Enabled(s, l)
  {
    match l
    case Enqueue(t) =>
      s.(tasks := s.tasks + [t], entered := s.entered + [t], running := true, nextId := s.nextId + 1,
         posting := if s.running then s.posting else s.posting + {s.nextId})
    case Post(e) => s.(posting := s.posting - {e}, posted := s.posted + 1)
    case Start => s.(posted := s.posted - 1, drains := s.drains[s.nextId := None], nextId := s.nextId + 1)
    case Fetch(d) =>
      if s.tasks == [] then s.(running := false, drains := s.drains - {d})
      else s.(tasks := s.tasks[1..], drains := s.drains[d := Some(s.tasks[0])])
    case Finish(d) => s.(executed := s.executed + [s.drains[d].value], drains := s.drains[d := None])
  }

  predicate Valid<T>(s: State<T>, run: seq<Label<T>>)
    decreases |run|
  {
    run == [] || (Enabled(s, run[0]) && Valid(Do(s, run[0]), run[1..]))
  }

  function Run<T>(s: State<T>, run: seq<Label<T>>): State<T>
    requires Valid(s, run)
    decreases |run|
  {
    if run == [] then s else Run(Do(s, run[0]), run[1..])
  }

  /** Tokens: `Drain_` calls about to be posted, queued in the pool, or in progress. */
  function Tokens<T>(s: State<T>): nat {
    |s.posting| + s.posted + |s.drains|
  }

  /** The tasks being executed. */
  ghost predicate Executing<T>(s: State<T>, current: seq<T>) {
    if forall d | d in s.drains :: s.drains[d].None? then current == []
    else |current| == 1 && forall d | d in s.drains :: s.drains[d] == Some(current[0])
  }

  ghost predicate Inv<T(!new)>(s: State<T>) {
    && Tokens(s) == (if s.running then 1 else 0)
    && (!s.running ==> s.tasks == [])
    && (forall d | d in s.drains || d in s.posting :: d < s.nextId)
    && (exists current :: Executing(s, current) && s.entered == s.executed + current + s.tasks)
  }

  lemma Sizes<T>(s: State<T>, d: nat)
    ensures d in s.drains ==> |s.drains| >= 1 && |s.drains - {d}| == |s.drains| - 1
    ensures d !in s.drains ==> |s.drains[d := None]| == |s.drains| + 1
  {
    if d in s.drains {
      assert (s.drains - {d}).Keys == s.drains.Keys - {d};
      assert |s.drains| == |s.drains.Keys|;
    }
  }

  /** With one token, a drain in progress is the only one. */
  lemma OnlyDrain<T>(s: State<T>, d: nat)
    requires Tokens(s) <= 1 && d in s.drains
    ensures s.drains == map[d := s.drains[d]] && s.posting == {} && s.posted == 0
  {
    Sizes(s, d);
    assert s.drains - {d} == map[];
  }

  lemma FetchInv<T(!new)>(s: State<T>, d: nat)
    requires Inv(s) && Enabled(s, Fetch(d))
    ensures Inv(Do(s, Fetch(d)))
  {
    var s' := Do(s, Fetch(d));
    OnlyDrain(s, d);
    if s.tasks == [] {
      assert s'.drains == map[];
      assert Executing(s', []) && s'.entered == s'.executed + [] + s'.tasks;
    } else {
      assert s.tasks == [s.tasks[0]] + s.tasks[1..];
      assert Executing(s', [s.tasks[0]]) && s'.entered == s'.executed + [s.tasks[0]] + s'.tasks;
    }
  }

  lemma FinishInv<T(!new)>(s: State<T>, d: nat)
    requires Inv(s) && Enabled(s, Finish(d))
    ensures Inv(Do(s, Finish(d)))
  {
    var s' := Do(s, Finish(d));
    OnlyDrain(s, d);
    var current :| Executing(s, current) && s.entered == s.executed + current + s.tasks;
    assert current == [s.drains[d].value];
    assert Executing(s', []) && s'.entered == s'.executed + [] + s'.tasks;
  }

  lemma StepInv<T(!new)>(s: State<T>, l: Label<T>)
    requires Inv(s) && Enabled(s, l)
    ensures Inv(Do(s, l))
  {
    var s' := Do(s, l);
    match l
    case Fetch(d) => FetchInv(s, d);
    case Finish(d) => FinishInv(s, d);
    case Start =>
      Sizes(s, s.nextId);
      assert s.drains == map[];
      assert Executing(s', []) && s'.entered == s'.executed + [] + s'.tasks;
    case _ =>
      var current :| Executing(s, current) && s.entered == s.executed + current + s.tasks;
      assert Executing(s', current) && s'.entered == s'.executed + current + s'.tasks;
  }

  ghost predicate Reachable<T(!new)>(s: State<T>) {
    exists run :: Valid(Init(), run) && Run(Init(), run) == s
  }

  lemma {:induction false} RunInv<T(!new)>(s: State<T>, run: seq<Label<T>>)
    requires Inv(s) && Valid(s, run)
    ensures Inv(Run(s, run))
    decreases |run|
  {
    if run != [] {
      StepInv(s, run[0]);
      RunInv(Do(s, run[0]), run[1..]);
    }
  }

  lemma {:induction false} RunStep<T>(s: State<T>, run: seq<Label<T>>, l: Label<T>)
    requires Valid(s, run) && Enabled(Run(s, run), l)
    ensures Valid(s, run + [l]) && Run(s, run + [l]) == Do(Run(s, run), l)
    decreases |run|
  {
    if run == [] {
      assert [l][1..] == [];
    } else {
      assert (run + [l])[1..] == run[1..] + [l];
      RunStep(Do(s, run[0]), run[1..], l);
    }
  }

  lemma ReachableStep<T(!new)>(s: State<T>, l: Label<T>)
    requires Reachable(s) && Enabled(s, l)
    ensures Reachable(Do(s, l))
  {
    var run :| Valid(Init(), run) && Run(Init(), run) == s;
    RunStep(Init(), run, l);
  }

  lemma ReachableInv<T(!new)>(s: State<T>)
    requires Reachable(s)
    ensures Inv(s)
  {
    var run :| Valid(Init(), run) && Run(Init(), run) == s;
    var s0 := Init<T>();
    assert Executing(s0, []) && s0.entered == s0.executed + [] + s0.tasks;
    RunInv(s0, run);
  }

  lemma BetweenTasks<T(!new)>(s: State<T>)
    requires Reachable(s) && forall d | d in s.drains :: s.drains[d].None?
    ensures s.entered == s.executed + s.tasks
  {
    ReachableInv(s);
    var current :| Executing(s, current) && s.entered == s.executed + current + s.tasks;
    assert s.executed + [] == s.executed;
  }

  /** Serial and first in first out, for any number of enqueuers: one token while
      `running_` holds and none otherwise, at most one task executing, and executed
      tasks, then the current one, then the queue are the tasks in enqueue order. */
  lemma SerialInOrder<T(!new)>(s: State<T>)
    requires Reachable(s)
    ensures Tokens(s) == (if s.running then 1 else 0)
    ensures !s.running ==> s.tasks == []
    ensures exists current :: Executing(s, current) && |current| <= 1 && s.entered == s.executed + current + s.tasks
    ensures forall c, d | c in s.drains && d in s.drains :: c == d
  {
    ReachableInv(s);
    var current :| Executing(s, current) && s.entered == s.executed + current + s.tasks;
    forall c, d | c in s.drains && d in s.drains
      ensures c == d
    {
      OnlyDrain(s, c);
    }
  }

  // ---------------------------------------------------------------- progress

  /** The next step of the live token. */
  ghost function Advance<T>(s: State<T>): Label<T>
    requires Tokens(s) > 0
  {
    if s.posting != {} then (var e :| e in s.posting; Post(e))
    else if s.posted > 0 then Start
    else
      assert s.drains.Keys != {};
      var d :| d in s.drains; if s.drains[d].None? then Fetch(d) else Finish(d)
  }

  function Rank<T>(s: State<T>): nat {
    if s.posting != {} then 3 else if s.posted > 0 then 2
    else if exists d :: d in s.drains && s.drains[d].Some? then 1 else 0
  }

  /** While tasks wait, the token can move, and doing so executes all of them in order. */
  lemma {:induction false} TokenFinishesAll<T(!new)>(s: State<T>) returns (run: seq<Label<T>>)
    requires Inv(s)
    ensures Valid(s, run) && (forall i | 0 <= i < |run| :: !run[i].Enqueue?)
    ensures var e := Run(s, run); !e.running && e.tasks == [] && e.executed == s.entered == e.entered
    decreases Tokens(s), |s.tasks|, Rank(s)
  {
    if !s.running {
      run := [];
      var current :| Executing(s, current) && s.entered == s.executed + current + s.tasks;
      assert |s.drains.Keys| == 0;
      assert s.drains.Keys == {};
      assert current == [];
    } else {
      var l := Advance(s);
      AdvanceLowers(s, l);
      StepInv(s, l);
      var rest := TokenFinishesAll(Do(s, l));
      run := [l] + rest;
      assert run[1..] == rest;
    }
  }

  lemma AdvanceLowers<T(!new)>(s: State<T>, l: Label<T>)
    requires Inv(s) && s.running && l == Advance(s)
    ensures Enabled(s, l) && !l.Enqueue? && Do(s, l).entered == s.entered
    ensures var s' := Do(s, l);
      || Tokens(s') < Tokens(s)
      || (Tokens(s') == Tokens(s) && |s'.tasks| < |s.tasks|)
      || (Tokens(s') == Tokens(s) && |s'.tasks| == |s.tasks| && Rank(s') < Rank(s))
  {
    if s.posting == {} && s.posted == 0 {
      assert s.drains.Keys != {};
      var d := l.d;
      OnlyDrain(s, d);
      Sizes(s, d);
    } else if s.posting != {} {
      assert |s.posting - {l.e}| == |s.posting| - 1 == 0;
    } else {
      assert |s.drains.Keys| == 0;
      assert s.drains.Keys == {};
    }
  }

  // ------------------------------------------------------------- refinement

  /** What the users of a strand see: a queue, and the one task being executed. */
  datatype Serial<T> = Serial(queue: seq<T>, current: Option<T>)

  ghost predicate Shows<T>(s: State<T>, v: Serial<T>) {
    v.queue == s.tasks && Executing(s, if v.current.None? then [] else [v.current.value])
  }

  /** Each step is, to its users, an enqueue at the end, the start of the oldest task
      while none is executing, the end of the current one, or nothing. */
  lemma RefinesSerial<T(!new)>(s: State<T>, l: Label<T>, v: Serial<T>) returns (v': Serial<T>)
    requires Reachable(s) && Enabled(s, l) && Shows(s, v)
    ensures Shows(Do(s, l), v')
    ensures v' == match l
      case Enqueue(t) => v.(queue := v.queue + [t])
      case Fetch(d) => if v.queue == [] then v else Serial(v.queue[1..], Some(v.queue[0]))
      case Finish(d) => v.(current := None)
      case _ => v
    ensures l.Fetch? ==> v.current.None?
    ensures l.Finish? ==> v.current == s.drains[l.d]
  {
    ReachableInv(s);
    match l
    case Enqueue(t) => v' := v.(queue := v.queue + [t]);
    case Fetch(d) =>
      OnlyDrain(s, d);
      v' := if v.queue == [] then v else Serial(v.queue[1..], Some(v.queue[0]));
    case Finish(d) => OnlyDrain(s, d); v' := v.(current := None);
    case Post(e) => v' := v;
    case Start => assert |s.drains| == 0; assert s.drains == map[]; v' := v;
  }
}
