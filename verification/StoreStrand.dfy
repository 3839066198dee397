/** The store machine takes its strand as a queue of drain tasks and the one that runs.
    That is the view the strand machine is proved to give its users. */
module StoreStrand {
  import opened StoreMachine
  import opened Wrappers
  import T = StrandMachine

  /** The buffer whose drain runs, as long as the task still knows it. */
  function Draining(d: Drain): Option<nat> {
    if d.Sealing? || d.Walking? || d.Returning? then Some(d.b) else None
  }

  predicate Shows(s: State, v: T.Serial<nat>) {
    && v.queue == s.strand
    && (v.current.None? <==> s.drain.Idle?)
    && (Draining(s.drain).Some? ==> v.current == Draining(s.drain))
  }

  /** What a step of the store does to its strand: an enqueue, the start of the oldest task,
      the end of the current one, or nothing. */
  function Moved(s: State, l: Label, v: T.Serial<nat>): T.Serial<nat>
    requires Enabled(s, l)
  {
    if l.Post? then v.(queue := v.queue + [s.section.prior])
    else if l.StartDrain? && v.queue != [] then T.Serial(v.queue[1..], Some(v.queue[0]))
    else if Do(s, l).drain.Idle? then v.(current := None)
    else v
  }

  lemma StepIsSerial(s: State, l: Label, v: T.Serial<nat>)
    requires Enabled(s, l) && Shows(s, v)
    ensures Shows(Do(s, l), Moved(s, l, v))
    ensures l.StartDrain? ==> v.current.None? && v.queue != []
  {}

  /** A strand in state `t` can make the same move: enqueue and post, fetch, or finish. */
  lemma StrandFollows(s: State, l: Label, v: T.Serial<nat>, t: T.State<nat>) returns (run: seq<T.Label<nat>>)
    requires Enabled(s, l) && Shows(s, v) && T.Reachable(t) && T.Shows(t, v)
    ensures T.Valid(t, run) && T.Shows(T.Run(t, run), Moved(s, l, v))
  {
    run := [];
    StepIsSerial(s, l, v);
    if l.Post? {
      var v' := T.RefinesSerial(t, T.Enqueue(s.section.prior), v);
      run := [T.Enqueue(s.section.prior)];
      assert run[1..] == [];
    } else if l.StartDrain? {
      run := FetchNext(t, v);
    } else if Do(s, l).drain.Idle? && v.current.Some? {
      run := FinishCurrent(t, v);
    }
  }

  /** The live token brings the oldest task to execution. */
  lemma FetchNext(t: T.State<nat>, v: T.Serial<nat>) returns (run: seq<T.Label<nat>>)
    requires T.Reachable(t) && T.Shows(t, v) && v.queue != [] && v.current.None?
    ensures T.Valid(t, run) && T.Shows(T.Run(t, run), T.Serial(v.queue[1..], Some(v.queue[0])))
    decreases T.Rank(t)
  {
    T.ReachableInv(t);
    var l := T.Advance(t);
    T.AdvanceLowers(t, l);
    var v' := T.RefinesSerial(t, l, v);
    T.ReachableStep(t, l);
    var rest := [];
    if !l.Fetch? { rest := FetchNext(T.Do(t, l), v); }
    run := [l] + rest;
    assert run[1..] == rest;
  }

  lemma FinishCurrent(t: T.State<nat>, v: T.Serial<nat>) returns (run: seq<T.Label<nat>>)
    requires T.Reachable(t) && T.Shows(t, v) && v.current.Some?
    ensures T.Valid(t, run) && T.Shows(T.Run(t, run), v.(current := None))
  {
    assert exists d :: d in t.drains && t.drains[d].Some?;
    var d :| d in t.drains && t.drains[d].Some?;
    var v' := T.RefinesSerial(t, T.Finish(d), v);
    run := [T.Finish(d)];
    assert run[1..] == [];
  }
}
