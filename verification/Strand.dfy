/** `Strand` as the code writes it: a queue, a flag, and the drain loop. While a task
    runs, other threads may enqueue more; a ghost copy of the interleaved machine moves
    along, one label per critical section. */
module Strand {
  import opened Wrappers
  import M = StrandMachine

  class Strand<T(!new)> {
    var tasks: seq<T>
    var running: bool
    var executed: seq<T>          // the tasks run so far
    ghost var st: M.State<T>

    ghost predicate Mirrors()
      reads this
    {
      M.Reachable(st) && st.tasks == tasks && st.running == running && st.executed == executed
    }

    /** At rest, or with its one drain token queued in the pool. */
    ghost predicate Valid()
      reads this
    {
      Mirrors() && st.posting == {} && st.drains == map[] && st.posted == if running then 1 else 0
    }

    constructor ()
      ensures Valid() && tasks == [] && executed == [] && st == M.Init()
    {
      tasks, running, executed := [], false, [];
      st := M.Init();
      new;
      assert M.Valid(M.Init<T>(), []) && M.Run(M.Init<T>(), []) == st;
    }

    ghost method Step(l: M.Label<T>)
      requires M.Reachable(st) && M.Enabled(st, l)
      modifies `st
      ensures M.Reachable(st) && st == M.Do(old(st), l)
    {
      M.ReachableStep(st, l);
      st := M.Do(st, l);
    }

    /** `true` when this call posts the drain to the pool. */
    method Enqueue(t: T) returns (start: bool)
      requires Mirrors() && st.posting == {}
      modifies this
      ensures Mirrors() && st.posting == {} && st.drains == old(st.drains)
      ensures tasks == old(tasks) + [t] && running && executed == old(executed)
      ensures start == !old(running) && st.posted == old(st.posted) + if start then 1 else 0
      ensures st.entered == old(st.entered) + [t]
    {
      ghost var e := st.nextId;
      start := false;
      tasks := tasks + [t];
      if !running {
        running := true;
        start := true;
      }
      Step(M.Enqueue(t));
      if start {
        Step(M.Post(e));
      }
    }

    /** One `Drain_`: it ends with nothing left, whatever came in meanwhile; `arrivals[i]`
        comes in while the i-th task runs. */
    method Drain(arrivals: seq<seq<T>>)
      requires Valid() && running
      modifies this
      ensures Valid() && !running && tasks == []
      ensures executed == st.entered && old(executed + tasks) <= executed
    {
      ghost var d := st.nextId;
      Step(M.Start);
      M.BetweenTasks(st);
      var i := 0;
      while true
        invariant i <= |arrivals| && Mirrors() && running && st.posting == {} && st.posted == 0
        invariant st.drains == map[d := None]
        invariant old(executed + tasks) <= executed + tasks == st.entered
        decreases |arrivals| - i, |tasks|
      {
        if tasks == [] {
          running := false;
          Step(M.Fetch(d));
          return;
        }
        RunOne(d, if i < |arrivals| then arrivals[i] else []);
        i := if i < |arrivals| then i + 1 else i;
      }
    }

    /** The oldest task runs, while `ts` come in. */
    method RunOne(ghost d: nat, ts: seq<T>)
      requires Mirrors() && running && tasks != [] && st.posting == {} && st.posted == 0 && st.drains == map[d := None]
      modifies this
      ensures Mirrors() && running && st.posting == {} && st.posted == 0 && st.drains == map[d := None]
      ensures executed == old(executed) + [old(tasks)[0]] && tasks == old(tasks)[1..] + ts
      ensures st.entered == old(st.entered) + ts
    {
      var task := tasks[0];
      tasks := tasks[1..];
      Step(M.Fetch(d));
      Arrive(ts);
      executed := executed + [task];
      Step(M.Finish(d));
    }

    /** Other threads enqueue while a task runs: none of them posts a second drain. */
    method Arrive(ts: seq<T>)
      requires Mirrors() && running && st.posting == {}
      modifies this
      ensures Mirrors() && running && st.posting == {} && st.posted == old(st.posted) && st.drains == old(st.drains)
      ensures tasks == old(tasks) + ts && executed == old(executed) && st.entered == old(st.entered) + ts
    {
      for i := 0 to |ts|
        invariant Mirrors() && running && st.posting == {} && st.posted == old(st.posted) && st.drains == old(st.drains)
        invariant tasks == old(tasks) + ts[..i] && executed == old(executed) && st.entered == old(st.entered) + ts[..i]
      {
        var posted := Enqueue(ts[i]);
        assert ts[..i + 1] == ts[..i] + [ts[i]];
      }
      assert ts[..|ts|] == ts;
    }
  }
}
