/** `ThreadPool` as the code writes it: fields under one lock. Each call, and each turn of
    a worker, runs alone and moves a ghost copy of the interleaved machine along. */
module ThreadPool {
  import opened Counting
  import M = PoolMachine

  /** Between calls: no task is half run, no thread half gone. */
  ghost predicate Settled(ws: map<nat, M.Worker>) {
    forall w | w in ws :: ws[w].Top? || ws[w].Blocked? || ws[w] == M.Woken(false) || ws[w].Dead?
  }

  lemma HandleFacts(ws: map<nat, M.Worker>, registered: set<nat>, reap: set<nat>, taken: set<nat>, joined: multiset<nat>)
    requires M.HandlesOk(ws, registered, reap, taken, joined)
    ensures forall w | w in registered :: M.IsLive(ws, w)
    ensures forall w | w in reap :: w in ws && !M.IsLive(ws, w)
    ensures forall w | w in taken :: w in ws
    ensures forall w | M.IsLive(ws, w) :: w in registered || w in taken
  {
    forall w: nat
      ensures w in registered || w in reap || w in taken || w in joined <==> w in ws
    {
      assert One(w in registered) + One(w in reap) + One(w in taken) + joined[w] == One(w in ws);
    }
  }

  lemma CountFacts(s: M.State)
    requires M.CountOk(s.cfg, s.count, s.workers, s.stopped, s.tasks)
    ensures (exists w :: M.IsLive(s.workers, w)) ==> s.count > 0
    ensures s.count <= s.cfg.maxThreads && (!s.stopped ==> s.cfg.minThreads <= s.count)
  {
    if w :| M.IsLive(s.workers, w) { assert w in M.Live(s.workers); }
  }

  lemma LiveCounted(s: M.State, w: nat)
    requires M.Reachable(s) && M.IsLive(s.workers, w)
    ensures s.count > 0
  {
    Facts(s);
    CountFacts(s);
  }

  lemma LiveSettled(ws: map<nat, M.Worker>, w: nat)
    requires Settled(ws) && M.IsLive(ws, w)
    ensures w in ws && (ws[w].Top? || ws[w].Blocked? || ws[w] == M.Woken(false))
  {}

  /** What the class needs of the invariant of the machine. */
  lemma Facts(s: M.State)
    requires M.Reachable(s)
    ensures M.HandlesOk(s.workers, s.registered, s.reap, s.taken, s.joined)
    ensures M.CountOk(s.cfg, s.count, s.workers, s.stopped, s.tasks)
    ensures forall w | w in s.workers :: w < s.nextId
  {
    hide M.HandlesOk, M.CountOk, M.LockOk, M.ShutOk, M.EmptiedOk, M.AlarmOk, M.Notified, M.Placed, M.Reachable;
    M.ReachableInv(s);
  }

  lemma ReapedAreDead(s: M.State)
    requires M.Reachable(s) && Settled(s.workers)
    ensures forall w | w in s.reap :: w in s.workers && s.workers[w].Dead?
  {
    hide M.Reachable;
    Facts(s);
    HandleFacts(s.workers, s.registered, s.reap, s.taken, s.joined);
  }

  lemma WakeSettled(ws: map<nat, M.Worker>, live: set<nat>, over: set<nat>)
    requires Settled(ws) && (forall w | w in live :: M.IsLive(ws, w)) && forall w | w in over :: w in ws && ws[w].Dead?
    ensures var ws' := M.WakeBlocked(ws);
      Settled(ws') && (forall w | w in live :: M.IsLive(ws', w)) && forall w | w in over :: w in ws' && ws'[w].Dead?
  {}

  /** A worker that is given a turn settles again, whichever way the turn ends. */
  lemma PutSettled(ws: map<nat, M.Worker>, p: M.Worker, turn: map<nat, M.Worker>, w: nat)
    requires Settled(ws) && turn == ws[w := p]
    ensures turn[w := M.Top] == ws[w := M.Top] && Settled(turn[w := M.Top])
    ensures turn[w := M.Blocked] == ws[w := M.Blocked] && Settled(turn[w := M.Blocked])
    ensures turn[w := M.Dead] == ws[w := M.Dead] && Settled(turn[w := M.Dead])
  {}

  lemma ThreadsOf(s: M.State)
    requires M.Reachable(s) && Settled(s.workers) && !s.stopped
    ensures forall w | w in s.registered :: M.IsLive(s.workers, w)
    ensures forall w | w in s.reap :: w !in s.registered && w in s.workers && s.workers[w].Dead?
    ensures s.taken == {}
  {
    Facts(s);
    HandleFacts(s.workers, s.registered, s.reap, s.taken, s.joined);
    M.ReachableInv(s);
  }

  class ThreadPool {
    const cfg: M.Config
    var tasks: seq<nat>
    var workers: set<nat>
    var reap: set<nat>
    var workerCount: nat
    var stopped: bool
    var nextId: nat
    var ran: seq<nat>             // the tasks run so far
    ghost var st: M.State

    ghost predicate Mirrors()
      reads this
    {
      && M.Reachable(st) && st.cfg == cfg && st.tasks == tasks && st.registered == workers && st.reap == reap
      && st.count == workerCount && st.stopped == stopped && st.nextId == nextId && st.ran == ran
    }

    ghost predicate Valid()
      reads this
    {
      Mirrors() && !st.locked && st.submits == map[] && st.stoppers == map[] && Settled(st.workers)
    }

    constructor (c: M.Config)
      ensures Valid() && cfg == M.Normalise(c) && st == M.Init(c)
    {
      var n := M.Normalise(c).minThreads;
      cfg := M.Normalise(c);
      tasks, workers, reap, workerCount, stopped, nextId, ran := [], M.Ids(n), {}, n, false, n, [];
      st := M.Init(c);
      new;
      assert M.ReachedBy(st, c, []);
    }

    ghost method Step(l: M.Label)
      requires M.Reachable(st) && M.Enabled(st, l)
      modifies `st
      ensures M.Reachable(st) && st == M.Do(old(st), l)
    {
      M.ReachableStep(st, l);
      st := M.Do(st, l);
    }

    /** Join and forget the threads that have signed off. */
    method ReapLocked(ghost e: nat)
      requires Mirrors() && Settled(st.workers) && e in st.submits && st.submits[e].Reaping?
      modifies this`reap, `st
      ensures Mirrors() && reap == {}
      ensures st == old(st).(reap := {}, joined := st.joined)
    {
      hide M.Reachable, M.IsLive, M.HandlesOk, M.CountOk;
      ReapedAreDead(st);
      while reap != {}
        invariant Mirrors() && reap <= old(reap) && e in st.submits && st.submits[e].Reaping?
        invariant forall w | w in reap :: w in st.workers && st.workers[w].Dead?
        invariant st == old(st).(reap := reap, joined := st.joined)
        decreases reap
      {
        var w :| w in reap;
        reap := reap - {w};
        Step(M.ReapOne(e, w));
      }
    }

    /** The wake-up of one sleeper, if there is one. */
    ghost method Notify(e: nat)
      requires M.Reachable(st) && e in st.submits && st.submits[e].Notifying? && Settled(st.workers)
      modifies `st
      ensures M.Reachable(st) && Settled(st.workers)
      ensures st == M.AfterNotify(old(st), e).(workers := st.workers) && st.workers.Keys == old(st.workers).Keys
    {
      hide M.Reachable, M.Crowded;
      if w :| w in st.workers && st.workers[w].Blocked? {
        Step(M.NotifyOne(e, w));
      } else {
        Step(M.NotifyNobody(e));
      }
    }

    /** More tasks are queued than the workers should have to themselves. */
    predicate Crowded()
      reads this
    {
      workerCount < cfg.maxThreads && |tasks| > workerCount * cfg.scale
    }

    /** The first critical section of `Enqueue_`. */
    method Push(task: nat) returns (needSpawn: bool)
      requires Mirrors() && Settled(st.workers) && !stopped && !st.locked && st.submits == map[task := M.Locking]
      modifies this`reap, this`tasks, `st
      ensures Mirrors() && Settled(st.workers) && tasks == old(tasks) + [task] && reap == {} && needSpawn == Crowded()
      ensures st == old(st).(reap := {}, joined := st.joined, tasks := tasks, submits := map[task := M.Notifying(needSpawn)])
    {
      hide M.Reachable, Settled;
      Step(M.Lock(task));
      ReapLocked(task);
      tasks := tasks + [task];
      needSpawn := Crowded();
      Step(M.Push(task));
    }

    /** The second, which looks again before it spawns. */
    method Spawn(ghost task: nat)
      requires Mirrors() && Settled(st.workers) && !st.locked && st.submits == map[task := M.Spawning]
      modifies this
      ensures Mirrors() && Settled(st.workers) && st.submits == map[] && !st.locked && st.stoppers == old(st.stoppers)
      ensures stopped == old(stopped) && tasks == old(tasks) && ran == old(ran) && reap == old(reap)
      ensures st.submitted == old(st.submitted)
      ensures workerCount == old(workerCount) + if !stopped && old(Crowded()) then 1 else 0
      ensures workers == old(workers) + if workerCount > old(workerCount) then {old(nextId)} else {}
    {
      hide M.Reachable;
      if !stopped && Crowded() {
        workers, workerCount, nextId := workers + {nextId}, workerCount + 1, nextId + 1;
      }
      Step(M.Spawn(task));
    }

    /** A new task: queued, or run at once when the pool has stopped. */
    method Enqueue() returns (task: nat)
      requires Valid()
      modifies this
      ensures Valid() && task == old(nextId) && stopped == old(stopped)
      ensures st.submitted == old(st.submitted) + {task}
      ensures old(stopped) ==>
        tasks == old(tasks) && ran == old(ran) + [task] && workerCount == old(workerCount) && workers == old(workers)
      ensures !old(stopped) ==> tasks == old(tasks) + [task] && ran == old(ran) && reap == {}
      ensures !old(stopped) ==>
        workerCount == old(workerCount) + if old(workerCount) < cfg.maxThreads && |tasks| > old(workerCount) * cfg.scale then 1 else 0
      ensures !old(stopped) ==> workers == old(workers) + if workerCount > old(workerCount) then {old(nextId) + 1} else {}
    {
      hide M.Reachable, Settled;
      task := nextId;
      nextId := nextId + 1;
      Step(M.Begin);
      Step(M.ReadStopped(task));
      if stopped {
        ran := ran + [task];
        return;
      }
      var needSpawn := Push(task);
      Notify(task);
      if needSpawn {
        Spawn(task);
      }
    }

    /** The wait of a worker is over, or was not needed: `timedOut` if nothing else ended it. */
    ghost method AwaitTurn(w: nat, timedOut: bool)
      requires M.Reachable(st) && !st.locked && M.IsLive(st.workers, w) && Settled(st.workers)
      modifies `st
      ensures M.Reachable(st) && w in st.workers && M.Enabled(st, M.Look(w))
      ensures st == old(st).(workers := old(st.workers)[w := st.workers[w]])
      ensures st.tasks == [] && !st.stopped ==> st.workers[w] == M.Woken(timedOut)
    {
      hide M.Reachable, M.HandlesOk, M.CountOk, Settled, M.IsLive;
      LiveCounted(st, w);
      LiveSettled(st.workers, w);
      if st.tasks == [] && !st.stopped && !st.workers[w].Blocked? {
        Step(M.Look(w));
      }
      if st.workers[w].Blocked? {
        Step(M.Rouse(w, timedOut));
      }
    }

    /** Take the oldest task and run it. */
    method RunTask(w: nat)
      requires Mirrors() && !st.locked && tasks != [] && M.Enabled(st, M.Look(w))
      modifies this`tasks, this`ran, `st
      ensures Mirrors() && tasks == old(tasks)[1..] && ran == old(ran) + [old(tasks)[0]]
      ensures st == old(st).(tasks := tasks, ran := ran, workers := old(st.workers)[w := M.Top])
    {
      hide M.Reachable;
      var task := tasks[0];
      tasks := tasks[1..];
      Step(M.Look(w));
      ran := ran + [task];
      Step(M.Finish(w));
    }

    /** Leave the loop, with the own thread object handed to `reap_`. */
    method SignOff(w: nat)
      requires Mirrors() && !st.locked && tasks == [] && M.Enabled(st, M.Look(w))
      requires stopped || (st.workers[w] == M.Woken(true) && workerCount > cfg.minThreads)
      modifies this`workers, this`reap, this`workerCount, `st
      ensures Mirrors() && workers == old(workers) - {w} && reap == old(reap) + (if w in old(workers) then {w} else {})
      ensures workerCount == old(workerCount) - 1
      ensures st == old(st).(registered := workers, reap := reap, count := workerCount, workers := old(st.workers)[w := M.Dead])
    {
      hide M.Reachable;
      if w in workers {
        workers, reap := workers - {w}, reap + {w};
      }
      workerCount := workerCount - 1;
      Step(M.Look(w));
      Step(M.Die(w));
    }

    /** One turn of `WorkerLoop_` in worker `w`; `gone` when it leaves the loop. */
    method Turn(w: nat, timedOut: bool) returns (gone: bool)
      requires Mirrors() && !st.locked && Settled(st.workers) && M.IsLive(st.workers, w)
      modifies this
      ensures Mirrors() && Settled(st.workers)
      ensures w in st.workers && (if gone then st.workers[w].Dead? else M.IsLive(st.workers, w))
      ensures st == old(st).(tasks := tasks, ran := ran, registered := workers, reap := reap, count := workerCount,
                             workers := old(st.workers)[w := st.workers[w]])
      ensures stopped == old(stopped) && nextId == old(nextId)
      ensures old(tasks) != [] ==> tasks == old(tasks)[1..] && ran == old(ran) + [old(tasks)[0]]
      ensures old(tasks) == [] ==> tasks == [] && ran == old(ran)
      ensures gone <==> old(tasks) == [] && (stopped || (timedOut && old(workerCount) > cfg.minThreads))
      ensures workers == old(workers) - (if gone then {w} else {}) && workerCount == old(workerCount) - (if gone then 1 else 0)
      ensures reap == old(reap) + (if gone && w in old(workers) then {w} else {})
    {
      hide M.Reachable, Settled, M.Do, M.Enabled;
      ghost var before := st.workers;
      AwaitTurn(w, timedOut);
      PutSettled(before, st.workers[w], st.workers, w);
      if tasks != [] {
        RunTask(w);
        return false;
      }
      if stopped || (timedOut && workerCount > cfg.minThreads) {
        SignOff(w);
        return true;
      }
      GoOn(w);
      return false;
    }

    /** Nothing to do and no reason to leave. */
    ghost method GoOn(w: nat)
      requires M.Reachable(st) && st.tasks == [] && !st.stopped && M.Enabled(st, M.Look(w))
      requires st.workers[w] == M.Woken(false) || (st.workers[w] == M.Woken(true) && st.count <= st.cfg.minThreads)
      modifies `st
      ensures M.Reachable(st) && (st == old(st).(workers := old(st.workers)[w := M.Top])
                               || st == old(st).(workers := old(st.workers)[w := M.Blocked]))
    {
      hide M.Reachable;
      Step(M.Look(w));
    }

    /** Joining a worker of a stopped pool: it runs what is queued, and ends. */
    method Join(w: nat, ghost k: nat)
      requires Mirrors() && stopped && !st.locked && Settled(st.workers) && w in st.taken && w in st.workers
      requires M.IsLive(st.workers, w)
      requires k in st.stoppers && st.stoppers[k].Joining? && workers == {} && reap == {}
      modifies this
      ensures Mirrors() && stopped && Settled(st.workers) && workers == {} && reap == {}
      ensures w in st.workers && st == old(st).(tasks := tasks, ran := ran, count := workerCount, joined := st.joined,
        taken := old(st.taken) - {w}, workers := old(st.workers)[w := M.Dead])
    {
      hide M.Reachable;
      ghost var before := st;
      var gone := Turn(w, false);
      while !gone
        invariant Mirrors() && stopped && Settled(st.workers) && workers == {} && reap == {}
        invariant w in st.workers && if gone then st.workers[w].Dead? else M.IsLive(st.workers, w)
        invariant st == before.(tasks := tasks, ran := ran, count := workerCount, workers := before.workers[w := st.workers[w]])
        decreases |tasks|, if gone then 0 else 1
      {
        gone := Turn(w, false);
      }
      Step(M.JoinOne(k, w));
    }

    /** The first call stops the pool, and returns when every thread has been joined. */
    method Shutdown()
      requires Valid()
      modifies this
      ensures Valid() && stopped && st.submitted == old(st.submitted)
      ensures old(stopped) ==> tasks == old(tasks) && ran == old(ran) && workers == old(workers) && reap == old(reap)
      ensures !old(stopped) ==> tasks == [] && workers == {} && reap == {} && workerCount == 0
      ensures !old(stopped) ==> forall t: nat :: multiset(ran)[t] == One(t in st.submitted)
      ensures !old(stopped) ==> forall w: nat :: st.joined[w] == One(w in st.workers)
    {
      hide M.Reachable, M.HandlesOk;
      ghost var k := nextId;
      nextId := nextId + 1;
      Step(M.BeginStop);
      if stopped {
        Step(M.Stop(k));
        return;
      }
      var taken, takenReap := Collect(k);
      JoinAll(taken, takenReap, k);
      Step(M.Return(k));
      M.ShutdownDrains(st);
    }

    /** Stop, wake everybody, and move the threads out. */
    method Collect(ghost k: nat) returns (live: set<nat>, over: set<nat>)
      requires Mirrors() && Settled(st.workers) && !st.locked && !stopped && st.stoppers == map[k := M.Stopping]
      modifies this`stopped, this`workers, this`reap, `st
      ensures Mirrors() && stopped && Settled(st.workers) && workers == {} && reap == {}
      ensures st.taken == live + over && st.stoppers == map[k := M.Joining]
      ensures forall w | w in live :: M.IsLive(st.workers, w)
      ensures forall w | w in over :: w !in live && w in st.workers && st.workers[w].Dead?
      ensures st == old(st).(stopped := true, registered := {}, reap := {}, taken := st.taken, collected := true,
                             stoppers := st.stoppers, workers := M.WakeBlocked(old(st.workers)))
    {
      hide M.Reachable, M.WakeBlocked, M.IsLive, Settled, M.Do, M.Enabled;
      ThreadsOf(st);
      WakeSettled(st.workers, workers, reap);
      stopped := true;
      StopAndWake(k);
      live, over := workers, reap;
      workers, reap := {}, {};
      TakeThreads(k);
    }

    ghost method StopAndWake(k: nat)
      requires M.Reachable(st) && !st.locked && !st.stopped && st.stoppers == map[k := M.Stopping]
      modifies `st
      ensures M.Reachable(st)
      ensures st == old(st).(stopped := true, stoppers := map[k := M.Taking], workers := M.WakeBlocked(old(st.workers)))
    {
      hide M.Reachable, M.WakeBlocked;
      Step(M.Stop(k));
      Step(M.WakeAll(k));
    }

    ghost method TakeThreads(k: nat)
      requires M.Reachable(st) && !st.locked && st.stoppers == map[k := M.Taking] && st.taken == {}
      modifies `st
      ensures M.Reachable(st)
      ensures st == old(st).(registered := {}, reap := {}, taken := old(st.registered) + old(st.reap), collected := true,
                             stoppers := map[k := M.Joining])
    {
      hide M.Reachable;
      Step(M.TakeAll(k));
    }

    method JoinAll(live: set<nat>, over: set<nat>, ghost k: nat)
      requires Mirrors() && stopped && !st.locked && Settled(st.workers) && workers == {} && reap == {}
      requires k in st.stoppers && st.stoppers[k].Joining? && st.taken == live + over
      requires forall w | w in live :: M.IsLive(st.workers, w)
      requires forall w | w in over :: w !in live && w in st.workers && st.workers[w].Dead?
      modifies this
      ensures Mirrors() && stopped && Settled(st.workers) && workers == {} && reap == {} && st.taken == {}
      ensures st == old(st).(tasks := tasks, ran := ran, count := workerCount, joined := st.joined, taken := {}, workers := st.workers)
    {
      hide M.Reachable;
      var left := live;
      while left != {}
        invariant Mirrors() && stopped && Settled(st.workers) && workers == {} && reap == {} && st.taken == left + over && left <= live
        invariant forall w | w in left :: M.IsLive(st.workers, w)
        invariant forall w | w in over :: w !in left && w in st.workers && st.workers[w].Dead?
        invariant st == old(st).(tasks := tasks, ran := ran, count := workerCount, joined := st.joined,
                                 taken := left + over, workers := st.workers)
        decreases left
      {
        var w :| w in left;
        left := left - {w};
        Join(w, k);
      }
      var rest := over;
      while rest != {}
        invariant Mirrors() && stopped && Settled(st.workers) && workers == {} && reap == {} && st.taken == rest && rest <= over
        invariant forall w | w in rest :: w in st.workers && st.workers[w].Dead?
        invariant st == old(st).(tasks := tasks, ran := ran, count := workerCount, joined := st.joined,
                                 taken := rest, workers := st.workers)
        decreases rest
      {
        var w :| w in rest;
        rest := rest - {w};
        Step(M.JoinOne(k, w));
      }
    }
  }
}
