/** The elastic worker pool under every interleaving of submitters, workers, idle
    timeouts and shutdowns. `mtx_` is held across steps only while `Enqueue_` joins the
    threads in `reap_`; every other critical section is one step. */
module PoolMachine {
  import opened Counting

  datatype Config = Config(minThreads: nat, maxThreads: nat, scale: nat)

  /** The constructor's corrections. */
  function Normalise(c: Config): (r: Config)
    ensures 0 < r.minThreads <= r.maxThreads && r.scale > 0
    ensures 0 < c.minThreads <= c.maxThreads && c.scale > 0 ==> r == c
    ensures c.minThreads == 0 ==> r.minThreads == 1
    ensures c.maxThreads < r.minThreads ==> r.maxThreads == r.minThreads
    ensures c.scale == 0 ==> r.scale == 1
  {
    var lo := if c.minThreads == 0 then 1 else c.minThreads;
    Config(lo, if c.maxThreads < lo then lo else c.maxThreads, if c.scale == 0 then 1 else c.scale)
  }

  datatype Worker =
    | Top                        // about to take mtx_
    | Blocked                    // in cv_.wait_for
    | Woken(timedOut: bool)      // about to retake mtx_
    | Busy(task: nat)
    | Exiting                    // has signed off, about to return
    | Dead

  /** A call of `Enqueue_`; the call's number is also its task's. */
  datatype Submit =
    | Arriving                   // about to load stopped_
    | Locking                    // about to take mtx_
    | Reaping                    // holds mtx_, joining reap_
    | Notifying(spawn: bool)     // task queued, about to notify_one
    | Spawning                   // about to retake mtx_ to spawn

  datatype Stopper =
    | Stopping                   // about to take mtx_ and exchange stopped_
    | Waking                     // won the exchange, about to notify_all
    | Taking                     // about to take mtx_ and move the threads out
    | Joining

  datatype State = State(
    cfg: Config,
    locked: bool,                // mtx_ is held across steps by an Enqueue_ that is joining
    tasks: seq<nat>,
    workers: map<nat, Worker>,   // every thread ever spawned
    registered: set<nat>,        // workers_
    reap: set<nat>,              // reap_
    taken: set<nat>,             // moved out by Shutdown, not joined yet
    joined: multiset<nat>,       // how often each thread was joined
    count: nat,                  // worker_count_
    stopped: bool,
    collected: bool,             // Shutdown has moved the threads out
    finished: bool,              // the winning Shutdown has returned
    submits: map<nat, Submit>,
    stoppers: map<nat, Stopper>,
    nextId: nat,
    submitted: set<nat>,
    ran: seq<nat>)

  datatype Label =
    | Begin | ReadStopped(e: nat) | Lock(e: nat) | ReapOne(e: nat, w: nat) | Push(e: nat)
    | NotifyOne(e: nat, w: nat) | NotifyNobody(e: nat) | Spawn(e: nat)
    | Look(w: nat) | Rouse(w: nat, timedOut: bool) | Finish(w: nat) | Die(w: nat)
    | BeginStop | Stop(k: nat) | WakeAll(k: nat) | TakeAll(k: nat) | JoinOne(k: nat, w: nat) | Return(k: nat)

  function Ids(n: nat): (r: set<nat>)
    ensures |r| == n && forall w: nat :: w in r <==> w < n
  {
    if n == 0 then {} else Ids(n - 1) + {n - 1}
  }

  function Init(c: Config): State {
    var cfg := Normalise(c);
    var ids := Ids(cfg.minThreads);
    State(cfg, false, [], map w | w in ids :: Top, ids, {}, {}, multiset{}, cfg.minThreads, false, false, false,
          map[], map[], cfg.minThreads, {}, [])
  }

  /** Blocked in `cv_`. */
  function Sleepers(ws: map<nat, Worker>): set<nat> {
    set w | w in ws && ws[w].Blocked?
  }

  predicate Enabled(s: State, l: Label) {
    match l
    case Begin => true
    case ReadStopped(e) => e in s.submits && s.submits[e].Arriving?
    case Lock(e) => e in s.submits && s.submits[e].Locking? && !s.locked
    case ReapOne(e, w) => e in s.submits && s.submits[e].Reaping? && w in s.reap && w in s.workers && s.workers[w].Dead?
    case Push(e) => e in s.submits && s.submits[e].Reaping? && s.reap == {}
    case NotifyOne(e, w) => e in s.submits && s.submits[e].Notifying? && w in s.workers && s.workers[w].Blocked?
    case NotifyNobody(e) => e in s.submits && s.submits[e].Notifying? && forall w | w in s.workers :: !s.workers[w].Blocked?
    case Spawn(e) => e in s.submits && s.submits[e].Spawning? && !s.locked
    case Look(w) => w in s.workers && (s.workers[w].Top? || s.workers[w].Woken?) && !s.locked && s.count > 0
    case Rouse(w, _) => w in s.workers && s.workers[w].Blocked?
    case Finish(w) => w in s.workers && s.workers[w].Busy?
    case Die(w) => w in s.workers && s.workers[w].Exiting?
    case BeginStop => true
    case Stop(k) => k in s.stoppers && s.stoppers[k].Stopping? && !s.locked
    case WakeAll(k) => k in s.stoppers && s.stoppers[k].Waking?
    case TakeAll(k) => k in s.stoppers && s.stoppers[k].Taking? && !s.locked
    case JoinOne(k, w) => k in s.stoppers && s.stoppers[k].Joining? && w in s.taken && w in s.workers && s.workers[w].Dead?
    case Return(k) => k in s.stoppers && s.stoppers[k].Joining? && s.taken == {}
  }

  predicate Crowded(s: State) {
    s.count < s.cfg.maxThreads && |s.tasks| > s.count * s.cfg.scale
  }

  /** `stopped_` is set: the submitter runs the task itself. */
  function RunInline(s: State, e: nat): State {
    s.(submits := s.submits - {e}, ran := s.ran + [e])
  }

  function DoPush(s: State, e: nat): State {
    var pushed := s.(tasks := s.tasks + [e], locked := false);
    pushed.(submits := s.submits[e := Notifying(Crowded(pushed))])
  }

  function AfterNotify(s: State, e: nat): State
    requires e in s.submits && s.submits[e].Notifying?
  {
    if s.submits[e].spawn then s.(submits := s.submits[e := Spawning]) else s.(submits := s.submits - {e})
  }

  function DoSpawn(s: State, e: nat): State {
    if !s.stopped && Crowded(s) then
      s.(workers := s.workers[s.nextId := Top], registered := s.registered + {s.nextId}, count := s.count + 1,
         nextId := s.nextId + 1, submits := s.submits - {e})
    else s.(submits := s.submits - {e})
  }

  function SetWorker(s: State, w: nat, p: Worker): State {
    s.(workers := s.workers[w := p])
  }

  /** Signing off: hand the own thread object to `reap_`, unless Shutdown has it. */
  function SignOff(s: State, w: nat): State
    requires s.count > 0
  {
    s.(workers := s.workers[w := Exiting], registered := s.registered - {w},
       reap := if w in s.registered then s.reap + {w} else s.reap, count := s.count - 1)
  }

  function TakeTask(s: State, w: nat): State
    requires s.tasks != []
  {
    s.(tasks := s.tasks[1..], workers := s.workers[w := Busy(s.tasks[0])])
  }

  /** A worker's critical section, with the predicate of its wait. */
  function DoLook(s: State, w: nat): State
    requires Enabled(s, Look(w))
  {
    if s.tasks != [] then TakeTask(s, w)
    else if s.stopped then SignOff(s, w)
    else if s.workers[w] == Woken(true) then
      if s.count > s.cfg.minThreads then SignOff(s, w) else SetWorker(s, w, Top)
    else SetWorker(s, w, Blocked)
  }

  function DoFinish(s: State, w: nat): State
    requires Enabled(s, Finish(w))
  {
    s.(workers := s.workers[w := Top], ran := s.ran + [s.workers[w].task])
  }

  function WakeBlocked(ws: map<nat, Worker>): map<nat, Worker> {
    map w | w in ws :: if ws[w].Blocked? then Woken(false) else ws[w]
  }

  function DoWakeAll(s: State, k: nat): State {
    s.(workers := WakeBlocked(s.workers), stoppers := s.stoppers[k := Taking])
  }

  function DoTakeAll(s: State, k: nat): State {
    s.(taken := s.taken + s.registered + s.reap, registered := {}, reap := {}, collected := true,
       stoppers := s.stoppers[k := Joining])
  }

  function DoBegin(s: State): State {
    s.(submits := s.submits[s.nextId := Arriving], submitted := s.submitted + {s.nextId}, nextId := s.nextId + 1)
  }

  function Do(s: State, l: Label): State
    requires Enabled(s, l)
  {
    match l
    case Begin => DoBegin(s)
    case ReadStopped(e) => if s.stopped then RunInline(s, e) else s.(submits := s.submits[e := Locking])
    case Lock(e) => if s.stopped then RunInline(s, e) else s.(submits := s.submits[e := Reaping], locked := true)
    case ReapOne(e, w) => s.(reap := s.reap - {w}, joined := s.joined + multiset{w})
    case Push(e) => DoPush(s, e)
    case NotifyOne(e, w) => SetWorker(AfterNotify(s, e), w, Woken(false))
    case NotifyNobody(e) => AfterNotify(s, e)
    case Spawn(e) => DoSpawn(s, e)
    case Look(w) => DoLook(s, w)
    case Rouse(w, timedOut) => SetWorker(s, w, Woken(timedOut))
    case Finish(w) => DoFinish(s, w)
    case Die(w) => SetWorker(s, w, Dead)
    case BeginStop => s.(stoppers := s.stoppers[s.nextId := Stopping], nextId := s.nextId + 1)
    case Stop(k) =>
      if s.stopped then s.(stoppers := s.stoppers - {k}) else s.(stopped := true, stoppers := s.stoppers[k := Waking])
    case WakeAll(k) => DoWakeAll(s, k)
    case TakeAll(k) => DoTakeAll(s, k)
    case JoinOne(k, w) => s.(taken := s.taken - {w}, joined := s.joined + multiset{w})
    case Return(k) => s.(stoppers := s.stoppers - {k}, finished := true)
  }

  predicate Valid(s: State, run: seq<Label>)
    decreases |run|
  {
    run == [] || (Enabled(s, run[0]) && Valid(Do(s, run[0]), run[1..]))
  }

  function Run(s: State, run: seq<Label>): State
    requires Valid(s, run)
    decreases |run|
  {
    if run == [] then s else Run(Do(s, run[0]), run[1..])
  }

  // ---------------------------------------------------------------- invariant

  predicate IsLive(ws: map<nat, Worker>, w: nat) {
    w in ws && !ws[w].Exiting? && !ws[w].Dead?
  }

  function Live(ws: map<nat, Worker>): set<nat> {
    set w | w in ws && IsLive(ws, w)
  }

  function Risen(ws: map<nat, Worker>): set<nat> {
    set w | w in ws && ws[w].Woken?
  }

  function Notifiers(es: map<nat, Submit>): set<nat> {
    set e | e in es && es[e].Notifying?
  }

  /** `worker_count_` counts the live workers and stays within its limits. */
  ghost predicate CountOk(cfg: Config, count: nat, ws: map<nat, Worker>, stopped: bool, tasks: seq<nat>) {
    && count == |Live(ws)|
    && 0 < cfg.minThreads <= cfg.maxThreads
    && count <= cfg.maxThreads
    && (!stopped ==> cfg.minThreads <= count)
    && (tasks != [] ==> count > 0)
  }

  /** The one `Enqueue_` that joins holds the lock, and the pool is not stopped meanwhile. */
  ghost predicate LockOk(locked: bool, stopped: bool, es: map<nat, Submit>) {
    && (locked ==> !stopped)
    && (forall e | e in es && es[e].Reaping? :: locked)
    && (forall d, e | d in es && e in es && es[d].Reaping? && es[e].Reaping? :: d == e)
  }

  /** Numbers are handed out once. */
  ghost predicate KnownOk(ws: map<nat, Worker>, es: map<nat, Submit>, submitted: set<nat>, ks: map<nat, Stopper>, next: nat) {
    && (forall w | w in ws :: w < next)
    && (forall e | e in es :: e in submitted)
    && (forall e | e in submitted :: e < next)
    && (forall k | k in ks :: k < next)
  }

  /** Each thread object is in one place, or has been joined, once. */
  ghost predicate HandlesOk(ws: map<nat, Worker>, registered: set<nat>, reap: set<nat>, taken: set<nat>, joined: multiset<nat>) {
    && (forall w: nat :: One(w in registered) + One(w in reap) + One(w in taken) + joined[w] == One(w in ws))
    && (forall w | w in registered :: IsLive(ws, w))
    && (forall w | w in reap :: !IsLive(ws, w))
    && (forall w | w in joined :: w in ws && ws[w].Dead?)
  }

  /** At most one Shutdown wins, and it moves the threads out once. */
  ghost predicate ShutOk(ks: map<nat, Stopper>, stopped: bool, collected: bool, finished: bool) {
    && (forall k, m | k in ks && m in ks && !ks[k].Stopping? && !ks[m].Stopping? :: k == m)
    && (forall k | k in ks && !ks[k].Stopping? :: stopped && !finished && (collected <==> ks[k].Joining?))
    && (collected ==> stopped)
    && (finished ==> collected)
  }

  ghost predicate EmptiedOk(collected: bool, finished: bool, registered: set<nat>, reap: set<nat>, taken: set<nat>) {
    && (collected ==> registered == {} && reap == {})
    && (!collected || finished ==> taken == {})
  }

  ghost predicate Alarm(ks: map<nat, Stopper>) {
    exists k :: k in ks && ks[k].Waking?
  }

  /** Sleepers of a stopped pool have a notify_all ahead. */
  ghost predicate AlarmOk(ws: map<nat, Worker>, stopped: bool, ks: map<nat, Stopper>) {
    stopped && Sleepers(ws) != {} ==> Alarm(ks)
  }

  /** A queued task has a notification under way or a woken worker ahead of it, as long
      as anybody sleeps. */
  ghost predicate Notified(ws: map<nat, Worker>, tasks: seq<nat>, es: map<nat, Submit>) {
    Sleepers(ws) != {} ==> |tasks| <= |Notifiers(es)| + |Risen(ws)|
  }

  predicate Holding(es: map<nat, Submit>, t: nat) {
    t in es && (es[t].Arriving? || es[t].Locking? || es[t].Reaping?)
  }

  function BusyWith(ws: map<nat, Worker>, t: nat): set<nat> {
    set w | w in ws && ws[w] == Busy(t)
  }

  /** Task `t` is with its submitter, queued, running, or done, and only one of these. */
  ghost predicate Placed(s: State, t: nat) {
    One(Holding(s.submits, t)) + multiset(s.tasks)[t] + |BusyWith(s.workers, t)| + multiset(s.ran)[t] == One(t in s.submitted)
  }

  ghost predicate AllPlaced(s: State) {
    forall t: nat :: Placed(s, t)
  }

  ghost predicate Core(s: State) {
    && CountOk(s.cfg, s.count, s.workers, s.stopped, s.tasks)
    && LockOk(s.locked, s.stopped, s.submits)
    && KnownOk(s.workers, s.submits, s.submitted, s.stoppers, s.nextId)
    && HandlesOk(s.workers, s.registered, s.reap, s.taken, s.joined)
    && ShutOk(s.stoppers, s.stopped, s.collected, s.finished)
    && EmptiedOk(s.collected, s.finished, s.registered, s.reap, s.taken)
    && AlarmOk(s.workers, s.stopped, s.stoppers)
    && Notified(s.workers, s.tasks, s.submits)
  }

  ghost predicate Inv(s: State) {
    Core(s) && AllPlaced(s)
  }

  // ------------------------------------------------------- one step at a time

  lemma InitInv(c: Config)
    ensures Inv(Init(c))
  {
    var s := Init(c);
    assert Live(s.workers) == Ids(s.cfg.minThreads);
    assert Sleepers(s.workers) == {};
    forall t: nat
      ensures Placed(s, t)
    {
      assert BusyWith(s.workers, t) == {};
    }
  }

  /** One worker changes phase: how the counted sets follow. */
  lemma Put(ws: map<nat, Worker>, w: nat, p: Worker)
    ensures Live(ws[w := p]) == if p.Exiting? || p.Dead? then Live(ws) - {w} else Live(ws) + {w}
    ensures Sleepers(ws[w := p]) == if p.Blocked? then Sleepers(ws) + {w} else Sleepers(ws) - {w}
    ensures Risen(ws[w := p]) == if p.Woken? then Risen(ws) + {w} else Risen(ws) - {w}
  {}

  lemma PutBusy(ws: map<nat, Worker>, w: nat, p: Worker, t: nat)
    ensures BusyWith(ws[w := p], t) == if p == Busy(t) then BusyWith(ws, t) + {w} else BusyWith(ws, t) - {w}
  {}

  lemma PutSubmit(es: map<nat, Submit>, e: nat, p: Submit)
    ensures Notifiers(es[e := p]) == if p.Notifying? then Notifiers(es) + {e} else Notifiers(es) - {e}
    ensures Notifiers(es - {e}) == Notifiers(es) - {e}
  {}

  lemma WakeSets(ws: map<nat, Worker>)
    ensures Live(WakeBlocked(ws)) == Live(ws) && Sleepers(WakeBlocked(ws)) == {}
    ensures Risen(WakeBlocked(ws)) == Risen(ws) + Sleepers(ws)
  {}

  lemma WakeBusy(ws: map<nat, Worker>, t: nat)
    ensures BusyWith(WakeBlocked(ws), t) == BusyWith(ws, t)
  {}

  // Changes of one component at a time

  predicate LivePhase(p: Worker) {
    !p.Exiting? && !p.Dead?
  }

  lemma CountPut(cfg: Config, count: nat, ws: map<nat, Worker>, stopped: bool, tasks: seq<nat>, w: nat, p: Worker)
    requires CountOk(cfg, count, ws, stopped, tasks) && w in ws && IsLive(ws, w) == LivePhase(p)
    ensures CountOk(cfg, count, ws[w := p], stopped, tasks)
    ensures tasks != [] ==> CountOk(cfg, count, ws[w := p], stopped, tasks[1..])
  {
    Put(ws, w, p);
    assert IsLive(ws, w) <==> w in Live(ws);
    assert Live(ws[w := p]) == Live(ws);
  }

  lemma CountSpawn(cfg: Config, count: nat, ws: map<nat, Worker>, stopped: bool, tasks: seq<nat>, w: nat)
    requires CountOk(cfg, count, ws, stopped, tasks) && w !in ws && count < cfg.maxThreads
    ensures CountOk(cfg, count + 1, ws[w := Top], stopped, tasks)
  {
    Put(ws, w, Top);
    assert w !in Live(ws);
  }

  lemma CountSignOff(cfg: Config, count: nat, ws: map<nat, Worker>, stopped: bool, w: nat)
    requires CountOk(cfg, count, ws, stopped, []) && IsLive(ws, w) && (stopped || count > cfg.minThreads) && count > 0
    ensures CountOk(cfg, count - 1, ws[w := Exiting], stopped, [])
  {
    Put(ws, w, Exiting);
    assert w in Live(ws);
  }

  lemma CountWake(cfg: Config, count: nat, ws: map<nat, Worker>, stopped: bool, tasks: seq<nat>)
    requires CountOk(cfg, count, ws, stopped, tasks)
    ensures CountOk(cfg, count, WakeBlocked(ws), stopped, tasks)
  {
    WakeSets(ws);
  }

  lemma CountPush(cfg: Config, count: nat, ws: map<nat, Worker>, tasks: seq<nat>, t: nat)
    requires CountOk(cfg, count, ws, false, tasks)
    ensures CountOk(cfg, count, ws, false, tasks + [t])
  {}

  lemma CountStop(cfg: Config, count: nat, ws: map<nat, Worker>, stopped: bool, tasks: seq<nat>)
    requires CountOk(cfg, count, ws, stopped, tasks)
    ensures CountOk(cfg, count, ws, true, tasks)
  {}

  lemma LockPut(locked: bool, stopped: bool, es: map<nat, Submit>, e: nat, p: Submit)
    requires LockOk(locked, stopped, es)
    ensures LockOk(locked, stopped, es - {e})
    ensures !p.Reaping? ==> LockOk(locked, stopped, es[e := p])
    ensures !p.Reaping? && e in es && es[e].Reaping? ==> LockOk(false, stopped, es[e := p])
    ensures !locked && !stopped ==> LockOk(true, stopped, es[e := Reaping])
    ensures !locked ==> LockOk(false, true, es)
  {}

  lemma KnownPut(ws: map<nat, Worker>, es: map<nat, Submit>, submitted: set<nat>, ks: map<nat, Stopper>, next: nat,
                 w: nat, p: Worker, e: nat, q: Submit, k: nat, r: Stopper)
    requires KnownOk(ws, es, submitted, ks, next)
    ensures w in ws ==> KnownOk(ws[w := p], es, submitted, ks, next)
    ensures KnownOk(ws, es - {e}, submitted, ks, next)
    ensures e in es ==> KnownOk(ws, es[e := q], submitted, ks, next)
    ensures KnownOk(ws, es, submitted, ks - {k}, next)
    ensures k in ks ==> KnownOk(ws, es, submitted, ks[k := r], next)
    ensures KnownOk(WakeBlocked(ws), es, submitted, ks, next)
    ensures next !in ws && next !in es && next !in submitted && next !in ks
    ensures KnownOk(ws[next := p], es, submitted, ks, next + 1)
    ensures KnownOk(ws, es[next := q], submitted + {next}, ks, next + 1)
    ensures KnownOk(ws, es, submitted, ks[next := r], next + 1)
  {}

  lemma HandlesPut(ws: map<nat, Worker>, registered: set<nat>, reap: set<nat>, taken: set<nat>, joined: multiset<nat>, w: nat, p: Worker)
    requires HandlesOk(ws, registered, reap, taken, joined) && w in ws && !ws[w].Dead? && IsLive(ws, w) == LivePhase(p)
    ensures HandlesOk(ws[w := p], registered, reap, taken, joined)
  {}

  lemma HandlesWake(ws: map<nat, Worker>, registered: set<nat>, reap: set<nat>, taken: set<nat>, joined: multiset<nat>)
    requires HandlesOk(ws, registered, reap, taken, joined)
    ensures HandlesOk(WakeBlocked(ws), registered, reap, taken, joined)
  {}

  lemma HandlesSpawn(ws: map<nat, Worker>, registered: set<nat>, reap: set<nat>, taken: set<nat>, joined: multiset<nat>, w: nat)
    requires HandlesOk(ws, registered, reap, taken, joined) && w !in ws
    ensures HandlesOk(ws[w := Top], registered + {w}, reap, taken, joined)
  {}

  lemma HandlesSignOff(ws: map<nat, Worker>, registered: set<nat>, reap: set<nat>, taken: set<nat>, joined: multiset<nat>, w: nat)
    requires HandlesOk(ws, registered, reap, taken, joined) && IsLive(ws, w)
    ensures HandlesOk(ws[w := Exiting], registered - {w}, if w in registered then reap + {w} else reap, taken, joined)
  {}

  lemma HandlesJoin(ws: map<nat, Worker>, registered: set<nat>, reap: set<nat>, taken: set<nat>, joined: multiset<nat>, w: nat)
    requires HandlesOk(ws, registered, reap, taken, joined) && w in ws && ws[w].Dead?
    ensures w in reap ==> HandlesOk(ws, registered, reap - {w}, taken, joined + multiset{w})
    ensures w in taken ==> HandlesOk(ws, registered, reap, taken - {w}, joined + multiset{w})
  {}

  lemma HandlesTakeAll(ws: map<nat, Worker>, registered: set<nat>, reap: set<nat>, taken: set<nat>, joined: multiset<nat>)
    requires HandlesOk(ws, registered, reap, taken, joined)
    ensures HandlesOk(ws, {}, {}, taken + registered + reap, joined)
  {}

  lemma AlarmPut(ws: map<nat, Worker>, stopped: bool, ks: map<nat, Stopper>, w: nat, p: Worker)
    requires AlarmOk(ws, stopped, ks) && (p.Blocked? ==> !stopped)
    ensures AlarmOk(ws[w := p], stopped, ks) && AlarmOk(WakeBlocked(ws), stopped, ks)
  {
    Put(ws, w, p);
    WakeSets(ws);
  }

  lemma AlarmStopper(ws: map<nat, Worker>, stopped: bool, ks: map<nat, Stopper>, k: nat, p: Stopper)
    requires AlarmOk(ws, stopped, ks)
    requires k in ks ==> !ks[k].Waking? || Sleepers(ws) == {}
    ensures AlarmOk(ws, stopped, ks - {k}) && AlarmOk(ws, stopped, ks[k := p])
    ensures p.Waking? ==> AlarmOk(ws, true, ks[k := p])
  {
    assert p.Waking? ==> k in ks[k := p] && ks[k := p][k].Waking?;
    if m :| m in ks && ks[m].Waking? && Sleepers(ws) != {} {
      assert m in ks - {k} && (ks - {k})[m].Waking?;
      assert m in ks[k := p] && ks[k := p][m].Waking?;
    }
  }

  lemma NotifiedPut(ws: map<nat, Worker>, tasks: seq<nat>, es: map<nat, Submit>, w: nat, p: Worker)
    requires Notified(ws, tasks, es) && w in ws
    ensures !p.Blocked? && (ws[w].Woken? ==> p.Woken?) ==> Notified(ws[w := p], tasks, es)
    ensures ws[w].Blocked? && p.Woken? ==> |Risen(ws[w := p])| == |Risen(ws)| + 1
    ensures tasks != [] && (ws[w].Top? || ws[w].Woken?) && p.Busy? ==> Notified(ws[w := p], tasks[1..], es)
    ensures Notified(ws[w := p], [], es)
  {
    Put(ws, w, p);
    assert w in Risen(ws) <==> ws[w].Woken?;
  }

  lemma NotifiedSubmit(ws: map<nat, Worker>, tasks: seq<nat>, es: map<nat, Submit>, e: nat, p: Submit)
    requires Notified(ws, tasks, es)
    ensures (e in es ==> !es[e].Notifying?) && !p.Notifying? ==> Notified(ws, tasks, es[e := p]) && Notified(ws, tasks, es - {e})
    ensures (e in es ==> !es[e].Notifying?) && p.Notifying? ==> Notified(ws, tasks + [e], es[e := p])
    ensures |Notifiers(es - {e})| >= |Notifiers(es)| - 1
    ensures !p.Notifying? ==> |Notifiers(es[e := p])| >= |Notifiers(es)| - 1
  {
    PutSubmit(es, e, p);
    assert e in Notifiers(es) <==> e in es && es[e].Notifying?;
  }

  lemma NotifiedWake(ws: map<nat, Worker>, tasks: seq<nat>, es: map<nat, Submit>)
    ensures Notified(WakeBlocked(ws), tasks, es)
  {
    WakeSets(ws);
  }

  lemma NotifiedSpawn(ws: map<nat, Worker>, tasks: seq<nat>, es: map<nat, Submit>, w: nat)
    requires Notified(ws, tasks, es) && w !in ws
    ensures Notified(ws[w := Top], tasks, es)
  {
    Put(ws, w, Top);
    assert w !in Risen(ws) && w !in Sleepers(ws);
  }

  // Each step keeps the core: the component lemmas, put together

  lemma BeginCore(s: State)
    requires Core(s) && Enabled(s, Begin)
    ensures Core(Do(s, Begin))
  {
    hide CountOk, LockOk, KnownOk, HandlesOk, ShutOk, AlarmOk, Notified;
    KnownPut(s.workers, s.submits, s.submitted, s.stoppers, s.nextId, 0, Top, 0, Arriving, 0, Stopping);
    LockPut(s.locked, s.stopped, s.submits, s.nextId, Arriving);
    NotifiedSubmit(s.workers, s.tasks, s.submits, s.nextId, Arriving);
  }

  lemma ReadStoppedCore(s: State, e: nat)
    requires Core(s) && Enabled(s, ReadStopped(e))
    ensures Core(Do(s, ReadStopped(e)))
  {
    hide CountOk, LockOk, KnownOk, HandlesOk, ShutOk, AlarmOk, Notified;
    KnownPut(s.workers, s.submits, s.submitted, s.stoppers, s.nextId, 0, Top, e, Locking, 0, Stopping);
    LockPut(s.locked, s.stopped, s.submits, e, Locking);
    NotifiedSubmit(s.workers, s.tasks, s.submits, e, Locking);
  }

  lemma LockCore(s: State, e: nat)
    requires Core(s) && Enabled(s, Lock(e))
    ensures Core(Do(s, Lock(e)))
  {
    hide CountOk, LockOk, KnownOk, HandlesOk, ShutOk, AlarmOk, Notified;
    KnownPut(s.workers, s.submits, s.submitted, s.stoppers, s.nextId, 0, Top, e, Reaping, 0, Stopping);
    LockPut(s.locked, s.stopped, s.submits, e, Reaping);
    NotifiedSubmit(s.workers, s.tasks, s.submits, e, Reaping);
  }

  lemma ReapOneCore(s: State, e: nat, w: nat)
    requires Core(s) && Enabled(s, ReapOne(e, w))
    ensures Core(Do(s, ReapOne(e, w)))
  {
    hide CountOk, LockOk, KnownOk, HandlesOk, ShutOk, AlarmOk, Notified;
    HandlesJoin(s.workers, s.registered, s.reap, s.taken, s.joined, w);
    StoppedEmpty(s, e);
  }

  lemma PushCore(s: State, e: nat)
    requires Core(s) && Enabled(s, Push(e))
    ensures Core(Do(s, Push(e)))
  {
    hide CountOk, LockOk, KnownOk, HandlesOk, ShutOk, AlarmOk, Notified;
    var p := DoPush(s, e).submits[e];
    KnownPut(s.workers, s.submits, s.submitted, s.stoppers, s.nextId, 0, Top, e, p, 0, Stopping);
    LockPut(s.locked, s.stopped, s.submits, e, p);
    NotifiedSubmit(s.workers, s.tasks, s.submits, e, p);
    LockHeld(s.locked, s.stopped, s.submits, e);
    CountPush(s.cfg, s.count, s.workers, s.tasks, e);
  }

  /** Notifying wakes one sleeper, if there is any, for the one pending notification. */
  lemma NotifyNotified(s: State, l: Label)
    requires Notified(s.workers, s.tasks, s.submits) && Enabled(s, l) && (l.NotifyOne? || l.NotifyNobody?)
    ensures Notified(Do(s, l).workers, s.tasks, Do(s, l).submits)
  {
    if l.NotifyOne? { NotifiedPut(s.workers, s.tasks, s.submits, l.w, Woken(false)); }
    NotifiedSubmit(s.workers, s.tasks, s.submits, l.e, Spawning);
    assert l.NotifyNobody? ==> Sleepers(s.workers) == {};
  }

  lemma NotifyOneCore(s: State, e: nat, w: nat)
    requires Core(s) && Enabled(s, NotifyOne(e, w))
    ensures Core(Do(s, NotifyOne(e, w)))
  {
    hide CountOk, LockOk, KnownOk, HandlesOk, ShutOk, AlarmOk, Notified;
    KnownPut(s.workers, s.submits, s.submitted, s.stoppers, s.nextId, w, Woken(false), e, Spawning, 0, Stopping);
    KnownPut(s.workers[w := Woken(false)], s.submits, s.submitted, s.stoppers, s.nextId, 0, Top, e, Spawning, 0, Stopping);
    LockPut(s.locked, s.stopped, s.submits, e, Spawning);
    CountPut(s.cfg, s.count, s.workers, s.stopped, s.tasks, w, Woken(false));
    HandlesPut(s.workers, s.registered, s.reap, s.taken, s.joined, w, Woken(false));
    AlarmPut(s.workers, s.stopped, s.stoppers, w, Woken(false));
    NotifyNotified(s, NotifyOne(e, w));
  }

  lemma StillNotifying(s: State, e: nat)
    requires Enabled(s, NotifyNobody(e))
    ensures e in s.submits && s.submits[e].Notifying?
  {}

  lemma NotifyNobodyCore(s: State, e: nat)
    requires Core(s) && Enabled(s, NotifyNobody(e))
    ensures Core(Do(s, NotifyNobody(e)))
  {
    hide CountOk, LockOk, KnownOk, HandlesOk, ShutOk, EmptiedOk, AlarmOk, Notified, Sleepers, Enabled;
    StillNotifying(s, e);
    KnownPut(s.workers, s.submits, s.submitted, s.stoppers, s.nextId, 0, Top, e, Spawning, 0, Stopping);
    LockPut(s.locked, s.stopped, s.submits, e, Spawning);
    NotifyNotified(s, NotifyNobody(e));
  }

  lemma SpawnCore(s: State, e: nat)
    requires Core(s) && Enabled(s, Spawn(e))
    ensures Core(Do(s, Spawn(e)))
  {
    hide CountOk, LockOk, KnownOk, HandlesOk, ShutOk, AlarmOk, Notified;
    KnownPut(s.workers, s.submits, s.submitted, s.stoppers, s.nextId, 0, Top, e, Arriving, 0, Stopping);
    KnownPut(s.workers, s.submits - {e}, s.submitted, s.stoppers, s.nextId, 0, Top, 0, Arriving, 0, Stopping);
    LockPut(s.locked, s.stopped, s.submits, e, Spawning);
    NotifiedSubmit(s.workers, s.tasks, s.submits, e, Spawning);
    if !s.stopped && Crowded(s) {
      CountSpawn(s.cfg, s.count, s.workers, s.stopped, s.tasks, s.nextId);
      HandlesSpawn(s.workers, s.registered, s.reap, s.taken, s.joined, s.nextId);
      AlarmPut(s.workers, s.stopped, s.stoppers, s.nextId, Top);
      NotifiedSpawn(s.workers, s.tasks, s.submits - {e}, s.nextId);
      NotStopped(s.stoppers, s.stopped, s.collected, s.finished);
    }
  }

  lemma TakeTaskCore(s: State, w: nat)
    requires Core(s) && Enabled(s, Look(w)) && s.tasks != []
    ensures Core(Do(s, Look(w)))
  {
    hide CountOk, LockOk, KnownOk, HandlesOk, ShutOk, AlarmOk, Notified;
    var p := Busy(s.tasks[0]);
    KnownPut(s.workers, s.submits, s.submitted, s.stoppers, s.nextId, w, p, 0, Arriving, 0, Stopping);
    CountPut(s.cfg, s.count, s.workers, s.stopped, s.tasks, w, p);
    HandlesPut(s.workers, s.registered, s.reap, s.taken, s.joined, w, p);
    AlarmPut(s.workers, s.stopped, s.stoppers, w, p);
    NotifiedPut(s.workers, s.tasks, s.submits, w, p);
  }

  lemma SignOffCore(s: State, w: nat)
    requires Core(s) && Enabled(s, Look(w)) && DoLook(s, w) == SignOff(s, w) && s.tasks == []
    requires s.stopped || s.count > s.cfg.minThreads
    ensures Core(Do(s, Look(w)))
  {
    hide CountOk, LockOk, KnownOk, HandlesOk, ShutOk, AlarmOk, Notified;
    KnownPut(s.workers, s.submits, s.submitted, s.stoppers, s.nextId, w, Exiting, 0, Arriving, 0, Stopping);
    CountSignOff(s.cfg, s.count, s.workers, s.stopped, w);
    HandlesSignOff(s.workers, s.registered, s.reap, s.taken, s.joined, w);
    if s.collected { SignedOffUnregistered(s, w); }
    AlarmPut(s.workers, s.stopped, s.stoppers, w, Exiting);
    NotifiedPut(s.workers, s.tasks, s.submits, w, Exiting);
  }

  lemma WaitCore(s: State, w: nat)
    requires Core(s) && Enabled(s, Look(w)) && DoLook(s, w) == SetWorker(s, w, if s.workers[w] == Woken(true) then Top else Blocked)
    requires s.tasks == [] && !s.stopped
    ensures Core(Do(s, Look(w)))
  {
    hide CountOk, LockOk, KnownOk, HandlesOk, ShutOk, AlarmOk, Notified;
    var p := if s.workers[w] == Woken(true) then Top else Blocked;
    KnownPut(s.workers, s.submits, s.submitted, s.stoppers, s.nextId, w, p, 0, Arriving, 0, Stopping);
    CountPut(s.cfg, s.count, s.workers, s.stopped, s.tasks, w, p);
    HandlesPut(s.workers, s.registered, s.reap, s.taken, s.joined, w, p);
    AlarmPut(s.workers, s.stopped, s.stoppers, w, p);
    NotifiedPut(s.workers, s.tasks, s.submits, w, p);
  }

  lemma LookCore(s: State, w: nat)
    requires Core(s) && Enabled(s, Look(w))
    ensures Core(Do(s, Look(w)))
  {
    hide CountOk, LockOk, KnownOk, HandlesOk, ShutOk, EmptiedOk, AlarmOk, Notified;
    if s.tasks != [] {
      TakeTaskCore(s, w);
    } else if s.stopped || (s.workers[w] == Woken(true) && s.count > s.cfg.minThreads) {
      SignOffCore(s, w);
    } else {
      WaitCore(s, w);
    }
  }

  lemma RouseCore(s: State, w: nat, timedOut: bool)
    requires Core(s) && Enabled(s, Rouse(w, timedOut))
    ensures Core(Do(s, Rouse(w, timedOut)))
  {
    hide CountOk, LockOk, KnownOk, HandlesOk, ShutOk, AlarmOk, Notified;
    var p := Woken(timedOut);
    KnownPut(s.workers, s.submits, s.submitted, s.stoppers, s.nextId, w, p, 0, Arriving, 0, Stopping);
    CountPut(s.cfg, s.count, s.workers, s.stopped, s.tasks, w, p);
    HandlesPut(s.workers, s.registered, s.reap, s.taken, s.joined, w, p);
    AlarmPut(s.workers, s.stopped, s.stoppers, w, p);
    NotifiedPut(s.workers, s.tasks, s.submits, w, p);
  }

  lemma FinishCore(s: State, w: nat)
    requires Core(s) && Enabled(s, Finish(w))
    ensures Core(Do(s, Finish(w)))
  {
    hide CountOk, LockOk, KnownOk, HandlesOk, ShutOk, AlarmOk, Notified;
    KnownPut(s.workers, s.submits, s.submitted, s.stoppers, s.nextId, w, Top, 0, Arriving, 0, Stopping);
    CountPut(s.cfg, s.count, s.workers, s.stopped, s.tasks, w, Top);
    HandlesPut(s.workers, s.registered, s.reap, s.taken, s.joined, w, Top);
    AlarmPut(s.workers, s.stopped, s.stoppers, w, Top);
    NotifiedPut(s.workers, s.tasks, s.submits, w, Top);
  }

  lemma DieCore(s: State, w: nat)
    requires Core(s) && Enabled(s, Die(w))
    ensures Core(Do(s, Die(w)))
  {
    hide CountOk, LockOk, KnownOk, HandlesOk, ShutOk, AlarmOk, Notified;
    KnownPut(s.workers, s.submits, s.submitted, s.stoppers, s.nextId, w, Dead, 0, Arriving, 0, Stopping);
    CountPut(s.cfg, s.count, s.workers, s.stopped, s.tasks, w, Dead);
    HandlesPut(s.workers, s.registered, s.reap, s.taken, s.joined, w, Dead);
    AlarmPut(s.workers, s.stopped, s.stoppers, w, Dead);
    NotifiedPut(s.workers, s.tasks, s.submits, w, Dead);
  }

  lemma BeginStopCore(s: State)
    requires Core(s) && Enabled(s, BeginStop)
    ensures Core(Do(s, BeginStop))
  {
    hide CountOk, LockOk, KnownOk, HandlesOk, ShutOk, AlarmOk, Notified;
    KnownPut(s.workers, s.submits, s.submitted, s.stoppers, s.nextId, 0, Top, 0, Arriving, 0, Stopping);
    AlarmStopper(s.workers, s.stopped, s.stoppers, s.nextId, Stopping);
    ShutBegin(s.stoppers, s.stopped, s.collected, s.finished, s.nextId);
  }

  lemma StopCore(s: State, k: nat)
    requires Core(s) && Enabled(s, Stop(k))
    ensures Core(Do(s, Stop(k)))
  {
    hide CountOk, LockOk, KnownOk, HandlesOk, ShutOk, AlarmOk, Notified;
    KnownPut(s.workers, s.submits, s.submitted, s.stoppers, s.nextId, 0, Top, 0, Arriving, k, Waking);
    LockPut(s.locked, s.stopped, s.submits, 0, Arriving);
    AlarmStopper(s.workers, s.stopped, s.stoppers, k, Waking);
    CountStop(s.cfg, s.count, s.workers, s.stopped, s.tasks);
    ShutWin(s.stoppers, s.stopped, s.collected, s.finished, k);
  }

  lemma WakeAllCore(s: State, k: nat)
    requires Core(s) && Enabled(s, WakeAll(k))
    ensures Core(Do(s, WakeAll(k)))
  {
    hide CountOk, LockOk, KnownOk, HandlesOk, ShutOk, AlarmOk, Notified;
    KnownPut(s.workers, s.submits, s.submitted, s.stoppers, s.nextId, 0, Top, 0, Arriving, k, Taking);
    KnownPut(WakeBlocked(s.workers), s.submits, s.submitted, s.stoppers, s.nextId, 0, Top, 0, Arriving, k, Taking);
    CountWake(s.cfg, s.count, s.workers, s.stopped, s.tasks);
    HandlesWake(s.workers, s.registered, s.reap, s.taken, s.joined);
    WakeSets(s.workers);
    AlarmPut(s.workers, s.stopped, s.stoppers, 0, Top);
    AlarmStopper(WakeBlocked(s.workers), s.stopped, s.stoppers, k, Taking);
    NotifiedWake(s.workers, s.tasks, s.submits);
    ShutMove(s.stoppers, s.stopped, s.collected, s.finished, k);
  }

  lemma TakeAllCore(s: State, k: nat)
    requires Core(s) && Enabled(s, TakeAll(k))
    ensures Core(Do(s, TakeAll(k)))
  {
    hide CountOk, LockOk, KnownOk, HandlesOk, ShutOk, AlarmOk, Notified;
    KnownPut(s.workers, s.submits, s.submitted, s.stoppers, s.nextId, 0, Top, 0, Arriving, k, Joining);
    HandlesTakeAll(s.workers, s.registered, s.reap, s.taken, s.joined);
    AlarmStopper(s.workers, s.stopped, s.stoppers, k, Joining);
    ShutMove(s.stoppers, s.stopped, s.collected, s.finished, k);
  }

  lemma JoinOneCore(s: State, k: nat, w: nat)
    requires Core(s) && Enabled(s, JoinOne(k, w))
    ensures Core(Do(s, JoinOne(k, w)))
  {
    hide CountOk, LockOk, KnownOk, HandlesOk, ShutOk, AlarmOk, Notified;
    HandlesJoin(s.workers, s.registered, s.reap, s.taken, s.joined, w);
    ShutMove(s.stoppers, s.stopped, s.collected, s.finished, k);
  }

  lemma ReturnCore(s: State, k: nat)
    requires Core(s) && Enabled(s, Return(k))
    ensures Core(Do(s, Return(k)))
  {
    hide CountOk, LockOk, KnownOk, HandlesOk, ShutOk, AlarmOk, Notified;
    KnownPut(s.workers, s.submits, s.submitted, s.stoppers, s.nextId, 0, Top, 0, Arriving, k, Stopping);
    AlarmStopper(s.workers, s.stopped, s.stoppers, k, Stopping);
    ShutMove(s.stoppers, s.stopped, s.collected, s.finished, k);
  }

  lemma StoppedEmpty(s: State, e: nat)
    requires Core(s) && e in s.submits && s.submits[e].Reaping?
    ensures !s.collected
  {}

  lemma LockHeld(locked: bool, stopped: bool, es: map<nat, Submit>, e: nat)
    requires LockOk(locked, stopped, es) && e in es && es[e].Reaping?
    ensures locked && !stopped
  {}

  lemma NotStopped(ks: map<nat, Stopper>, stopped: bool, collected: bool, finished: bool)
    requires ShutOk(ks, stopped, collected, finished) && !stopped
    ensures !collected && !finished
  {}

  lemma SignedOffUnregistered(s: State, w: nat)
    requires EmptiedOk(s.collected, s.finished, s.registered, s.reap, s.taken) && s.collected
    ensures w !in s.registered
  {}

  lemma ShutBegin(ks: map<nat, Stopper>, stopped: bool, collected: bool, finished: bool, k: nat)
    requires ShutOk(ks, stopped, collected, finished) && k !in ks
    ensures ShutOk(ks[k := Stopping], stopped, collected, finished)
  {}

  lemma ShutWin(ks: map<nat, Stopper>, stopped: bool, collected: bool, finished: bool, k: nat)
    requires ShutOk(ks, stopped, collected, finished) && k in ks && ks[k].Stopping?
    ensures ShutOk(ks - {k}, stopped, collected, finished)
    ensures !stopped ==> ShutOk(ks[k := Waking], true, collected, finished)
  {}

  lemma ShutMove(ks: map<nat, Stopper>, stopped: bool, collected: bool, finished: bool, k: nat)
    requires ShutOk(ks, stopped, collected, finished) && k in ks && !ks[k].Stopping?
    ensures collected <==> ks[k].Joining?
    ensures !collected ==> ShutOk(ks[k := Taking], stopped, collected, finished) && ShutOk(ks[k := Joining], stopped, true, finished)
    ensures collected ==> ShutOk(ks - {k}, stopped, collected, true)
    ensures !finished
  {}

  lemma StepCore(s: State, l: Label)
    requires Core(s) && Enabled(s, l)
    ensures Core(Do(s, l))
  {
    hide CountOk, LockOk, KnownOk, HandlesOk, ShutOk, EmptiedOk, AlarmOk, Notified;
    match l
    case Begin => BeginCore(s);
    case ReadStopped(e) => ReadStoppedCore(s, e);
    case Lock(e) => LockCore(s, e);
    case ReapOne(e, w) => ReapOneCore(s, e, w);
    case Push(e) => PushCore(s, e);
    case NotifyOne(e, w) => NotifyOneCore(s, e, w);
    case NotifyNobody(e) => NotifyNobodyCore(s, e);
    case Spawn(e) => SpawnCore(s, e);
    case Look(w) => LookCore(s, w);
    case Rouse(w, timedOut) => RouseCore(s, w, timedOut);
    case Finish(w) => FinishCore(s, w);
    case Die(w) => DieCore(s, w);
    case BeginStop => BeginStopCore(s);
    case Stop(k) => StopCore(s, k);
    case WakeAll(k) => WakeAllCore(s, k);
    case TakeAll(k) => TakeAllCore(s, k);
    case JoinOne(k, w) => JoinOneCore(s, k, w);
    case Return(k) => ReturnCore(s, k);
  }

  // ------------------------------------------------------------------- tasks

  lemma BusyPut(ws: map<nat, Worker>, w: nat, p: Worker, t: nat)
    ensures |BusyWith(ws[w := p], t)| == |BusyWith(ws, t)| + One(p == Busy(t)) - One(w in ws && ws[w] == Busy(t))
  {
    PutBusy(ws, w, p, t);
    assert w in BusyWith(ws, t) <==> w in ws && ws[w] == Busy(t);
  }

  lemma BeginPlaced(s: State, t: nat)
    requires Placed(s, t) && s.nextId !in s.submitted && s.nextId !in s.submits
    ensures Placed(DoBegin(s), t)
  {}

  lemma InlinePlaced(s: State, e: nat, t: nat)
    requires Placed(s, t) && Holding(s.submits, e)
    ensures Placed(RunInline(s, e), t)
  {
    CountEnd(s.ran, e, t);
  }

  lemma HeldPlaced(s: State, e: nat, p: Submit, locked: bool, t: nat)
    requires Placed(s, t) && Holding(s.submits, e) && (p.Locking? || p.Reaping?)
    ensures Placed(s.(submits := s.submits[e := p]), t) && Placed(s.(submits := s.submits[e := p], locked := locked), t)
  {}

  lemma PushPlaced(s: State, e: nat, t: nat)
    requires Placed(s, t) && Holding(s.submits, e)
    ensures Placed(DoPush(s, e), t)
  {
    CountEnd(s.tasks, e, t);
  }

  lemma NotifyPlaced(s: State, e: nat, t: nat)
    requires Placed(s, t) && e in s.submits && s.submits[e].Notifying?
    ensures Placed(AfterNotify(s, e), t)
  {}

  /** A worker that neither takes up nor ends a task. */
  lemma PhasePlaced(s: State, w: nat, p: Worker, t: nat)
    requires Placed(s, t) && !p.Busy? && w in s.workers && !s.workers[w].Busy?
    ensures Placed(SetWorker(s, w, p), t)
    ensures s.count > 0 && p.Exiting? ==> Placed(SignOff(s, w), t)
  {
    BusyPut(s.workers, w, p, t);
  }

  lemma TakePlaced(s: State, w: nat, t: nat)
    requires Placed(s, t) && s.tasks != [] && w in s.workers && !s.workers[w].Busy?
    ensures Placed(TakeTask(s, w), t)
  {
    BusyPut(s.workers, w, Busy(s.tasks[0]), t);
    CountHead(s.tasks, t);
  }

  lemma FinishPlaced(s: State, w: nat, t: nat)
    requires Placed(s, t) && Enabled(s, Finish(w))
    ensures Placed(DoFinish(s, w), t)
  {
    BusyPut(s.workers, w, Top, t);
    CountEnd(s.ran, s.workers[w].task, t);
  }

  lemma LookPlaced(s: State, w: nat, t: nat)
    requires Placed(s, t) && Enabled(s, Look(w))
    ensures Placed(DoLook(s, w), t)
  {
    hide Placed;
    if s.tasks != [] {
      TakePlaced(s, w, t);
    } else {
      PhasePlaced(s, w, Top, t);
      PhasePlaced(s, w, Blocked, t);
      PhasePlaced(s, w, Exiting, t);
    }
  }

  lemma OtherPlaced(s: State, l: Label, t: nat)
    requires Placed(s, t) && Enabled(s, l) && s.nextId !in s.workers
    requires l.ReapOne? || l.Spawn? || l.BeginStop? || l.Stop? || l.WakeAll? || l.TakeAll? || l.JoinOne? || l.Return?
    ensures Placed(Do(s, l), t)
  {
    hide BusyWith, Crowded, Holding;
    if l.WakeAll? {
      WakeBusy(s.workers, t);
    } else if l.Spawn? {
      SpawnPlaced(s, l.e, t);
    }
  }

  lemma SpawnPlaced(s: State, e: nat, t: nat)
    requires Placed(s, t) && Enabled(s, Spawn(e)) && s.nextId !in s.workers
    ensures Placed(DoSpawn(s, e), t)
  {
    hide BusyWith, Crowded;
    BusyPut(s.workers, s.nextId, Top, t);
  }

  lemma StepPlaced(s: State, l: Label, t: nat)
    requires Core(s) && Placed(s, t) && Enabled(s, l)
    ensures Placed(Do(s, l), t)
  {
    hide Placed, CountOk, LockOk, HandlesOk, ShutOk, EmptiedOk, AlarmOk, Notified;
    KnownPut(s.workers, s.submits, s.submitted, s.stoppers, s.nextId, 0, Top, 0, Arriving, 0, Stopping);
    match l
    case Begin => BeginPlaced(s, t);
    case ReadStopped(e) => if s.stopped { InlinePlaced(s, e, t); } else { HeldPlaced(s, e, Locking, s.locked, t); }
    case Lock(e) => if s.stopped { InlinePlaced(s, e, t); } else { HeldPlaced(s, e, Reaping, true, t); }
    case Push(e) => PushPlaced(s, e, t);
    case NotifyOne(e, w) => NotifyPlaced(s, e, t); PhasePlaced(AfterNotify(s, e), w, Woken(false), t);
    case NotifyNobody(e) => NotifyPlaced(s, e, t);
    case Look(w) => LookPlaced(s, w, t);
    case Rouse(w, timedOut) => PhasePlaced(s, w, Woken(timedOut), t);
    case Finish(w) => FinishPlaced(s, w, t);
    case Die(w) => PhasePlaced(s, w, Dead, t);
    case _ => OtherPlaced(s, l, t);
  }

  lemma StepInv(s: State, l: Label)
    requires Inv(s) && Enabled(s, l)
    ensures Inv(Do(s, l))
  {
    hide Core;
    StepCore(s, l);
    forall t: nat
      ensures Placed(Do(s, l), t)
    {
      StepPlaced(s, l, t);
    }
  }

  // -------------------------------------------------------------- whole runs

  lemma {:induction false} RunInv(s: State, run: seq<Label>)
    requires Inv(s) && Valid(s, run)
    ensures Inv(Run(s, run))
    decreases |run|
  {
    if run != [] {
      StepInv(s, run[0]);
      RunInv(Do(s, run[0]), run[1..]);
    }
  }

  ghost predicate Reachable(s: State) {
    exists c, run :: ReachedBy(s, c, run)
  }

  ghost predicate ReachedBy(s: State, c: Config, run: seq<Label>) {
    Valid(Init(c), run) && Run(Init(c), run) == s
  }

  lemma {:induction false} RunStep(s: State, run: seq<Label>, l: Label)
    requires Valid(s, run) && Enabled(Run(s, run), l)
    ensures Valid(s, run + [l]) && Run(s, run + [l]) == Do(Run(s, run), l)
    decreases |run|
  {
    hide Do, Enabled;
    if run == [] {
      assert [l][1..] == [];
    } else {
      assert (run + [l])[1..] == run[1..] + [l];
      RunStep(Do(s, run[0]), run[1..], l);
    }
  }

  lemma ReachableStep(s: State, l: Label)
    requires Reachable(s) && Enabled(s, l)
    ensures Reachable(Do(s, l))
  {
    hide Do, Enabled;
    var c, run :| ReachedBy(s, c, run);
    RunStep(Init(c), run, l);
    assert ReachedBy(Do(s, l), c, run + [l]);
  }

  lemma ReachableInv(s: State)
    requires Reachable(s)
    ensures Inv(s)
  {
    var c, run :| ReachedBy(s, c, run);
    InitInv(c);
    RunInv(Init(c), run);
  }

  /** From construction until the stop the pool keeps within its limits, and
      `worker_count_` is the number of live workers. */
  lemma WithinLimits(s: State)
    requires Reachable(s)
    ensures s.count == |Live(s.workers)| <= s.cfg.maxThreads
    ensures !s.stopped ==> 0 < s.cfg.minThreads <= s.count
    ensures s.tasks != [] ==> s.count > 0
  {
    ReachableInv(s);
  }

  /** A sleeping worker and a queued task: a notification or a woken worker is ahead;
      a sleeping worker and a stopped pool: the notify_all is. */
  lemma NoLostWakeup(s: State)
    requires Reachable(s) && Sleepers(s.workers) != {}
    ensures |s.tasks| <= |Notifiers(s.submits)| + |Risen(s.workers)|
    ensures s.stopped ==> exists k :: k in s.stoppers && s.stoppers[k].Waking?
  {
    ReachableInv(s);
  }

  /** No task runs twice, at any time. */
  lemma AtMostOnce(s: State, t: nat)
    requires Reachable(s)
    ensures multiset(s.ran)[t] + |BusyWith(s.workers, t)| + multiset(s.tasks)[t] <= One(t in s.submitted)
  {
    ReachableInv(s);
    assert Placed(s, t);
  }

  /** Draining shutdown: once the winning `Shutdown` and all `Enqueue_` calls have
      returned, every submitted task ran exactly once, every spawned thread is over and
      was joined exactly once, and `worker_count_` is 0. */
  lemma ShutdownDrains(s: State)
    requires Reachable(s) && s.finished && s.submits == map[]
    ensures forall t: nat :: multiset(s.ran)[t] == One(t in s.submitted)
    ensures forall w: nat :: s.joined[w] == One(w in s.workers)
    ensures forall w | w in s.workers :: s.workers[w].Dead?
    ensures s.count == 0 && s.tasks == []
  {
    ReachableInv(s);
    assert s.registered == {} && s.reap == {} && s.taken == {};
    forall w | w in s.workers
      ensures s.workers[w].Dead?
    {
      assert s.joined[w] == 1;
    }
    assert Live(s.workers) == {};
    forall t: nat
      ensures multiset(s.ran)[t] == One(t in s.submitted)
    {
      assert Placed(s, t);
      assert BusyWith(s.workers, t) == {};
    }
  }
}
