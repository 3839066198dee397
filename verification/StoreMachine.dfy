/** `MmapStore` under every interleaving: producers in `Append`, flushers in `Flush`,
    and the strand that runs `DrainOne_`. A buffer operation, an atomic, a critical
    section and each wait or notify is one step; `mtx_` is the `section` field, which
    is split where threads that do not take the lock can see between its atomics. */
module StoreMachine {
  import opened Framing

  /** A payload with the `Append` call it came from. */
  datatype Frame = Frame(call: nat, payload: Payload)

  datatype Buf = Buf(frames: seq<Frame>, offset: nat, sealed: bool)

  datatype Config = Config(capacity: nat, minBuffers: nat, maxBuffers: nat)

  /** The constructor's defaults. */
  function Normalise(c: Config): (r: Config)
    ensures 0 < r.minBuffers <= r.maxBuffers && r.capacity > 0
    ensures 0 < c.minBuffers <= c.maxBuffers && c.capacity > 0 ==> r == c
    ensures c.minBuffers == 0 ==> r.minBuffers == 2
    ensures c.maxBuffers < r.minBuffers ==> r.maxBuffers == r.minBuffers
    ensures c.capacity == 0 ==> r.capacity == 0x40_0000
  {
    var lo := if c.minBuffers == 0 then 2 else c.minBuffers;
    Config(if c.capacity == 0 then 4 * 1024 * 1024 else c.capacity, lo, if c.maxBuffers < lo then lo else c.maxBuffers)
  }

  /** Who is in `SwapMasterLocked_`; a flush is owed the frames of `Owed` when it began. */
  datatype Who = Producer(f: Frame) | Flusher(owed: set<Frame>)

  datatype Call =
    | Loading(f: Frame)                            // about to load master_
    | Writing(f: Frame, cur: nat)                  // about to call cur->Write
    | Locking(f: Frame, cur: nat)                  // Write failed; about to take mtx_
    | Asleep(who: Who)                             // blocked in free_cv_
    | Woken(who: Who, timedOut: bool)              // awake, about to retake mtx_
    | FlushEntry(owed: set<Frame>)               // about to take mtx_ the first time
    | FlushTest(owed: set<Frame>)                // about to take mtx_ and test in_flight_
    | FlushAsleep(owed: set<Frame>)              // blocked in flush_cv_

  /** The holder of `mtx_` inside `SwapMasterLocked_`. */
  datatype Section =
    | Unlocked
    | Exchanging(c: nat, who: Who, next: nat)      // has a buffer, about to swap it in
    | Counting(c: nat, who: Who, prior: nat)       // about to raise in_flight_
    | Posting(c: nat, who: Who, prior: nat)        // about to post the drain task

  /** The drain task the strand is running. */
  datatype Drain =
    | Idle
    | Sealing(b: nat)
    | Walking(b: nat, k: nat)                      // sealed; `k` frames handed over
    | Returning(b: nat)                            // reset; about to push to free_
    | NotifyingFree
    | Subtracting
    | NotifyingFlush

  datatype State = State(
    cfg: Config,
    bufs: seq<Buf>,                                // pool_
    free: seq<nat>,
    master: nat,
    inFlight: nat,
    strand: seq<nat>,                              // posted drain tasks, first in first out
    drain: Drain,
    section: Section,
    calls: map<nat, Call>,
    nextCall: nat,
    accepted: seq<Frame>,                          // Writes that succeeded, in that order
    persisted: seq<Frame>,                         // handed to on_persist, in that order
    stray: set<Frame>)                             // accepted by a buffer that was off the path

  datatype Label =
    | BeginAppend(p: Payload) | LoadMaster(c: nat) | TryWrite(c: nat) | LockAppend(c: nat)
    | BeginFlush | LockFlush(c: nat) | TestFlush(c: nat) | FlushSpurious(c: nat)
    | Rouse(c: nat, timedOut: bool) | Resume(c: nat)
    | Exchange | Count | Post
    | StartDrain | SealBuf | Persist | ResetBuf | ReturnBuf
    | NotifyOne(c: nat) | NotifyNobody | Subtract | NotifyFlush

  const FRESH_BUF := Buf([], 0, false)

  function Init(c: Config): State {
    var cfg := Normalise(c);
    State(cfg, seq(cfg.minBuffers, _ => FRESH_BUF), seq(cfg.minBuffers - 1, i => i + 1), 0, 0, [], Idle, Unlocked,
          map[], 0, [], [], {})
  }

  /** `Write` as one step: what it does to the buffer, and whether it returns true. */
  function WriteTo(cap: nat, b: Buf, f: Frame): (Buf, bool) {
    var end := b.offset + 4 + |f.payload|;
    if !Storable(f.payload) || b.sealed then (b, false)
    else if end > cap then (b.(offset := end), false)
    else (b.(offset := end, frames := b.frames + [f]), true)
  }

  /** Reset and put aside: in `free_`, or on the way there. */
  predicate Parked(s: State, b: nat) {
    b in s.free || (s.drain.Returning? && s.drain.b == b)
  }

  /** Reset and not master again: where a `Write` through a stale pointer goes astray. */
  predicate OffPath(s: State, b: nat) {
    Parked(s, b) || (s.section.Exchanging? && s.section.next == b)
  }

  /** Accepted by a parked buffer, which no flush looks at. */
  predicate Missed(s: State, f: Frame) {
    exists b :: 0 <= b < |s.bufs| && Parked(s, b) && f in s.bufs[b].frames
  }

  /** What a `Flush` that begins now has to see through to `on_persist`. */
  function Owed(s: State): set<Frame> {
    set f | f in s.accepted && !Missed(s, f)
  }

  predicate Enabled(s: State, l: Label) {
    match l
    case BeginAppend(p) => p != []
    case LoadMaster(c) => c in s.calls && s.calls[c].Loading?
    case TryWrite(c) => c in s.calls && s.calls[c].Writing? && s.calls[c].cur < |s.bufs|
    case LockAppend(c) => c in s.calls && s.calls[c].Locking? && s.section.Unlocked?
    case BeginFlush => true
    case LockFlush(c) => c in s.calls && s.calls[c].FlushEntry? && s.section.Unlocked? && s.master < |s.bufs|
    case TestFlush(c) => c in s.calls && s.calls[c].FlushTest? && s.section.Unlocked?
    case FlushSpurious(c) => c in s.calls && s.calls[c].FlushAsleep?
    case Rouse(c, timedOut) => c in s.calls && s.calls[c].Asleep? && (timedOut ==> s.calls[c].who.Producer?)
    case Resume(c) => c in s.calls && s.calls[c].Woken? && s.section.Unlocked?
    case Exchange => s.section.Exchanging?
    case Count => s.section.Counting?
    case Post => s.section.Posting?
    case StartDrain => s.drain.Idle? && s.strand != []
    case SealBuf => s.drain.Sealing? && s.drain.b < |s.bufs|
    case Persist => s.drain.Walking? && s.drain.b < |s.bufs| && s.drain.k < |s.bufs[s.drain.b].frames|
    case ResetBuf => s.drain.Walking? && s.drain.b < |s.bufs| && s.drain.k >= |s.bufs[s.drain.b].frames|
    case ReturnBuf => s.drain.Returning? && s.section.Unlocked?
    case NotifyOne(c) => s.drain.NotifyingFree? && c in s.calls && s.calls[c].Asleep?
    case NotifyNobody => s.drain.NotifyingFree? && forall c | c in s.calls :: !s.calls[c].Asleep?
    case Subtract => s.drain.Subtracting? && s.inFlight > 0
    case NotifyFlush => s.drain.NotifyingFlush? && s.section.Unlocked?
  }

  /** Take a buffer from `free_`; the caller now holds `mtx_`. */
  function Take(s: State, c: nat, who: Who): State
    requires s.free != []
  {
    s.(free := s.free[1..], section := Exchanging(c, who, s.free[0]), calls := s.calls - {c})
  }

  /** The head of `AcquireFreeBufferLocked_`: take, grow the pool, or go to sleep. */
  function Acquire(s: State, c: nat, who: Who): State {
    if s.free != [] then Take(s, c, who)
    else if |s.bufs| < s.cfg.maxBuffers then
      s.(bufs := s.bufs + [FRESH_BUF], section := Exchanging(c, who, |s.bufs|), calls := s.calls - {c})
    else s.(calls := s.calls[c := Asleep(who)])
  }

  function DoTryWrite(s: State, c: nat): State
    requires Enabled(s, TryWrite(c))
  {
    var f, cur := s.calls[c].f, s.calls[c].cur;
    var (b, ok) := WriteTo(s.cfg.capacity, s.bufs[cur], f);
    if ok then
      s.(bufs := s.bufs[cur := b], calls := s.calls - {c}, accepted := s.accepted + [f],
         stray := if OffPath(s, cur) then s.stray + {f} else s.stray)
    else s.(bufs := s.bufs[cur := b], calls := s.calls[c := Locking(f, cur)])
  }

  function DoLockAppend(s: State, c: nat): State
    requires Enabled(s, LockAppend(c))
  {
    if s.master != s.calls[c].cur then s.(calls := s.calls[c := Loading(s.calls[c].f)])
    else Acquire(s, c, Producer(s.calls[c].f))
  }

  function DoLockFlush(s: State, c: nat): State
    requires Enabled(s, LockFlush(c))
  {
    if s.bufs[s.master].offset > 0 then Acquire(s, c, Flusher(s.calls[c].owed))
    else s.(calls := s.calls[c := FlushTest(s.calls[c].owed)])
  }

  /** The rest of the wait, once awake and holding the lock; a producer that timed
      out with nothing free gives up and its record is dropped. */
  function DoResume(s: State, c: nat): State
    requires Enabled(s, Resume(c))
  {
    if s.free != [] then Take(s, c, s.calls[c].who)
    else if s.calls[c].timedOut then s.(calls := s.calls - {c})
    else s.(calls := s.calls[c := Asleep(s.calls[c].who)])
  }

  function DoPost(s: State): State
    requires Enabled(s, Post)
  {
    var after := match s.section.who case Producer(f) => Loading(f) case Flusher(owed) => FlushTest(owed);
    s.(strand := s.strand + [s.section.prior], section := Unlocked, calls := s.calls[s.section.c := after])
  }

  function WakeFlushers(calls: map<nat, Call>): map<nat, Call> {
    map c | c in calls :: if calls[c].FlushAsleep? then FlushTest(calls[c].owed) else calls[c]
  }

  function Do(s: State, l: Label): State
    requires Enabled(s, l)
  {
    match l
    case BeginAppend(p) => s.(calls := s.calls[s.nextCall := Loading(Frame(s.nextCall, p))], nextCall := s.nextCall + 1)
    case LoadMaster(c) => s.(calls := s.calls[c := Writing(s.calls[c].f, s.master)])
    case TryWrite(c) => DoTryWrite(s, c)
    case LockAppend(c) => DoLockAppend(s, c)
    case BeginFlush => s.(calls := s.calls[s.nextCall := FlushEntry(Owed(s))], nextCall := s.nextCall + 1)
    case LockFlush(c) => DoLockFlush(s, c)
    case TestFlush(c) =>
      if s.inFlight == 0 then s.(calls := s.calls - {c}) else s.(calls := s.calls[c := FlushAsleep(s.calls[c].owed)])
    case FlushSpurious(c) => s.(calls := s.calls[c := FlushTest(s.calls[c].owed)])
    case Rouse(c, timedOut) => s.(calls := s.calls[c := Woken(s.calls[c].who, timedOut)])
    case Resume(c) => DoResume(s, c)
    case Exchange => s.(master := s.section.next, section := Counting(s.section.c, s.section.who, s.master))
    case Count => s.(inFlight := s.inFlight + 1, section := Posting(s.section.c, s.section.who, s.section.prior))
    case Post => DoPost(s)
    case StartDrain => s.(strand := s.strand[1..], drain := Sealing(s.strand[0]))
    case SealBuf => s.(bufs := s.bufs[s.drain.b := s.bufs[s.drain.b].(sealed := true)], drain := Walking(s.drain.b, 0))
    case Persist =>
      s.(persisted := s.persisted + [s.bufs[s.drain.b].frames[s.drain.k]], drain := Walking(s.drain.b, s.drain.k + 1))
    case ResetBuf => s.(bufs := s.bufs[s.drain.b := FRESH_BUF], drain := Returning(s.drain.b))
    case ReturnBuf => s.(free := s.free + [s.drain.b], drain := NotifyingFree)
    case NotifyOne(c) => s.(calls := s.calls[c := Woken(s.calls[c].who, false)], drain := Subtracting)
    case NotifyNobody => s.(drain := Subtracting)
    case Subtract => s.(inFlight := s.inFlight - 1, drain := if s.inFlight == 1 then NotifyingFlush else Idle)
    case NotifyFlush => s.(calls := WakeFlushers(s.calls), drain := Idle)
  }

  predicate Valid(s: State, run: seq<Label>)
    decreases |run|
  {
    run == [] || (Enabled(s, run[0]) && Valid(Do(s, run[0]), run[1..]))
  }

  function Run(s: State, run: seq<Label>): State
    requires Valid(s, run)
    decreases |run|
  {
    if run == [] then s else Run(Do(s, run[0]), run[1..])
  }
}
