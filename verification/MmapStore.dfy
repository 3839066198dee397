/** `MmapStore` as the code writes it: fields under one lock. Each call here runs alone,
    with the strand finishing drain tasks while the call waits, and moves a ghost copy
    of the interleaved machine one label per step. */
module MmapStore {
  import opened Framing
  import opened StoreMachine
  import opened StoreFrames
  import opened Wrappers
  import Store
  import F = StoreFlush
  import O = StoreOwnership
  import S = StoreOrder

  /** All that is known of a state that calls one at a time have led to. */
  ghost predicate Sound(s: State) {
    Store.Inv(s) && S.Solo(s) && S.CallOrder(s) && Store.OrderInv(s) && s.stray == {}
  }

  lemma InitSound(c: Config)
    ensures Sound(Init(c))
  {
    Store.InitInv(c);
  }

  lemma StepSound(s: State, l: Label)
    requires Sound(s) && Enabled(s, l) && S.Polite(s, l) && Do(s, l).stray == s.stray
    ensures Sound(Do(s, l))
  {
    hide Store.Inv, S.Solo, S.CallOrder, Store.OrderInv, Do, Enabled, S.Polite;
    Store.StepInv(s, l);
    UnfoldInv(s);
    S.StepSolo(s, l);
    S.StepCallOrder(s, l);
    Store.StepOrder(s, l);
  }

  lemma UnfoldInv(s: State)
    requires Store.Inv(s)
    ensures O.Inv(s) && O.Partition(s) && O.CallsKnown(s) && O.InFlightExact(s) && CursorOk(s) && Identified(s) && F.OffsetOk(s)
  {}

  /** Nobody holds the lock and no drain task is under way. */
  predicate Calm(s: State) {
    s.section.Unlocked? && s.drain.Idle?
  }

  lemma MasterFacts(s: State)
    requires Sound(s) && Calm(s)
    ensures s.master < |s.bufs| && !OffPath(s, s.master) && !s.bufs[s.master].sealed
    ensures s.bufs[s.master].offset == 0 ==> s.bufs[s.master].frames == []
  {
    UnfoldInv(s);
    O.OwnedInPool(s, s.master);
    assert O.Owners(s, s.master) == 1;
  }

  lemma PostedFacts(s: State)
    requires Sound(s) && Calm(s) && s.strand != []
    ensures s.strand[0] < |s.bufs| && s.strand[0] != s.master && s.inFlight > 0 && s.strand[0] !in s.free
  {
    UnfoldInv(s);
    O.OwnedInPool(s, s.strand[0]);
    assert O.Owners(s, s.strand[0]) == 1;
    assert s.strand[0] in multiset(s.strand);
  }

  /** With two buffers or more, a pool that has none free has one queued for draining. */
  lemma SomethingPosted(s: State)
    requires Sound(s) && Calm(s) && s.free == [] && |s.bufs| >= 2
    ensures s.strand != []
  {
    UnfoldInv(s);
    var b := if s.master == 0 then 1 else 0;
    assert O.Owners(s, b) == 1;
  }

  lemma InFlightPosted(s: State)
    requires Sound(s) && Calm(s)
    ensures s.inFlight == |s.strand|
    ensures s.strand != [] ==> s.strand[0] != s.master
  {
    UnfoldInv(s);
    if s.strand != [] { PostedFacts(s); }
  }

  lemma FreeFacts(s: State, i: nat)
    requires Sound(s) && Calm(s) && i < |s.free|
    ensures s.free[i] < |s.bufs| && s.free[i] != s.master
  {
    UnfoldInv(s);
    assert s.free[i] in multiset(s.free);
    O.OwnedInPool(s, s.free[i]);
    assert O.Owners(s, s.free[i]) == 1;
  }

  /** Nothing is queued and the master is empty: all that was accepted was delivered. */
  lemma AllDelivered(s: State)
    requires Sound(s) && Calm(s) && s.inFlight == 0 && s.bufs[s.master].offset == 0
    ensures s.persisted == s.accepted
  {
    UnfoldInv(s);
    MasterFacts(s);
    assert S.Path(s) == [s.master];
    assert S.Flat(Loads(s), [s.master]) == Loads(s)[s.master] + S.Flat(Loads(s), [s.master][1..]);
  }

  lemma MasterNotFree(s: State)
    requires Sound(s) && Calm(s)
    ensures s.master !in s.free
  {
    MasterFacts(s);
  }

  lemma PoolBound(s: State)
    requires Sound(s)
    ensures |s.bufs| <= s.cfg.maxBuffers
  {
    UnfoldInv(s);
  }

  /** The free buffers are as a new one is. */
  predicate FreeFresh(pool: seq<Buf>, free: seq<nat>) {
    forall i | 0 <= i < |free| :: free[i] < |pool| && pool[free[i]] == FRESH_BUF
  }

  /** What the wake-ups of one drain task do to the single call in progress. */
  function Roused(call: Call, last: bool): Call {
    match call
    case Asleep(who) => Woken(who, false)
    case FlushAsleep(owed) => if last then FlushTest(owed) else call
    case _ => call
  }

  class MmapStore {
    const cfg: Config
    var pool: seq<Buf>
    var free: seq<nat>
    var master: nat
    var inFlight: nat
    var posted: seq<nat>          // DrainOne_ tasks on the strand
    var delivered: seq<Frame>     // what on_persist was given
    var nextCall: nat
    ghost var st: State

    ghost predicate Mirrors()
      reads this
    {
      && Sound(st)
      && st.cfg == cfg && st.bufs == pool && st.free == free && st.master == master && st.inFlight == inFlight
      && st.strand == posted && st.persisted == delivered && st.nextCall == nextCall
      && FreeFresh(pool, free) && master < |pool|
    }

    ghost predicate Valid()
      reads this
    {
      Mirrors() && Calm(st) && st.calls == map[]
    }

    constructor (c: Config)
      ensures Valid() && cfg == Normalise(c) && st == Init(c)
    {
      cfg := Normalise(c);
      var n := Normalise(c).minBuffers;
      pool := seq(n, _ => FRESH_BUF);
      free := seq(n - 1, i => i + 1);
      master, inFlight, posted, delivered, nextCall := 0, 0, [], [], 0;
      st := Init(c);
      new;
      InitSound(c);
    }

    ghost method Step(l: Label)
      requires Sound(st) && Enabled(st, l) && S.Polite(st, l) && Do(st, l).stray == st.stray
      modifies `st
      ensures Sound(st) && st == Do(old(st), l)
    {
      StepSound(st, l);
      st := Do(st, l);
    }

    /** The strand runs one `DrainOne_`, while at most call `c` waits for it. */
    method DrainOne(ghost c: nat)
      requires Mirrors() && Calm(st) && posted != [] && (st.calls == map[] || st.calls.Keys == {c})
      modifies this
      ensures Mirrors() && Calm(st)
      ensures posted == old(posted)[1..] && free == old(free) + [old(posted)[0]] && inFlight == old(inFlight) - 1
      ensures old(posted)[0] < |old(pool)| && pool == old(pool)[old(posted)[0] := FRESH_BUF]
      ensures delivered == old(delivered) + old(pool)[old(posted)[0]].frames
      ensures master == old(master) && nextCall == old(nextCall) && st.accepted == old(st.accepted)
      ensures st.calls == if old(st.calls) == map[] then map[] else map[c := Roused(old(st.calls)[c], inFlight == 0)]
    {
      hide Sound;
      PostedFacts(st);
      var b := posted[0];
      posted := posted[1..];
      Step(StartDrain);
      pool := pool[b := pool[b].(sealed := true)];
      Step(SealBuf);
      Deliver(b);
      pool := pool[b := FRESH_BUF];
      Step(ResetBuf);
      free := free + [b];
      Step(ReturnBuf);
      Settle(c);
    }

    /** `ForEachFrame` over the sealed buffer, with `on_persist` as the callback. */
    method Deliver(b: nat)
      requires Sound(st) && st.drain == Walking(b, 0) && b < |pool| && st.bufs == pool && st.persisted == delivered
      modifies this`delivered, `st
      ensures Sound(st) && st == old(st).(persisted := delivered, drain := Walking(b, |pool[b].frames|))
      ensures delivered == old(delivered) + pool[b].frames
    {
      hide Sound;
      var frames, k := pool[b].frames, 0;
      while k < |frames|
        invariant k <= |frames| && Sound(st) && delivered == old(delivered) + frames[..k]
        invariant st == old(st).(persisted := delivered, drain := Walking(b, k))
      {
        delivered := delivered + [frames[k]];
        Step(Persist);
        k := k + 1;
        assert frames[..k] == frames[..k - 1] + [frames[k - 1]];
      }
      assert frames[..k] == frames;
    }

    /** The wake-ups and the counter, once the buffer is back in `free_`. */
    method Settle(ghost c: nat)
      requires Sound(st) && st.section.Unlocked? && st.drain.NotifyingFree? && st.inFlight == inFlight > 0
      requires st.calls == map[] || st.calls.Keys == {c}
      modifies this`inFlight, `st
      ensures Sound(st) && inFlight == old(inFlight) - 1
      ensures st == old(st).(inFlight := inFlight, drain := Idle,
        calls := if old(st.calls) == map[] then map[] else map[c := Roused(old(st.calls)[c], inFlight == 0)])
    {
      hide Sound;
      NotifyFree(c);
      inFlight := inFlight - 1;
      Step(Subtract);
      if inFlight == 0 {
        Step(NotifyFlush);
      }
    }

    /** `free_cv_.notify_one()`. */
    ghost method NotifyFree(c: nat)
      requires Sound(st) && st.drain.NotifyingFree? && (st.calls == map[] || st.calls.Keys == {c})
      modifies `st
      ensures Sound(st)
      ensures st == old(st).(drain := Subtracting,
        calls := if old(st.calls) == map[] then map[] else map[c := Roused(old(st.calls)[c], false)])
    {
      hide Sound;
      assert c in st.calls ==> st.calls == map[c := st.calls[c]];
      if c in st.calls && st.calls[c].Asleep? {
        Step(NotifyOne(c));
      } else {
        Step(NotifyNobody);
      }
    }

    /** The rest of `SwapMasterLocked_`, with the buffer in hand. */
    method SwapIn(next: nat, ghost c: nat, ghost who: Who)
      requires Mirrors() && st.drain.Idle? && st.section == Exchanging(c, who, next) && st.calls == map[] && next < |pool|
      modifies this
      ensures Mirrors() && Calm(st) && master == next && posted == old(posted) + [old(master)] && inFlight == old(inFlight) + 1
      ensures pool == old(pool) && free == old(free) && delivered == old(delivered) && nextCall == old(nextCall)
      ensures st.accepted == old(st.accepted)
      ensures st.calls == map[c := match who case Producer(f) => Loading(f) case Flusher(owed) => FlushTest(owed)]
    {
      hide Sound;
      var prior := master;
      master := next;
      Step(Exchange);
      inFlight := inFlight + 1;
      Step(Count);
      posted := posted + [prior];
      Step(Post);
    }

    /** A buffer can be had: free, new, or back from a drain within the wait. */
    ghost predicate Obtainable(patient: bool)
      reads this
    {
      free != [] || |pool| < cfg.maxBuffers || (patient && posted != [])
    }

    /** `AcquireFreeBufferLocked_`, entered by step `l` of call `c`. The strand finishes
        `patience` drain tasks before a wait times out; a flush waits for as long as it takes. */
    method Acquire(ghost c: nat, ghost who: Who, patience: nat, forever: bool, ghost l: Label)
      returns (next: Option<nat>, left: nat)
      requires Mirrors() && Calm(st) && st.calls.Keys == {c} && (forever <==> who.Flusher?)
      requires Enabled(st, l) && S.Polite(st, l) && Do(st, l) == StoreMachine.Acquire(st, c, who)
      requires forever ==> Obtainable(true)
      modifies this
      ensures Mirrors() && st.drain.Idle? && st.calls == map[]
      ensures master == old(master) && nextCall == old(nextCall) && st.accepted == old(st.accepted)
      ensures next.Some? <==> old(Obtainable(patience > 0 || forever))
      ensures next.None? ==> st.section.Unlocked?
      ensures next.Some? ==> st.section == Exchanging(c, who, next.value) && next.value < |pool| && pool[next.value] == FRESH_BUF && next.value != master
      ensures |pool| <= cfg.maxBuffers && |old(pool)| <= cfg.maxBuffers
      ensures next.Some? && !forever ==>
        left + |free| + (cfg.maxBuffers - |pool|) < patience + |old(free)| + (cfg.maxBuffers - |old(pool)|)
    {
      hide Sound, Enabled, Do, S.Polite;
      next, left := None, patience;
      PoolBound(st);
      if free != [] {
        next := Some(free[0]);
        FreeFacts(st, 0);
        Step(l);
        free := free[1..];
      } else if |pool| < cfg.maxBuffers {
        next := Some(|pool|);
        pool := pool + [FRESH_BUF];
        Step(l);
      } else {
        Step(l);
        next, left := Wait(c, who, patience, forever);
      }
    }

    /** The wait in `free_cv_`, with the pool full and nothing free. */
    method Wait(ghost c: nat, ghost who: Who, patience: nat, forever: bool) returns (next: Option<nat>, left: nat)
      requires Mirrors() && Calm(st) && st.calls == map[c := Asleep(who)] && free == [] && |pool| == cfg.maxBuffers
      requires (forever <==> who.Flusher?) && (forever ==> posted != [])
      modifies this
      ensures Mirrors() && st.drain.Idle? && st.calls == map[]
      ensures master == old(master) && nextCall == old(nextCall) && st.accepted == old(st.accepted)
      ensures next.Some? <==> (patience > 0 || forever) && old(posted) != []
      ensures next.None? ==> st.section.Unlocked?
      ensures next.Some? ==> st.section == Exchanging(c, who, next.value) && next.value < |pool| && pool[next.value] == FRESH_BUF && next.value != master
      ensures |pool| == cfg.maxBuffers && |free| == 0
      ensures next.Some? && !forever ==> left < patience
    {
      hide Sound;
      next, left := None, patience;
      if posted != [] && (patience > 0 || forever) {
        DrainOne(c);
        left := if patience > 0 then patience - 1 else 0;
        next := Some(free[0]);
        FreeFacts(st, 0);
        Step(Resume(c));
        free := free[1..];
      } else {
        Step(Rouse(c, true));
        Step(Resume(c));
      }
    }

    /** Load the master and write to it: no swap comes between when the call runs alone. */
    method TryWrite(f: Frame, ghost c: nat) returns (ok: bool)
      requires Mirrors() && Calm(st) && st.calls == map[c := Loading(f)]
      modifies this
      ensures Mirrors() && Calm(st)
      ensures master == old(master) < |old(pool)| && free == old(free) && posted == old(posted) && nextCall == old(nextCall)
      ensures ok <==> Storable(f.payload) && old(pool)[master].offset + 4 + |f.payload| <= cfg.capacity
      ensures pool == old(pool)[master := WriteTo(cfg.capacity, old(pool)[master], f).0]
      ensures st.accepted == old(st.accepted) + if ok then [f] else []
      ensures st.calls == if ok then map[] else map[c := Locking(f, master)]
    {
      hide Sound;
      MasterFacts(st);
      MasterNotFree(st);
      var cur := master;
      Step(LoadMaster(c));
      var (b, wrote) := WriteTo(cfg.capacity, pool[cur], f);
      pool := pool[cur := b];
      Step(StoreMachine.TryWrite(c));
      ok := wrote;
    }

    method Append(data: Payload, patience: nat) returns (ok: bool, swaps: nat)
      requires Valid()
      modifies this
      ensures Valid()
      ensures st.accepted == old(st.accepted) + if ok then [Frame(old(nextCall), data)] else []
      ensures ok <==>
        && Storable(data) && 4 + |data| <= cfg.capacity
        && (old(pool)[old(master)].offset + 4 + |data| <= cfg.capacity || old(Obtainable(patience > 0)))
      ensures ok ==> swaps <= 1
    {
      hide Sound;
      swaps := 0;
      if |data| == 0 {
        return false, 0;
      }
      ghost var c := st.nextCall;
      var f, left: nat := Frame(nextCall, data), patience;
      nextCall := nextCall + 1;
      Step(BeginAppend(data));
      MasterFacts(st);
      PoolBound(st);
      while true
        invariant Mirrors() && Calm(st) && st.calls == map[c := Loading(f)] && f.payload == data && |pool| <= cfg.maxBuffers
        invariant st.accepted == old(st.accepted)
        invariant swaps == 0 ==> left == patience && pool == old(pool) && master == old(master) && free == old(free) && posted == old(posted)
        invariant swaps > 0 ==> pool[master] == FRESH_BUF && old(Obtainable(patience > 0))
        invariant Storable(data) && 4 + |data| <= cfg.capacity && swaps > 0 ==>
          swaps == 1 && !(old(pool)[old(master)].offset + 4 + |data| <= cfg.capacity)
        invariant master < |pool|
        decreases left + |free| + (cfg.maxBuffers - |pool|)
      {
        var wrote := TryWrite(f, c);
        if wrote {
          return true, swaps;
        }
        var next;
        next, left := Acquire(c, Producer(f), left, false, LockAppend(c));
        if next.None? {
          return false, swaps;
        }
        SwapIn(next.value, c, Producer(f));
        swaps := swaps + 1;
      }
    }

    /** The swap of a used master, with a wait that does not time out. */
    method SwapOut(ghost c: nat, ghost owed: set<Frame>)
      requires Mirrors() && Calm(st) && cfg.maxBuffers >= 2
      requires st.calls == map[c := FlushEntry(owed)] && pool[master].offset > 0
      modifies this
      ensures Mirrors() && Calm(st) && st.calls == map[c := FlushTest(owed)]
      ensures pool[master].offset == 0 && master != old(master) && st.accepted == old(st.accepted)
    {
      hide Sound;
      if free == [] && |pool| >= 2 { SomethingPosted(st); }
      var next, _ := Acquire(c, Flusher(owed), 0, true, LockFlush(c));
      SwapIn(next.value, c, Flusher(owed));
    }

    /** The wait in `flush_cv_` until nothing is in flight. */
    method WaitDrained(ghost c: nat, ghost owed: set<Frame>)
      requires Mirrors() && Calm(st) && st.calls == map[c := FlushTest(owed)] && pool[master].offset == 0
      modifies this
      ensures Mirrors() && Calm(st) && st.calls == map[c := FlushTest(owed)]
      ensures inFlight == 0 && posted == [] && pool[master].offset == 0 && master == old(master) && st.accepted == old(st.accepted)
    {
      hide Sound;
      if inFlight != 0 {
        Step(TestFlush(c));
      }
      while inFlight != 0
        invariant Mirrors() && Calm(st) && st.accepted == old(st.accepted) && pool[master].offset == 0 && master == old(master)
        invariant st.calls == map[c := if inFlight == 0 then FlushTest(owed) else FlushAsleep(owed)]
        decreases inFlight
      {
        InFlightPosted(st);
        DrainOne(c);
      }
      InFlightPosted(st);
    }

    /** With one buffer only, `Flush` would wait for another that cannot appear. */
    method Flush()
      requires Valid() && (pool[master].offset > 0 ==> cfg.maxBuffers >= 2)
      modifies this
      ensures Valid() && posted == [] && inFlight == 0
      ensures st.accepted == old(st.accepted) && delivered == st.accepted
      ensures pool[master].offset == 0 && (master != old(master) <==> old(pool[master]).offset > 0)
    {
      hide Sound;
      ghost var c, owed := st.nextCall, Owed(st);
      nextCall := nextCall + 1;
      Step(BeginFlush);
      MasterFacts(st);
      if pool[master].offset > 0 {
        SwapOut(c, owed);
      } else {
        Step(LockFlush(c));
      }
      WaitDrained(c, owed);
      AllDelivered(st);
      Step(TestFlush(c));
    }
  }
}
