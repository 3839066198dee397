/** Where every accepted frame of the store is: nothing is lost or delivered twice,
    frames off the path are strays, and flushed frames have been handed over. */
module StoreFrames {
  import opened StoreMachine
  import O = StoreOwnership

  /** What buffer `b` still has to hand to `on_persist`. */
  function Undelivered(s: State, b: nat): seq<Frame>
    requires b < |s.bufs|
  {
    var fs := s.bufs[b].frames;
    if s.drain.Walking? && s.drain.b == b && s.drain.k <= |fs| then fs[s.drain.k..] else fs
  }

  function Loads(s: State): (r: seq<seq<Frame>>)
    ensures |r| == |s.bufs| && forall b :: 0 <= b < |r| ==> r[b] == Undelivered(s, b)
  {
    seq(|s.bufs|, b requires 0 <= b < |s.bufs| => Undelivered(s, b))
  }

  /** How often `f` occurs in the loads together. */
  function Tally(loads: seq<seq<Frame>>, f: Frame): nat {
    if loads == [] then 0 else multiset(loads[0])[f] + Tally(loads[1..], f)
  }

  lemma {:induction false} TallySet(loads: seq<seq<Frame>>, b: nat, x: seq<Frame>, f: Frame)
    requires b < |loads|
    ensures Tally(loads[b := x], f) + multiset(loads[b])[f] == Tally(loads, f) + multiset(x)[f]
    decreases |loads|
  {
    if b == 0 {
      assert loads[b := x][1..] == loads[1..];
    } else {
      TallySet(loads[1..], b - 1, x, f);
      assert loads[b := x][1..] == loads[1..][b - 1 := x];
    }
  }

  lemma {:induction false} TallyAppend(loads: seq<seq<Frame>>, x: seq<Frame>, f: Frame)
    ensures Tally(loads + [x], f) == Tally(loads, f) + multiset(x)[f]
    decreases |loads|
  {
    if loads == [] {
      assert (loads + [x])[1..] == [];
    } else {
      TallyAppend(loads[1..], x, f);
      assert (loads + [x])[1..] == loads[1..] + [x];
    }
  }

  lemma {:induction false} TallyFinds(loads: seq<seq<Frame>>, f: Frame) returns (b: nat)
    requires Tally(loads, f) > 0
    ensures b < |loads| && f in loads[b]
    decreases |loads|
  {
    if f in loads[0] {
      b := 0;
    } else {
      b := TallyFinds(loads[1..], f);
      b := b + 1;
    }
  }

  /** The drain's position stays within the buffer it walks. */
  ghost predicate CursorOk(s: State) {
    s.drain.Walking? && s.drain.b < |s.bufs| ==> s.drain.k <= |s.bufs[s.drain.b].frames|
  }

  /** Accepted is delivered plus undelivered, with multiplicity. */
  ghost predicate Conserved(s: State) {
    forall f: Frame :: Balanced(s, f)
  }

  predicate Balanced(s: State, f: Frame) {
    multiset(s.accepted)[f] == multiset(s.persisted)[f] + Tally(Loads(s), f)
  }

  /** How one step changes what the buffers hold. */
  ghost predicate SameLoads(s: State, s': State) {
    && s'.accepted == s.accepted && s'.persisted == s.persisted
    && (Loads(s') == Loads(s) || Loads(s') == Loads(s) + [[]])
  }

  lemma StepCursor(s: State, l: Label)
    requires O.Inv(s) && CursorOk(s) && Enabled(s, l)
    ensures CursorOk(Do(s, l))
  {
    hide O.Partition, O.InFlightExact, O.CallsKnown;
    if s.drain.Walking? || s.drain.Sealing? { O.OwnedInPool(s, s.drain.b); }
  }

  lemma WriteLoads(s: State, c: nat)
    requires O.Inv(s) && CursorOk(s) && Enabled(s, TryWrite(c))
    ensures var s', f, cur := DoTryWrite(s, c), s.calls[c].f, s.calls[c].cur;
      if WriteTo(s.cfg.capacity, s.bufs[cur], f).1
      then Loads(s') == Loads(s)[cur := Undelivered(s, cur) + [f]] && s'.accepted == s.accepted + [f] && s'.persisted == s.persisted
      else SameLoads(s, s')
  {
    var s', cur := DoTryWrite(s, c), s.calls[c].cur;
    assert s.bufs[cur].sealed <==> s.drain.Walking? && s.drain.b == cur;
    assert forall b | 0 <= b < |s.bufs| && b != cur :: Undelivered(s', b) == Undelivered(s, b);
    if !WriteTo(s.cfg.capacity, s.bufs[cur], s.calls[c].f).1 {
      assert Loads(s') == Loads(s);
    }
  }

  lemma PersistLoads(s: State)
    requires CursorOk(s) && Enabled(s, Persist)
    ensures var s', b := Do(s, Persist), s.drain.b;
      && Undelivered(s, b) != [] && Loads(s') == Loads(s)[b := Undelivered(s, b)[1..]]
      && s'.persisted == s.persisted + [Undelivered(s, b)[0]] && s'.accepted == s.accepted
  {}

  lemma QuietUndelivered(s: State, l: Label, b: nat)
    requires O.Inv(s) && CursorOk(s) && Enabled(s, l) && !l.TryWrite? && !l.Persist? && b < |s.bufs|
    ensures |s.bufs| <= |Do(s, l).bufs| && Undelivered(Do(s, l), b) == Undelivered(s, b)
  {}

  lemma QuietGrowth(s: State, l: Label)
    requires O.Inv(s) && Enabled(s, l) && !l.TryWrite? && !l.Persist?
    ensures var s' := Do(s, l);
      && s'.accepted == s.accepted && s'.persisted == s.persisted
      && (|s'.bufs| == |s.bufs| || (|s'.bufs| == |s.bufs| + 1 && Undelivered(s', |s.bufs|) == []))
  {}

  lemma QuietLoads(s: State, l: Label)
    requires O.Inv(s) && CursorOk(s) && Enabled(s, l) && !l.TryWrite? && !l.Persist?
    ensures SameLoads(s, Do(s, l))
  {
    var loads, loads' := Loads(s), Loads(Do(s, l));
    QuietGrowth(s, l);
    forall b | 0 <= b < |loads|
      ensures |loads| <= |loads'| && loads'[b] == loads[b]
    {
      QuietUndelivered(s, l, b);
    }
    assert loads' == loads || loads' == loads + [[]];
  }

  lemma WriteBalanced(s: State, c: nat, f: Frame)
    requires O.Inv(s) && CursorOk(s) && Balanced(s, f) && Enabled(s, TryWrite(c))
    ensures Balanced(DoTryWrite(s, c), f)
  {
    var g, cur := s.calls[c].f, s.calls[c].cur;
    WriteLoads(s, c);
    TallySet(Loads(s), cur, Undelivered(s, cur) + [g], f);
    TallyAppend(Loads(s), [], f);
  }

  lemma PersistBalanced(s: State, f: Frame)
    requires CursorOk(s) && Balanced(s, f) && Enabled(s, Persist)
    ensures Balanced(Do(s, Persist), f)
  {
    PersistLoads(s);
    var u := Undelivered(s, s.drain.b);
    assert u == [u[0]] + u[1..];
    TallySet(Loads(s), s.drain.b, u[1..], f);
  }

  lemma StepConserved(s: State, l: Label)
    requires O.Inv(s) && CursorOk(s) && Conserved(s) && Enabled(s, l)
    ensures Conserved(Do(s, l))
  {
    forall f: Frame
      ensures Balanced(Do(s, l), f)
    {
      assert Balanced(s, f);
      match l
      case TryWrite(c) => WriteBalanced(s, c, f);
      case Persist => PersistBalanced(s, f);
      case _ => QuietBalanced(s, l, f);
    }
  }

  lemma QuietBalanced(s: State, l: Label, f: Frame)
    requires O.Inv(s) && CursorOk(s) && Balanced(s, f) && Enabled(s, l) && !l.TryWrite? && !l.Persist?
    ensures Balanced(Do(s, l), f)
  {
    QuietLoads(s, l);
    TallyAppend(Loads(s), [], f);
  }

  // ------------------------------------------------------------- identity

  /** The frame a live append carries, with the call it belongs to. */
  predicate Carries(s: State, c: nat, f: Frame) {
    || (c in s.calls && match s.calls[c]
          case Loading(g) => g == f
          case Writing(g, _) => g == f
          case Locking(g, _) => g == f
          case Asleep(who) => who == Producer(f)
          case Woken(who, _) => who == Producer(f)
          case _ => false)
    || (!s.section.Unlocked? && s.section.c == c && s.section.who == Producer(f))
  }

  /** An append is one call with one frame, accepted at most once. */
  ghost predicate Identified(s: State) {
    && (forall c, f :: Carries(s, c, f) ==> f.call == c && f.payload != [])
    && (forall i | 0 <= i < |s.accepted| :: Retired(s, s.accepted[i].call))
    && (forall i, j | 0 <= i < j < |s.accepted| :: s.accepted[i].call != s.accepted[j].call)
  }

  predicate Retired(s: State, c: nat) {
    c < s.nextCall && c !in s.calls && (!s.section.Unlocked? ==> s.section.c != c)
  }

  lemma StepCarries(s: State, l: Label, c: nat, f: Frame)
    requires O.CallsKnown(s) && Enabled(s, l) && Carries(Do(s, l), c, f)
    ensures Carries(s, c, f) || (l.BeginAppend? && f == Frame(c, l.p))
  {}

  lemma StepRetired(s: State, l: Label, c: nat)
    requires O.CallsKnown(s) && Enabled(s, l) && Retired(s, c)
    ensures Retired(Do(s, l), c)
  {}

  lemma WriteIdentified(s: State, c: nat)
    requires O.Inv(s) && Identified(s) && Enabled(s, TryWrite(c))
    ensures Identified(DoTryWrite(s, c))
  {
    var s', f := DoTryWrite(s, c), s.calls[c].f;
    assert Carries(s, c, f);
    assert s'.accepted != s.accepted ==> Retired(s', c);
    forall i | 0 <= i < |s'.accepted|
      ensures Retired(s', s'.accepted[i].call) && (i < |s.accepted| ==> s'.accepted[i].call != c)
    {
      if i < |s.accepted| { StepRetired(s, TryWrite(c), s.accepted[i].call); }
    }
    forall d, g | Carries(s', d, g)
      ensures g.call == d && g.payload != []
    {
      StepCarries(s, TryWrite(c), d, g);
    }
  }

  lemma StepIdentified(s: State, l: Label)
    requires O.Inv(s) && Identified(s) && Enabled(s, l)
    ensures Identified(Do(s, l))
  {
    if l.TryWrite? {
      WriteIdentified(s, l.c);
    } else {
      var s' := Do(s, l);
      assert s'.accepted == s.accepted;
      forall i | 0 <= i < |s'.accepted|
        ensures Retired(s', s'.accepted[i].call)
      {
        StepRetired(s, l, s.accepted[i].call);
      }
      forall c, f | Carries(s', c, f)
        ensures f.call == c && f.payload != []
      {
        StepCarries(s, l, c, f);
      }
    }
  }

  /** Every accepted frame has been accepted once, and is in exactly one place. */
  lemma OncePlaced(s: State, f: Frame)
    requires Conserved(s) && Identified(s)
    ensures multiset(s.persisted)[f] + Tally(Loads(s), f) == multiset(s.accepted)[f] <= 1
  {
    assert Balanced(s, f);
    Distinct(s.accepted, f);
  }

  lemma {:induction false} Distinct(fs: seq<Frame>, f: Frame)
    requires forall i, j | 0 <= i < j < |fs| :: fs[i].call != fs[j].call
    ensures multiset(fs)[f] <= 1
    decreases |fs|
  {
    if fs != [] {
      Distinct(fs[1..], f);
      assert fs == [fs[0]] + fs[1..];
      assert f == fs[0] ==> f !in fs[1..];
    }
  }

  lemma {:induction false} TallyAtLeast(loads: seq<seq<Frame>>, b: nat, f: Frame)
    requires b < |loads| && f in loads[b]
    ensures Tally(loads, f) > 0
    decreases |loads|
  {
    if b > 0 { TallyAtLeast(loads[1..], b - 1, f); }
  }
}
