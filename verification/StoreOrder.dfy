/** With producers serialised, as `EffectiveSink::Log` serialises them, records come
    out in call order whatever flushes, swaps and drains do meanwhile. */
module StoreOrder {
  import opened Counting
  import opened StoreMachine
  import opened StoreFrames
  import O = StoreOwnership

  /** The buffers on their way to `on_persist`, oldest first, then the master. */
  function Path(s: State): seq<nat> {
    (if s.drain.Sealing? || s.drain.Walking? then [s.drain.b] else [])
    + s.strand
    + (if s.section.Counting? || s.section.Posting? then [s.section.prior] else [])
    + [s.master]
  }

  predicate InRange(loads: seq<seq<Frame>>, path: seq<nat>) {
    forall i | 0 <= i < |path| :: path[i] < |loads|
  }

  function Flat(loads: seq<seq<Frame>>, path: seq<nat>): seq<Frame>
    requires InRange(loads, path)
  {
    if path == [] then [] else loads[path[0]] + Flat(loads, path[1..])
  }

  ghost predicate PathOk(s: State) {
    && InRange(Loads(s), Path(s))
    && forall i, j | 0 <= i < j < |Path(s)| :: Path(s)[i] != Path(s)[j]
  }

  /** An append call is under way in `c`. */
  predicate Active(s: State, c: nat) {
    || (c in s.calls && match s.calls[c]
          case Loading(_) => true
          case Writing(_, _) => true
          case Locking(_, _) => true
          case Asleep(who) => who.Producer?
          case Woken(who, _) => who.Producer?
          case _ => false)
    || (!s.section.Unlocked? && s.section.c == c && s.section.who.Producer?)
  }

  /** The serialisation `Log` gets from `pipeline_mu_`. */
  ghost predicate Polite(s: State, l: Label) {
    l.BeginAppend? ==> forall c :: !Active(s, c)
  }

  ghost predicate Solo(s: State) {
    forall c, d :: Active(s, c) && Active(s, d) ==> c == d
  }

  /** Frames held off the path are strays. */
  ghost predicate OffClean(s: State) {
    forall b | 0 <= b < |s.bufs| && OffPath(s, b) :: Clean(s.bufs[b], s.stray)
  }

  predicate Clean(b: Buf, stray: set<Frame>) {
    forall f | f in b.frames :: f in stray
  }

  predicate LastFilled(loads: seq<seq<Frame>>, path: seq<nat>, cur: nat)
    requires InRange(loads, path)
  {
    forall i, j | 0 <= i < j < |path| && path[i] == cur :: loads[path[j]] == []
  }

  /** Delivered, then queued in strand order, then the master: the accepted frames. */
  ghost predicate InOrder(s: State) {
    PathOk(s) && s.accepted == s.persisted + Flat(Loads(s), Path(s))
  }

  /** Behind the buffer a writer is about to use, the path is empty. */
  ghost predicate WritersLast(s: State) {
    PathOk(s) && forall c | c in s.calls && s.calls[c].Writing? :: LastFilled(Loads(s), Path(s), s.calls[c].cur)
  }

  ghost predicate CallOrder(s: State) {
    && (forall i, j | 0 <= i < j < |s.accepted| :: s.accepted[i].call < s.accepted[j].call)
    && (forall c, i | Active(s, c) && 0 <= i < |s.accepted| :: s.accepted[i].call < c)
  }

  // ------------------------------------------------------------ sequences

  lemma {:induction false} FlatEnd(loads: seq<seq<Frame>>, path: seq<nat>, b: nat)
    requires InRange(loads, path) && b < |loads|
    ensures InRange(loads, path + [b]) && Flat(loads, path + [b]) == Flat(loads, path) + loads[b]
    decreases |path|
  {
    assert InRange(loads, path + [b]);
    if path == [] {
      assert path + [b] == [b];
    } else {
      FlatEnd(loads, path[1..], b);
      assert (path + [b])[1..] == path[1..] + [b];
    }
  }

  lemma {:induction false} FlatAgree(loads: seq<seq<Frame>>, loads': seq<seq<Frame>>, path: seq<nat>)
    requires InRange(loads, path) && InRange(loads', path)
    requires forall i | 0 <= i < |path| :: loads'[path[i]] == loads[path[i]]
    ensures Flat(loads', path) == Flat(loads, path)
    decreases |path|
  {
    if path != [] { FlatAgree(loads, loads', path[1..]); }
  }

  lemma {:induction false} FlatEmpty(loads: seq<seq<Frame>>, path: seq<nat>)
    requires InRange(loads, path) && forall i | 0 <= i < |path| :: loads[path[i]] == []
    ensures Flat(loads, path) == []
    decreases |path|
  {
    if path != [] { FlatEmpty(loads, path[1..]); }
  }

  /** A frame written into the last filled buffer of the path comes out last. */
  lemma {:induction false} FlatWrite(loads: seq<seq<Frame>>, path: seq<nat>, p: nat, f: Frame)
    requires InRange(loads, path) && p < |path| && LastFilled(loads, path, path[p])
    requires forall i, j | 0 <= i < j < |path| :: path[i] != path[j]
    ensures var loads' := loads[path[p] := loads[path[p]] + [f]];
      InRange(loads', path) && Flat(loads', path) == Flat(loads, path) + [f]
    decreases |path|
  {
    var b := path[p];
    var loads' := loads[b := loads[b] + [f]];
    if p == 0 {
      assert forall i | 0 <= i < |path[1..]| :: path[1..][i] == path[i + 1];
      FlatAgree(loads, loads', path[1..]);
      FlatEmpty(loads, path[1..]);
    } else {
      FlatWrite(loads, path[1..], p - 1, f);
      assert loads'[path[0]] == loads[path[0]];
    }
  }

  // ----------------------------------------------------------------- steps

  lemma TwiceCounts(p: seq<nat>, i: nat, j: nat)
    requires i < j < |p| && p[i] == p[j]
    ensures multiset(p)[p[i]] >= 2
  {
    assert p == p[..j] + [p[j]] + p[j + 1..];
    assert p[..j][i] == p[i];
  }

  lemma PathCounts(s: State, b: nat)
    ensures multiset(Path(s))[b] <= O.Owners(s, b)
  {}

  lemma PathIsOk(s: State)
    requires O.Partition(s)
    ensures PathOk(s)
  {
    var p := Path(s);
    forall b: nat
      ensures multiset(p)[b] <= One(b < |s.bufs|)
    {
      PathCounts(s, b);
      assert O.Owners(s, b) == One(b < |s.bufs|);
    }
    forall i | 0 <= i < |p|
      ensures p[i] < |Loads(s)|
    {
      assert p[i] in multiset(p);
    }
    forall i, j | 0 <= i < j < |p|
      ensures p[i] != p[j]
    {
      if p[i] == p[j] { TwiceCounts(p, i, j); }
    }
  }

  /** A buffer that is not off the path is on it. */
  lemma OnPath(s: State, b: nat) returns (p: nat)
    requires O.Partition(s) && b < |s.bufs| && !OffPath(s, b)
    ensures p < |Path(s)| && Path(s)[p] == b
  {
    assert O.Owners(s, b) == 1;
    assert b in Path(s);
    p :| p < |Path(s)| && Path(s)[p] == b;
  }

  lemma StepOffClean(s: State, l: Label)
    requires O.Inv(s) && OffClean(s) && Enabled(s, l)
    ensures OffClean(Do(s, l)) && s.stray <= Do(s, l).stray
  {
    forall b | 0 <= b < |Do(s, l).bufs| && OffPath(Do(s, l), b)
      ensures Clean(Do(s, l).bufs[b], Do(s, l).stray)
    {
      StepClean(s, l, b);
    }
  }

  lemma StepClean(s: State, l: Label, b: nat)
    requires O.Inv(s) && OffClean(s) && Enabled(s, l) && b < |Do(s, l).bufs| && OffPath(Do(s, l), b)
    ensures Clean(Do(s, l).bufs[b], Do(s, l).stray)
  {
    if b < |s.bufs| && OffPath(s, b) { assert Clean(s.bufs[b], s.stray); }
  }

  predicate Reroutes(l: Label) {
    l.TryWrite? || l.Persist? || l.Exchange? || l.ResetBuf?
  }

  lemma PathSame(s: State, l: Label)
    requires Enabled(s, l) && !Reroutes(l)
    ensures Path(Do(s, l)) == Path(s)
  {
    if l.StartDrain? {
      PathStarted(s);
    } else if l.Post? {
      PathPosted(s);
    } else {
      PathKept(s, l);
    }
  }

  lemma PathStarted(s: State)
    requires Enabled(s, StartDrain)
    ensures Path(Do(s, StartDrain)) == Path(s)
  {
    assert s.strand == [s.strand[0]] + s.strand[1..];
  }

  lemma PathPosted(s: State)
    requires Enabled(s, Post)
    ensures Path(Do(s, Post)) == Path(s)
  {}

  lemma PathKept(s: State, l: Label)
    requires Enabled(s, l) && !Reroutes(l) && !l.StartDrain? && !l.Post?
    ensures Path(Do(s, l)) == Path(s)
  {}

  lemma WriterSource(s: State, l: Label, c: nat)
    requires Enabled(s, l) && c in Do(s, l).calls && Do(s, l).calls[c].Writing?
    ensures (c in s.calls && s.calls[c] == Do(s, l).calls[c]) || (l.LoadMaster? && Do(s, l).calls[c].cur == s.master)
  {}

  lemma OtherInOrder(s: State, l: Label)
    requires O.Inv(s) && CursorOk(s) && InOrder(s) && Enabled(s, l) && !Reroutes(l) && PathOk(Do(s, l))
    ensures InOrder(Do(s, l))
  {
    QuietLoads(s, l);
    PathSame(s, l);
    FlatAgree(Loads(s), Loads(Do(s, l)), Path(s));
  }

  lemma CleanIsEmpty(b: Buf)
    requires Clean(b, {})
    ensures b.frames == []
  {
    if b.frames != [] { CleanAt(b, {}, 0); }
  }

  lemma CleanAt(b: Buf, stray: set<Frame>, i: nat)
    requires Clean(b, stray) && i < |b.frames|
    ensures b.frames[i] in stray
  {}

  /** The buffer swapped in joins the path empty. */
  lemma ExchangePath(s: State)
    requires O.Inv(s) && CursorOk(s) && OffClean(s) && s.stray == {} && Enabled(s, Exchange)
    ensures s.section.next < |s.bufs| && Loads(s)[s.section.next] == []
    ensures Path(Do(s, Exchange)) == Path(s) + [s.section.next] && Loads(Do(s, Exchange)) == Loads(s)
  {
    var next := s.section.next;
    O.OwnedInPool(s, next);
    assert OffPath(s, next) && Clean(s.bufs[next], s.stray);
    CleanIsEmpty(s.bufs[next]);
  }

  lemma ExchangeInOrder(s: State)
    requires O.Inv(s) && CursorOk(s) && InOrder(s) && OffClean(s) && s.stray == {} && Enabled(s, Exchange)
    requires PathOk(Do(s, Exchange))
    ensures InOrder(Do(s, Exchange))
  {
    ExchangePath(s);
    FlatEnd(Loads(s), Path(s), s.section.next);
  }

  /** The buffer that is reset leaves the path empty. */
  lemma ResetPath(s: State)
    requires O.Inv(s) && CursorOk(s) && Enabled(s, ResetBuf)
    ensures Path(s) == [s.drain.b] + Path(Do(s, ResetBuf))
    ensures Loads(Do(s, ResetBuf)) == Loads(s) && Loads(s)[s.drain.b] == []
  {
    QuietLoads(s, ResetBuf);
  }

  lemma ResetInOrder(s: State)
    requires O.Inv(s) && CursorOk(s) && InOrder(s) && Enabled(s, ResetBuf) && PathOk(Do(s, ResetBuf))
    ensures InOrder(Do(s, ResetBuf))
  {
    ResetPath(s);
    assert Path(s)[1..] == Path(Do(s, ResetBuf));
  }

  lemma PersistInOrder(s: State)
    requires O.Inv(s) && CursorOk(s) && InOrder(s) && Enabled(s, Persist) && PathOk(Do(s, Persist))
    ensures InOrder(Do(s, Persist))
  {
    var s', b := Do(s, Persist), s.drain.b;
    PersistLoads(s);
    var rest := Path(s)[1..];
    assert Path(s') == Path(s) && Path(s)[0] == b;
    assert forall i | 0 <= i < |rest| :: rest[i] == Path(s)[i + 1] && rest[i] != b;
    FlatAgree(Loads(s), Loads(s'), rest);
    FirstOut(s.persisted, Undelivered(s, b), Flat(Loads(s), rest));
  }

  lemma FirstOut(done: seq<Frame>, u: seq<Frame>, rest: seq<Frame>)
    requires u != []
    ensures done + (u + rest) == done + [u[0]] + (u[1..] + rest)
  {}

  lemma WriteInOrder(s: State, c: nat)
    requires O.Inv(s) && CursorOk(s) && InOrder(s) && WritersLast(s) && Enabled(s, TryWrite(c))
    requires DoTryWrite(s, c).stray == {} && PathOk(DoTryWrite(s, c))
    ensures InOrder(DoTryWrite(s, c))
  {
    var s', f, cur := DoTryWrite(s, c), s.calls[c].f, s.calls[c].cur;
    WriteLoads(s, c);
    assert Path(s') == Path(s);
    if WriteTo(s.cfg.capacity, s.bufs[cur], f).1 {
      assert f !in s'.stray;
      var p := OnPath(s, cur);
      FlatWrite(Loads(s), Path(s), p, f);
    } else {
      FlatAgree(Loads(s), Loads(s'), Path(s));
    }
  }

  lemma StepInOrder(s: State, l: Label)
    requires O.Inv(s) && CursorOk(s) && InOrder(s) && WritersLast(s) && OffClean(s) && Enabled(s, l) && Do(s, l).stray == {}
    requires PathOk(Do(s, l))
    ensures InOrder(Do(s, l))
  {
    hide O.Inv, CursorOk, InOrder, WritersLast, OffClean, PathOk;
    StrayGrows(s, l);
    match l
    case TryWrite(c) => WriteInOrder(s, c);
    case Persist => PersistInOrder(s);
    case Exchange => ExchangeInOrder(s);
    case ResetBuf => ResetInOrder(s);
    case _ => OtherInOrder(s, l);
  }

  lemma StrayGrows(s: State, l: Label)
    requires Enabled(s, l)
    ensures s.stray <= Do(s, l).stray
  {}

  lemma ExchangeLastFilled(s: State, cur: nat)
    requires O.Inv(s) && CursorOk(s) && PathOk(s) && OffClean(s) && s.stray == {} && Enabled(s, Exchange)
    requires PathOk(Do(s, Exchange)) && LastFilled(Loads(s), Path(s), cur)
    ensures LastFilled(Loads(Do(s, Exchange)), Path(Do(s, Exchange)), cur)
  {
    ExchangePath(s);
  }

  lemma ResetLastFilled(s: State, cur: nat)
    requires O.Inv(s) && CursorOk(s) && PathOk(s) && Enabled(s, ResetBuf)
    requires PathOk(Do(s, ResetBuf)) && LastFilled(Loads(s), Path(s), cur)
    ensures LastFilled(Loads(Do(s, ResetBuf)), Path(Do(s, ResetBuf)), cur)
  {
    ResetPath(s);
    var path, path' := Path(s), Path(Do(s, ResetBuf));
    assert forall i | 0 <= i < |path'| :: path'[i] == path[i + 1];
  }

  lemma PersistLastFilled(s: State, cur: nat)
    requires CursorOk(s) && PathOk(s) && Enabled(s, Persist) && PathOk(Do(s, Persist)) && LastFilled(Loads(s), Path(s), cur)
    ensures LastFilled(Loads(Do(s, Persist)), Path(Do(s, Persist)), cur)
  {
    PersistLoads(s);
    assert Path(Do(s, Persist)) == Path(s);
  }

  /** What stands behind `cur` on the path after a step stood there before, or is empty. */
  lemma StepLastFilled(s: State, l: Label, cur: nat)
    requires O.Inv(s) && CursorOk(s) && PathOk(s) && OffClean(s) && s.stray == {} && Enabled(s, l) && PathOk(Do(s, l))
    requires !l.TryWrite? && LastFilled(Loads(s), Path(s), cur)
    ensures LastFilled(Loads(Do(s, l)), Path(Do(s, l)), cur)
  {
    hide O.Inv, CursorOk, OffClean;
    match l
    case Persist => PersistLastFilled(s, cur);
    case Exchange => ExchangeLastFilled(s, cur);
    case ResetBuf => ResetLastFilled(s, cur);
    case _ => QuietLoads(s, l); PathSame(s, l);
  }

  lemma StepWritersLast(s: State, l: Label)
    requires O.Inv(s) && CursorOk(s) && WritersLast(s) && OffClean(s) && Solo(s) && Enabled(s, l) && Do(s, l).stray == {}
    requires PathOk(Do(s, l))
    ensures WritersLast(Do(s, l))
  {
    var s' := Do(s, l);
    StrayGrows(s, l);
    forall c | c in s'.calls && s'.calls[c].Writing?
      ensures LastFilled(Loads(s'), Path(s'), s'.calls[c].cur)
    {
      WriterSource(s, l, c);
      if l.LoadMaster? && s'.calls[c].cur == s.master {
        PathSame(s, l);
        assert Path(s)[|Path(s)| - 1] == s.master;
      } else {
        assert Active(s, c);
        if l.TryWrite? { assert Active(s, l.c); }
        StepLastFilled(s, l, s.calls[c].cur);
      }
    }
  }

  lemma StepActive(s: State, l: Label, c: nat)
    requires O.CallsKnown(s) && Enabled(s, l) && Active(Do(s, l), c)
    ensures Active(s, c) || (l.BeginAppend? && c == s.nextCall)
    ensures l.TryWrite? && Do(s, l).accepted != s.accepted ==> c != l.c
  {}

  lemma StepSolo(s: State, l: Label)
    requires O.CallsKnown(s) && Solo(s) && Enabled(s, l) && Polite(s, l)
    ensures Solo(Do(s, l))
  {
    forall c, d | Active(Do(s, l), c) && Active(Do(s, l), d)
      ensures c == d
    {
      StepActive(s, l, c);
      StepActive(s, l, d);
    }
  }

  lemma StepCallOrder(s: State, l: Label)
    requires O.Inv(s) && Identified(s) && Solo(s) && CallOrder(s) && Enabled(s, l) && Polite(s, l)
    ensures CallOrder(Do(s, l))
  {
    var s' := Do(s, l);
    PersistedOrAccepted(s, l);
    if l.TryWrite? {
      assert Active(s, l.c) && Carries(s, l.c, s.calls[l.c].f);
    }
    forall c, i | Active(s', c) && 0 <= i < |s'.accepted|
      ensures s'.accepted[i].call < c
    {
      StepActive(s, l, c);
      if i < |s.accepted| {
        assert Retired(s, s.accepted[i].call);
      }
    }
  }

  lemma PersistedOrAccepted(s: State, l: Label)
    requires Enabled(s, l)
    ensures Do(s, l).accepted == s.accepted || (l.TryWrite? && Do(s, l).accepted == s.accepted + [s.calls[l.c].f])
  {}
}
