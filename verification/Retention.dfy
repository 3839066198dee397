/** Eviction sweeps while the writer goes on writing and rotating. A shard is known by
    the order in which it was opened, which is also the order of the names. Listing a
    directory takes many steps and may or may not come upon a file created meanwhile. */
module Retention {

  datatype Phase =
    | Resting
    | Listing(start: nat, seen: map<nat, nat>)            // shards before `start` existed when it began
    | Listed(start: nat, todo: seq<nat>, seen: map<nat, nat>, total: nat)
    | Removing(active: nat, todo: seq<nat>, seen: map<nat, nat>, total: nat)

  datatype State = State(
    sizes: seq<nat>,           // bytes written to each shard so far; the last one is current
    disk: set<nat>,            // shards whose file exists
    rotating: bool,            // the writer's lock is held between opening a file and its header
    cap: nat,
    sweep: Phase)

  datatype Label =
    | Write(n: nat) | Rotate | WriteHeader
    | Begin | See(i: nat, size: nat) | EndListing | ReadActive | Remove | RemoveFails | Skip | Stop

  function Init(cap: nat): State {
    State([48], {0}, false, cap, Resting)
  }

  predicate AscendingKeys(todo: seq<nat>, seen: map<nat, nat>) {
    && (forall i | 0 <= i < |todo| :: todo[i] in seen)
    && (forall k | k in seen :: k in todo)
    && (forall i, j | 0 <= i < j < |todo| :: todo[i] < todo[j])
  }

  /** The keys of `seen` below `n`, smallest first: the entries after the sort. */
  function Keys(seen: map<nat, nat>, n: nat): seq<nat> {
    if n == 0 then [] else Keys(seen, n - 1) + (if n - 1 in seen then [n - 1] else [])
  }

  function Sum(seen: map<nat, nat>, todo: seq<nat>): nat
    requires forall i | 0 <= i < |todo| :: todo[i] in seen
  {
    if todo == [] then 0 else seen[todo[0]] + Sum(seen, todo[1..])
  }

  predicate Current(s: State, i: nat) {
    i == |s.sizes| - 1
  }

  predicate Enabled(s: State, l: Label) {
    match l
    case Write(_) => s.sizes != [] && !s.rotating
    case Rotate => !s.rotating
    case WriteHeader => s.sizes != [] && s.rotating
    case Begin => s.sweep.Resting?
    case See(i, size) =>
      // a closed file has its full size; of the current one some may still be buffered
      && s.sweep.Listing? && i in s.disk && i < |s.sizes| && i !in s.sweep.seen
      && size <= s.sizes[i] && (!Current(s, i) ==> size == s.sizes[i])
    case EndListing =>
      // a file that was there all along has been seen
      && s.sweep.Listing? && (forall i | i in s.disk && i < s.sweep.start :: i in s.sweep.seen)
      && (forall i | i in s.sweep.seen :: i < |s.sizes|)
    case ReadActive => s.sweep.Listed? && s.sweep.total > s.cap && !s.rotating && s.sizes != []
    case Remove => Turn(s) && s.sweep.todo[0] != s.sweep.active && s.sweep.todo[0] in s.sweep.seen
                   && s.sweep.seen[s.sweep.todo[0]] <= s.sweep.total
    case RemoveFails => Turn(s) && s.sweep.todo[0] != s.sweep.active
    case Skip => Turn(s) && s.sweep.todo[0] == s.sweep.active
    case Stop =>
      || s.sweep.Listing?                                // an error makes the sweep give up
      || (s.sweep.Listed? && s.sweep.total <= s.cap)
      || (s.sweep.Removing? && (s.sweep.todo == [] || s.sweep.total <= s.cap))
  }

  /** The removal loop goes round once more. */
  predicate Turn(s: State) {
    s.sweep.Removing? && s.sweep.todo != [] && s.sweep.total > s.cap
  }

  function DropHead(p: Phase, total: nat): Phase
    requires p.Removing? && p.todo != []
  {
    p.(todo := p.todo[1..], total := total)
  }

  function Do(s: State, l: Label): State
    requires Enabled(s, l)
  {
    match l
    case Write(n) => s.(sizes := s.sizes[|s.sizes| - 1 := s.sizes[|s.sizes| - 1] + n])
    case Rotate => s.(sizes := s.sizes + [0], disk := s.disk + {|s.sizes|}, rotating := true)
    case WriteHeader => s.(sizes := s.sizes[|s.sizes| - 1 := 48], rotating := false)
    case Begin => s.(sweep := Listing(|s.sizes|, map[]))
    case See(i, size) => s.(sweep := Listing(s.sweep.start, s.sweep.seen[i := size]))
    case EndListing =>
      KeysIn(s.sweep.seen, |s.sizes|);
      var todo := Keys(s.sweep.seen, |s.sizes|);
      s.(sweep := Listed(s.sweep.start, todo, s.sweep.seen, Sum(s.sweep.seen, todo)))
    case ReadActive => s.(sweep := Removing(|s.sizes| - 1, s.sweep.todo, s.sweep.seen, s.sweep.total))
    case Remove =>
      s.(disk := s.disk - {s.sweep.todo[0]}, sweep := DropHead(s.sweep, s.sweep.total - s.sweep.seen[s.sweep.todo[0]]))
    case RemoveFails => s.(sweep := DropHead(s.sweep, s.sweep.total))
    case Skip => s.(sweep := DropHead(s.sweep, s.sweep.total))
    case Stop => s.(sweep := Resting)
  }

  lemma {:induction false} KeysIn(seen: map<nat, nat>, n: nat)
    ensures forall i | 0 <= i < |Keys(seen, n)| :: Keys(seen, n)[i] in seen && Keys(seen, n)[i] < n
    ensures forall k | k in seen && k < n :: k in Keys(seen, n)
    ensures forall i, j | 0 <= i < j < |Keys(seen, n)| :: Keys(seen, n)[i] < Keys(seen, n)[j]
  {
    if n > 0 {
      KeysIn(seen, n - 1);
      if n - 1 in seen { assert Keys(seen, n)[|Keys(seen, n)| - 1] == n - 1; }
    }
  }

  predicate Valid(s: State, run: seq<Label>)
    decreases |run|
  {
    run == [] || (Enabled(s, run[0]) && Valid(Do(s, run[0]), run[1..]))
  }

  function Run(s: State, run: seq<Label>): State
    requires Valid(s, run)
    decreases |run|
  {
    if run == [] then s else Run(Do(s, run[0]), run[1..])
  }

  // ---------------------------------------------------- the current file is safe

  /** What the sweep holds was there when it looked, and it looked at the active path
      after that: a file it does not recognise as active is older than the current one. */
  predicate SweepOk(s: State) {
    match s.sweep
    case Resting => true
    case Listing(start, seen) => start <= |s.sizes| && forall i | i in seen :: i < |s.sizes| && i in s.disk
    case Listed(start, todo, seen, total) =>
      && AscendingKeys(todo, seen) && total == Sum(seen, todo)
      && (forall i | 0 <= i < |todo| :: todo[i] < |s.sizes| && todo[i] in s.disk)
      && start <= |s.sizes| && forall i | i in s.disk && i < start :: i in seen
    case Removing(active, todo, seen, total) =>
      && active < |s.sizes| && (forall i | 0 <= i < |todo| :: todo[i] in seen && todo[i] in s.disk && todo[i] <= active)
      && (forall i, j | 0 <= i < j < |todo| :: todo[i] < todo[j])
      && total >= Sum(seen, todo)
  }

  predicate Safe(s: State) {
    && |s.sizes| > 0 && (forall i | i in s.disk :: i < |s.sizes|)
    && |s.sizes| - 1 in s.disk && SweepOk(s)
  }

  lemma SumTail(seen: map<nat, nat>, todo: seq<nat>)
    requires todo != [] && forall i | 0 <= i < |todo| :: todo[i] in seen
    ensures Sum(seen, todo) == seen[todo[0]] + Sum(seen, todo[1..])
  {}

  lemma StepSafe(s: State, l: Label)
    requires Safe(s) && Enabled(s, l)
    ensures Safe(Do(s, l))
  {
    match l
    case EndListing => ListedSafe(s);
    case Remove => HeadSafe(s, l);
    case RemoveFails => HeadSafe(s, l);
    case Skip => HeadSafe(s, l);
    case Write(_) => WriterSafe(s, l);
    case Rotate => WriterSafe(s, l);
    case WriteHeader => WriterSafe(s, l);
    case _ => SweepSafe(s, l);
  }

  lemma ListedSafe(s: State)
    requires Safe(s) && Enabled(s, EndListing)
    ensures Safe(Do(s, EndListing))
  {
    KeysIn(s.sweep.seen, |s.sizes|);
  }

  lemma WriterSafe(s: State, l: Label)
    requires Safe(s) && Enabled(s, l) && (l.Write? || l.Rotate? || l.WriteHeader?)
    ensures Safe(Do(s, l))
  {
    hide Sum, Keys;
  }

  lemma SweepSafe(s: State, l: Label)
    requires Safe(s) && Enabled(s, l) && (l.Begin? || l.See? || l.ReadActive? || l.Stop?)
    ensures Safe(Do(s, l))
  {
    hide Sum, Keys;
  }

  lemma HeadSafe(s: State, l: Label)
    requires Safe(s) && Enabled(s, l) && (l.Remove? || l.RemoveFails? || l.Skip?)
    ensures Safe(Do(s, l))
  {
    SumTail(s.sweep.seen, s.sweep.todo);
    hide Sum;
    assert forall i | 0 <= i < |s.sweep.todo| - 1 :: s.sweep.todo[1..][i] == s.sweep.todo[i + 1];
  }

  lemma {:induction false} RunSafe(s: State, run: seq<Label>)
    requires Safe(s) && Valid(s, run)
    ensures Safe(Run(s, run))
    decreases |run|
  {
    if run != [] {
      StepSafe(s, run[0]);
      RunSafe(Do(s, run[0]), run[1..]);
    }
  }

  /** No interleaving of writes, rotations and sweeps, whatever the listings miss and
      whichever removals fail, deletes the file being written; and the sweep's total
      never falls below what it still has to subtract. */
  lemma CurrentFileSurvives(cap: nat, run: seq<Label>)
    requires Valid(Init(cap), run)
    ensures var s := Run(Init(cap), run);
      && |s.sizes| - 1 in s.disk
      && (Turn(s) ==> s.sweep.todo[0] in s.sweep.seen && s.sweep.seen[s.sweep.todo[0]] <= s.sweep.total)
      && (Turn(s) && s.sweep.todo[0] != s.sweep.active ==> s.sweep.todo[0] < |s.sizes| - 1 && Enabled(s, Remove))
  {
    var s := Run(Init(cap), run);
    RunSafe(Init(cap), run);
    if Turn(s) {
      SumTail(s.sweep.seen, s.sweep.todo);
      var head := s.sweep.todo[0];
      assert head in s.sweep.seen && head <= s.sweep.active;
    }
  }

  // ----------------------------------------------------- what survives is a suffix

  /** The surviving shards are the newest ones, without a gap. */
  predicate Suffix(s: State) {
    forall i, j | i in s.disk && i <= j < |s.sizes| :: j in s.disk
  }

  /** Shard `k` of the list is newer than a shard that the listing missed, and the loop
      would get to it: it is not active, and from it on more than the cap is listed. */
  predicate Harmful(s: State, k: nat)
    requires s.sweep.Removing? && k < |s.sweep.todo| && forall i | 0 <= i < |s.sweep.todo| :: s.sweep.todo[i] in s.sweep.seen
  {
    && (exists i :: i in s.disk && i !in s.sweep.todo && i < s.sweep.todo[k])
    && s.sweep.todo[k] != s.sweep.active
    && s.sweep.total - Sum(s.sweep.seen, s.sweep.todo[..k]) > s.cap
  }

  ghost predicate Harmless(s: State) {
    s.sweep.Removing? ==>
      && (forall i | 0 <= i < |s.sweep.todo| :: s.sweep.todo[i] in s.sweep.seen)
      && (forall k | 0 <= k < |s.sweep.todo| :: !Harmful(s, k))
  }

  /** Removals succeed, and no removal loop starts on a harmful list. */
  ghost predicate Clean(s: State, l: Label)
    requires Enabled(s, l)
  {
    !l.RemoveFails? && (l.ReadActive? ==> Harmless(Do(s, l)))
  }

  lemma SumSplit(seen: map<nat, nat>, todo: seq<nat>, k: nat)
    requires 0 < k <= |todo| && forall i | 0 <= i < |todo| :: todo[i] in seen
    ensures Sum(seen, todo[..k]) == seen[todo[0]] + Sum(seen, todo[1..][..k - 1])
  {
    assert todo[..k][1..] == todo[1..][..k - 1];
  }

  lemma HeadIsOldest(s: State)
    requires Safe(s) && Harmless(s) && Enabled(s, Remove)
    ensures forall i | i in s.disk :: s.sweep.todo[0] <= i
  {
    var todo := s.sweep.todo;
    assert Sum(s.sweep.seen, todo[..0]) == 0;
    assert !Harmful(s, 0);
    forall i | i in s.disk
      ensures todo[0] <= i
    {
      if i in todo {
        var k :| 0 <= k < |todo| && todo[k] == i;
        assert k > 0 ==> todo[0] < todo[k];
      }
    }
  }

  lemma RemoveClean(s: State)
    requires Safe(s) && Suffix(s) && Harmless(s) && Enabled(s, Remove)
    ensures Suffix(Do(s, Remove)) && Harmless(Do(s, Remove))
  {
    var s' := Do(s, Remove);
    var todo, seen := s.sweep.todo, s.sweep.seen;
    HeadIsOldest(s);
    forall k | 0 <= k < |s'.sweep.todo|
      ensures !Harmful(s', k)
    {
      SumSplit(seen, todo, k + 1);
      assert !Harmful(s, k + 1);
      assert forall i | i in s'.disk && i !in s'.sweep.todo :: i !in todo by {
        assert todo == [todo[0]] + todo[1..];
      }
    }
  }

  /** The active shard is the newest of the list: after it nothing is left. */
  lemma SkipClean(s: State)
    requires Safe(s) && Enabled(s, Skip)
    ensures Do(s, Skip).sweep.todo == []
  {
    BelowLast(s.sweep.todo, s.sweep.active);
  }

  lemma BelowLast(todo: seq<nat>, active: nat)
    requires (forall i | 0 <= i < |todo| :: todo[i] <= active) && forall i, j | 0 <= i < j < |todo| :: todo[i] < todo[j]
    ensures |todo| > 1 ==> todo[0] < active
  {
    assert |todo| > 1 ==> todo[0] < todo[1];
  }

  lemma RotateClean(s: State)
    requires Safe(s) && Suffix(s) && Harmless(s) && Enabled(s, Rotate)
    ensures Suffix(Do(s, Rotate)) && Harmless(Do(s, Rotate))
  {
    var s' := Do(s, Rotate);
    if s.sweep.Removing? {
      forall k | 0 <= k < |s'.sweep.todo|
        ensures !Harmful(s', k)
      {
        assert !Harmful(s, k);
      }
    }
  }

  lemma StepClean(s: State, l: Label)
    requires Safe(s) && Suffix(s) && Harmless(s) && Enabled(s, l) && Clean(s, l)
    ensures Suffix(Do(s, l)) && Harmless(Do(s, l))
  {
    match l
    case Remove => RemoveClean(s);
    case Skip => SkipClean(s);
    case Rotate => RotateClean(s);
    case _ => OtherClean(s, l);
  }

  lemma OtherClean(s: State, l: Label)
    requires Safe(s) && Suffix(s) && Harmless(s) && Enabled(s, l) && Clean(s, l)
    requires !l.Remove? && !l.Skip? && !l.Rotate? && !l.RemoveFails?
    ensures Suffix(Do(s, l)) && Harmless(Do(s, l))
  {
    var s' := Do(s, l);
    assert s'.disk == s.disk && |s'.sizes| == |s.sizes|;
    if s'.sweep.Removing? && !l.ReadActive? {
      assert s'.sweep == s.sweep && s'.cap == s.cap;
      forall k | 0 <= k < |s'.sweep.todo|
        ensures !Harmful(s', k)
      {
        assert !Harmful(s, k);
      }
    }
  }

  ghost predicate CleanRun(s: State, run: seq<Label>)
    requires Valid(s, run)
    decreases |run|
  {
    run == [] || (Clean(s, run[0]) && CleanRun(Do(s, run[0]), run[1..]))
  }

  lemma {:induction false} RunClean(s: State, run: seq<Label>)
    requires Safe(s) && Suffix(s) && Harmless(s) && Valid(s, run) && CleanRun(s, run)
    ensures Suffix(Run(s, run))
    decreases |run|
  {
    if run != [] {
      StepSafe(s, run[0]);
      StepClean(s, run[0]);
      RunClean(Do(s, run[0]), run[1..]);
    }
  }

  /** Contiguous retention, for any interleaving of writes, rotations and sweeps: at every
      moment the surviving shards are the newest ones. */
  lemma SuffixRetained(cap: nat, run: seq<Label>)
    requires Valid(Init(cap), run) && CleanRun(Init(cap), run)
    ensures Suffix(Run(Init(cap), run))
  {
    RunClean(Init(cap), run);
  }

  /** A suffix is all shards from some number on. */
  lemma SuffixStart(s: State) returns (lo: nat)
    requires Safe(s) && Suffix(s)
    ensures lo < |s.sizes| && forall i :: i in s.disk <==> lo <= i < |s.sizes|
  {
    lo := |s.sizes| - 1;
    while lo > 0 && lo - 1 in s.disk
      invariant lo < |s.sizes| && forall i | lo <= i < |s.sizes| :: i in s.disk
    {
      lo := lo - 1;
    }
    assert forall i | i in s.disk && i < lo :: lo - 1 in s.disk;
  }

  /** The removals go on until the harmful place is at the head, and then leave the gap. */
  lemma HarmNearer(s: State, k: nat)
    requires Safe(s) && s.sweep.Removing? && k < |s.sweep.todo| && Harmful(s, k)
    ensures Enabled(s, Remove) && Safe(Do(s, Remove))
    ensures var s' := Do(s, Remove);
      if k == 0 then !Suffix(s') else k - 1 < |s'.sweep.todo| && Harmful(s', k - 1)
  {
    var todo, seen := s.sweep.todo, s.sweep.seen;
    var i :| i in s.disk && i !in todo && i < todo[k];
    SumTail(seen, todo);
    HeadNotActive(s, k);
    var s' := Do(s, Remove);
    StepSafe(s, Remove);
    assert i in s'.disk;
    if k == 0 {
      assert todo[0] !in s'.disk && todo[0] < |s'.sizes|;
    } else {
      SumSplit(seen, todo, k);
      assert s'.sweep.todo[k - 1] == todo[k] && i !in s'.sweep.todo;
    }
  }

  lemma HeadNotActive(s: State, k: nat)
    requires Safe(s) && s.sweep.Removing? && k < |s.sweep.todo| && Harmful(s, k)
    ensures s.sweep.todo[0] != s.sweep.active && s.sweep.total > s.cap
  {
    assert k > 0 ==> s.sweep.todo[0] < s.sweep.todo[k] <= s.sweep.active;
  }

  /** And only so: on a harmful list the removals alone, all successful, leave a gap. */
  lemma {:induction false} HarmLeavesGap(s: State, k: nat) returns (run: seq<Label>)
    requires Safe(s) && s.sweep.Removing? && k < |s.sweep.todo| && Harmful(s, k)
    ensures Valid(s, run) && (forall i | 0 <= i < |run| :: run[i] == Remove) && !Suffix(Run(s, run))
    decreases k
  {
    hide Safe, Harmful, Suffix, Enabled;
    HarmNearer(s, k);
    var s', rest := Do(s, Remove), [];
    if k > 0 {
      rest := HarmLeavesGap(s', k - 1);
    }
    run := [Remove] + rest;
    assert run[1..] == rest;
  }

  lemma SurvivorsStart(cap: nat, run: seq<Label>) returns (lo: nat)
    requires Valid(Init(cap), run) && CleanRun(Init(cap), run)
    ensures var s := Run(Init(cap), run);
      lo < |s.sizes| && forall i :: i in s.disk <==> lo <= i < |s.sizes|
  {
    hide CleanRun;
    RunSafe(Init(cap), run);
    SuffixRetained(cap, run);
    lo := SuffixStart(Run(Init(cap), run));
  }

  lemma {:induction false} RemovesAreClean(s: State, run: seq<Label>)
    requires Valid(s, run) && forall i | 0 <= i < |run| :: run[i] == Remove
    ensures CleanRun(s, run)
    decreases |run|
  {
    if run != [] { RemovesAreClean(Do(s, run[0]), run[1..]); }
  }

  /** As a removal loop starts on a suffix, the survivors stay one in every clean
      continuation if and only if its list is harmless. */
  lemma HarmlessIff(s: State)
    requires Safe(s) && Suffix(s) && s.sweep.Removing?
    ensures Harmless(s) <==> forall run :: Valid(s, run) && CleanRun(s, run) ==> Suffix(Run(s, run))
  {
    hide Suffix, Do, Enabled, Clean;
    SafeTodo(s);
    if Harmless(s) {
      forall run | Valid(s, run) && CleanRun(s, run)
        ensures Suffix(Run(s, run))
      {
        RunClean(s, run);
      }
    } else {
      var k :| 0 <= k < |s.sweep.todo| && Harmful(s, k);
      var run := HarmLeavesGap(s, k);
      RemovesAreClean(s, run);
    }
  }

  lemma SafeTodo(s: State)
    requires Safe(s) && s.sweep.Removing?
    ensures forall i | 0 <= i < |s.sweep.todo| :: s.sweep.todo[i] in s.sweep.seen
  {}

  // ------------------------------------------------------- when a list is harmless

  lemma {:induction false} SumFrom(seen: map<nat, nat>, todo: seq<nat>, k: nat)
    requires k <= |todo| && forall i | 0 <= i < |todo| :: todo[i] in seen
    ensures Sum(seen, todo) == Sum(seen, todo[..k]) + Sum(seen, todo[k..])
  {
    if k > 0 {
      SumFrom(seen, todo[1..], k - 1);
      SumSplit(seen, todo, k);
      assert todo[1..][k - 1..] == todo[k..];
    } else {
      assert todo[0..] == todo;
    }
  }

  /** A listing that misses no file older than one it has is harmless at any cap. */
  lemma CompleteListing(s: State)
    requires Safe(s) && Enabled(s, ReadActive)
    requires forall i, j | i in s.disk && j in s.sweep.seen && i < j :: i in s.sweep.seen
    ensures Harmless(Do(s, ReadActive))
  {
    var s' := Do(s, ReadActive);
    forall k | 0 <= k < |s'.sweep.todo|
      ensures !Harmful(s', k)
    {
      assert s'.sweep.todo[k] in s.sweep.seen;
    }
  }

  lemma TailWithin(seen: map<nat, nat>, todo: seq<nat>, k: nat, m: nat)
    requires k <= m <= |todo| && forall i | 0 <= i < |todo| :: todo[i] in seen
    ensures Sum(seen, todo) - Sum(seen, todo[..m]) <= Sum(seen, todo[k..])
  {
    SumFrom(seen, todo, m);
    SumFrom(seen, todo[k..], m - k);
    assert todo[k..][m - k..] == todo[m..];
  }

  /** Nor is a listing harmful when what it has of the shards opened since it began is
      within the cap: only those can have been missed. */
  lemma YoungWithinCap(s: State, k: nat)
    requires Safe(s) && Enabled(s, ReadActive) && k <= |s.sweep.todo|
    requires forall i | 0 <= i < k :: s.sweep.todo[i] < s.sweep.start
    requires Sum(s.sweep.seen, s.sweep.todo[k..]) <= s.cap
    ensures Harmless(Do(s, ReadActive))
  {
    var s', todo, seen := Do(s, ReadActive), s.sweep.todo, s.sweep.seen;
    hide Sum;
    forall m | 0 <= m < |todo|
      ensures !Harmful(s', m)
    {
      if k <= m {
        TailWithin(seen, todo, k, m);
      }
    }
  }

  lemma Cons(s: State, l: Label, next: State, rest: seq<Label>, e: State)
    requires Enabled(s, l) && Do(s, l) == next && Reaches(next, rest, e)
    ensures Reaches(s, [l] + rest, e)
  {
    assert ([l] + rest)[1..] == rest;
  }

  predicate Reaches(s: State, run: seq<Label>, e: State) {
    Valid(s, run) && Run(s, run) == e
  }

  /** Two shards are opened while a listing is under way, and the second is written to. */
  lemma TwoShards(cap: nat) returns (run: seq<Label>)
    ensures Reaches(Init(cap), run, State([48, 48, 48 + cap], {0, 1, 2}, false, cap, Listing(1, map[])))
  {
    hide Reaches;
    var l: Phase := Listing(1, map[]);
    var s1, s2 := State([48], {0}, false, cap, l), State([48, 0], {0, 1}, true, cap, l);
    var s3, s4 := State([48, 48], {0, 1}, false, cap, l), State([48, 48, 0], {0, 1, 2}, true, cap, l);
    var s5, e := State([48, 48, 48], {0, 1, 2}, false, cap, l), State([48, 48, 48 + cap], {0, 1, 2}, false, cap, l);
    Arrived(e);
    Cons(s5, Write(cap), e, [], e);
    Cons(s4, WriteHeader, s5, [Write(cap)] + [], e);
    Cons(s3, Rotate, s4, [WriteHeader] + ([Write(cap)] + []), e);
    Cons(s2, WriteHeader, s3, [Rotate] + ([WriteHeader] + ([Write(cap)] + [])), e);
    Cons(s1, Rotate, s2, [WriteHeader] + ([Rotate] + ([WriteHeader] + ([Write(cap)] + []))), e);
    Cons(Init(cap), Begin, s1, [Rotate] + ([WriteHeader] + ([Rotate] + ([WriteHeader] + ([Write(cap)] + [])))), e);
    run := [Begin] + ([Rotate] + ([WriteHeader] + ([Rotate] + ([WriteHeader] + ([Write(cap)] + [])))));
  }

  lemma Arrived(e: State)
    ensures Reaches(e, [], e)
  {}

  /** The listing as `GapHappens` has it: it comes upon the oldest and the newest. */
  function SeenBoth(cap: nat): map<nat, nat> {
    map[0 := 48, 2 := 48 + cap]
  }

  function MissedOne(cap: nat): State {
    State([48, 48, 48 + cap, 48], {0, 1, 2, 3}, false, cap, Listed(1, [0, 2], SeenBoth(cap), 96 + cap))
  }

  /** A third shard is opened after that. */
  lemma MissesOne(s: State) returns (run: seq<Label>)
    requires s == State([48, 48, 48 + s.cap], {0, 1, 2}, false, s.cap, Listing(1, map[]))
    ensures Reaches(s, run, MissedOne(s.cap))
  {
    hide Reaches;
    var e := MissedOne(s.cap);
    var see := See(2, 48 + s.cap);
    var s2 := s.(sweep := Listing(1, map[0 := 48]));
    var s3 := s.(sweep := Listing(1, SeenBoth(s.cap)));
    var s4 := s.(sweep := e.sweep);
    var s5 := State([48, 48, 48 + s.cap, 0], {0, 1, 2, 3}, true, s.cap, e.sweep);
    Arrived(e);
    Cons(s5, WriteHeader, e, [], e);
    Cons(s4, Rotate, s5, [WriteHeader] + [], e);
    GapListing(s3, s4);
    Cons(s3, EndListing, s4, [Rotate] + ([WriteHeader] + []), e);
    Cons(s2, see, s3, [EndListing] + ([Rotate] + ([WriteHeader] + [])), e);
    Cons(s, See(0, 48), s2, [see] + ([EndListing] + ([Rotate] + ([WriteHeader] + []))), e);
    run := [See(0, 48)] + ([see] + ([EndListing] + ([Rotate] + ([WriteHeader] + []))));
  }

  lemma GapListing(s: State, e: State)
    requires s == State([48, 48, 48 + s.cap], {0, 1, 2}, false, s.cap, Listing(1, SeenBoth(s.cap)))
    requires e == s.(sweep := MissedOne(s.cap).sweep)
    ensures Enabled(s, EndListing) && Do(s, EndListing) == e
  {
    var seen := s.sweep.seen;
    assert Keys(seen, 0) == [] && Keys(seen, 1) == [0] && Keys(seen, 2) == [0] && Keys(seen, 3) == [0, 2];
    assert [0, 2][1..] == [2];
    assert Sum(seen, [2]) == 48 + s.cap;
  }

  /** Such a list is harmful. */
  lemma MissedOneHarms(cap: nat)
    ensures Enabled(MissedOne(cap), ReadActive)
    ensures var r := Do(MissedOne(cap), ReadActive); Safe(r) && r.sweep.Removing? && r.sweep.todo == [0, 2] && Harmful(r, 1)
  {
    var r := Do(MissedOne(cap), ReadActive);
    var seen := SeenBoth(cap);
    assert [0, 2][..1] == [0] && [0, 2][1..] == [2];
    assert Sum(seen, [2]) == 48 + cap && Sum(seen, [0, 2]) == 96 + cap && Sum(seen, [0, 2][..1]) == 48;
    assert 1 in r.disk && 1 !in r.sweep.todo;
  }

  /** Such a run exists, whatever the cap: a listing comes upon the second of two new
      shards but not the first, and the sweep leaves the first in a gap. */
  lemma GapHappens(cap: nat) returns (run: seq<Label>)
    ensures Valid(Init(cap), run) && !Suffix(Run(Init(cap), run))
  {
    hide Safe, Harmful, Suffix, Run, Valid, Do, Enabled, MissedOne;
    var s1 := State([48, 48, 48 + cap], {0, 1, 2}, false, cap, Listing(1, map[]));
    var s2 := MissedOne(cap);
    var first := TwoShards(cap);
    var second := MissesOne(s1);
    MissedOneHarms(cap);
    var s3 := Do(s2, ReadActive);
    var removes := HarmLeavesGap(s3, 1);
    var e := Run(s3, removes);
    assert Reaches(s3, removes, e);
    Cons(s2, ReadActive, s3, removes, e);
    RunAppend(s1, second, [ReadActive] + removes);
    RunAppend(Init(cap), first, second + ([ReadActive] + removes));
    run := first + (second + ([ReadActive] + removes));
  }

  lemma {:induction false} RunAppend(s: State, a: seq<Label>, b: seq<Label>)
    requires Valid(s, a) && Valid(Run(s, a), b)
    ensures Valid(s, a + b) && Run(s, a + b) == Run(Run(s, a), b)
    decreases |a|
  {
    if a == [] {
      assert a + b == b;
    } else {
      assert (a + b)[1..] == a[1..] + b;
      RunAppend(Do(s, a[0]), a[1..], b);
    }
  }
}
