/** The names `MakeShardName_` gives to shard files, and the order a directory listing
    sorted by name puts them in. */
module ShardName {

  /** The order of `std::string`, character by character. */
  predicate Less(a: string, b: string) {
    b != [] && (a == [] || a[0] < b[0] || (a[0] == b[0] && Less(a[1..], b[1..])))
  }

  function Digit(d: nat): char
    requires d < 10
  {
    '0' + d as char
  }

  /** `n` in decimal with at least `width` digits, as the format's `{:0width}` prints it. */
  function Pad(n: nat, width: nat): (s: string)
    ensures |s| >= width && |s| > 0
    ensures forall i | 0 <= i < |s| :: '0' <= s[i] <= '9'
    decreases n, width
  {
    if n < 10 && width <= 1 then [Digit(n)]
    else Pad(n / 10, if width > 0 then width - 1 else 0) + [Digit(n % 10)]
  }

  function Pow10(k: nat): (p: nat)
    ensures p > 0
  {
    if k == 0 then 1 else 10 * Pow10(k - 1)
  }

  datatype Stamp = Stamp(year: nat, month: nat, day: nat, hour: nat, minute: nat, second: nat, ms: nat)

  /** The fields fit their printed widths. */
  predicate InRange(t: Stamp) {
    && t.year < 10000 && t.month < 100 && t.day < 100
    && t.hour < 100 && t.minute < 100 && t.second < 100 && t.ms < 1000
  }

  predicate Earlier(a: Stamp, b: Stamp) {
    if a.year != b.year then a.year < b.year
    else if a.month != b.month then a.month < b.month
    else if a.day != b.day then a.day < b.day
    else if a.hour != b.hour then a.hour < b.hour
    else if a.minute != b.minute then a.minute < b.minute
    else if a.second != b.second then a.second < b.second
    else a.ms < b.ms
  }

  function Name(t: Stamp, sequence: nat): string {
    "log-" + (Pad(t.year, 4) + (Pad(t.month, 2) + (Pad(t.day, 2) + ("-" + Clock(t, Tail(sequence))))))
  }

  function Clock(t: Stamp, tail: string): string {
    Pad(t.hour, 2) + (Pad(t.minute, 2) + (Pad(t.second, 2) + ("-" + (Pad(t.ms, 3) + ("-" + tail)))))
  }

  function Tail(sequence: nat): string {
    Pad(sequence, 4) + ".bin"
  }

  // ------------------------------------------------------------------- order

  /** `a` ends within `b`, or has the smaller character where they first differ. */
  predicate SmallerAt(a: string, b: string, k: nat) {
    k < |b| && k <= |a| && a[..k] == b[..k] && (k == |a| || a[k] < b[k])
  }

  /** `Less` is the lexicographic order. */
  lemma {:induction false} LessIff(a: string, b: string)
    ensures Less(a, b) <==> exists k: nat :: SmallerAt(a, b, k)
  {
    if a == [] || b == [] || a[0] != b[0] {
      if b != [] && (a == [] || a[0] < b[0]) { assert SmallerAt(a, b, 0); }
      if k: nat :| SmallerAt(a, b, k) && k > 0 { assert a[..k][0] == b[..k][0]; }
    } else {
      LessIff(a[1..], b[1..]);
      if k: nat :| SmallerAt(a[1..], b[1..], k) {
        assert a[..k + 1] == [a[0]] + a[1..][..k] && b[..k + 1] == [b[0]] + b[1..][..k];
        assert SmallerAt(a, b, k + 1);
      }
      if k: nat :| SmallerAt(a, b, k) {
        assert a[1..][..k - 1] == a[..k][1..] && b[1..][..k - 1] == b[..k][1..];
        assert SmallerAt(a[1..], b[1..], k - 1);
      }
    }
  }

  lemma {:induction false} LessIrreflexive(a: string)
    ensures !Less(a, a)
  {
    if a != [] { LessIrreflexive(a[1..]); }
  }

  lemma {:induction false} LessTransitive(a: string, b: string, c: string)
    requires Less(a, b) && Less(b, c)
    ensures Less(a, c)
  {
    if a != [] && a[0] == b[0] == c[0] { LessTransitive(a[1..], b[1..], c[1..]); }
  }

  lemma {:induction false} LessTotal(a: string, b: string)
    ensures Less(a, b) || a == b || Less(b, a)
  {
    if a != [] && b != [] && a[0] == b[0] {
      LessTotal(a[1..], b[1..]);
      assert a == [a[0]] + a[1..] && b == [b[0]] + b[1..];
    }
  }

  lemma LessAsymmetric(a: string, b: string)
    requires Less(a, b)
    ensures !Less(b, a)
  {
    if Less(b, a) {
      LessTransitive(a, b, a);
      LessIrreflexive(a);
    }
  }

  /** Heads of one length decide; equal heads leave it to the rests. */
  lemma {:induction false} LessHead(a: string, b: string, x: string, y: string)
    requires |a| == |b|
    ensures Less(a + x, b + y) <==> Less(a, b) || (a == b && Less(x, y))
    decreases |a|
  {
    if a == [] {
      assert a + x == x && b + y == y;
    } else {
      LessHead(a[1..], b[1..], x, y);
      assert (a + x)[1..] == a[1..] + x && (b + y)[1..] == b[1..] + y;
      assert a == [a[0]] + a[1..] && b == [b[0]] + b[1..];
    }
  }

  /** Numbers printed with as many digits compare as numbers. */
  lemma {:induction false} PadOrder(m: nat, v: nat, n: nat, w: nat)
    requires |Pad(m, v)| == |Pad(n, w)|
    ensures (Less(Pad(m, v), Pad(n, w)) <==> m < n) && (Pad(m, v) == Pad(n, w) <==> m == n)
    decreases |Pad(m, v)|
  {
    var p, q := Pad(m, v), Pad(n, w);
    if |p| == 1 {
      assert p == [Digit(m)] && q == [Digit(n)];
    } else {
      var v', w' := if v > 0 then v - 1 else 0, if w > 0 then w - 1 else 0;
      PadOrder(m / 10, v', n / 10, w');
      LessHead(Pad(m / 10, v'), Pad(n / 10, w'), [Digit(m % 10)], [Digit(n % 10)]);
      assert m == 10 * (m / 10) + m % 10 && n == 10 * (n / 10) + n % 10;
      PadSplit(p, Pad(m / 10, v'), Digit(m % 10));
      PadSplit(q, Pad(n / 10, w'), Digit(n % 10));
    }
  }

  lemma PadSplit(p: string, head: string, c: char)
    requires p == head + [c]
    ensures p[..|p| - 1] == head && p[|p| - 1] == c
  {}

  /** A field within its width prints with exactly that width. */
  lemma {:induction false} PadWidth(n: nat, w: nat)
    requires w > 0 && n < Pow10(w)
    ensures |Pad(n, w)| == w
  {
    if w > 1 { PadWidth(n / 10, w - 1); }
  }

  lemma FieldOrder(m: nat, n: nat, w: nat, x: string, y: string)
    requires w > 0 && m < Pow10(w) && n < Pow10(w)
    ensures Less(Pad(m, w) + x, Pad(n, w) + y) <==> m < n || (m == n && Less(x, y))
  {
    PadWidth(m, w);
    PadWidth(n, w);
    PadOrder(m, w, n, w);
    LessHead(Pad(m, w), Pad(n, w), x, y);
  }

  lemma ClockOrder(a: Stamp, b: Stamp, x: string, y: string)
    requires InRange(a) && InRange(b)
    requires a.year == b.year && a.month == b.month && a.day == b.day
    ensures Less(Clock(a, x), Clock(b, y)) <==> Earlier(a, b) || (a == b && Less(x, y))
  {
    assert Pow10(1) == 10 && Pow10(2) == 100 && Pow10(3) == 1000;
    LessHead("-", "-", x, y);
    FieldOrder(a.ms, b.ms, 3, "-" + x, "-" + y);
    var ams, bms := Pad(a.ms, 3) + ("-" + x), Pad(b.ms, 3) + ("-" + y);
    LessHead("-", "-", ams, bms);
    FieldOrder(a.second, b.second, 2, "-" + ams, "-" + bms);
    var asec, bsec := Pad(a.second, 2) + ("-" + ams), Pad(b.second, 2) + ("-" + bms);
    FieldOrder(a.minute, b.minute, 2, asec, bsec);
    FieldOrder(a.hour, b.hour, 2, Pad(a.minute, 2) + asec, Pad(b.minute, 2) + bsec);
    LessIrreflexive("-");
  }

  /** Names sort by time first, then by how their sequence parts sort. */
  lemma NameOrder(a: Stamp, m: nat, b: Stamp, n: nat)
    requires InRange(a) && InRange(b)
    ensures Less(Name(a, m), Name(b, n)) <==> Earlier(a, b) || (a == b && Less(Tail(m), Tail(n)))
  {
    assert Pow10(1) == 10 && Pow10(2) == 100 && Pow10(3) == 1000 && Pow10(4) == 10000;
    var ca, cb := Clock(a, Tail(m)), Clock(b, Tail(n));
    LessIrreflexive("-");
    LessIrreflexive("log-");
    if a.year == b.year && a.month == b.month && a.day == b.day { ClockOrder(a, b, Tail(m), Tail(n)); }
    LessHead("-", "-", ca, cb);
    FieldOrder(a.day, b.day, 2, "-" + ca, "-" + cb);
    var da, db := Pad(a.day, 2) + ("-" + ca), Pad(b.day, 2) + ("-" + cb);
    FieldOrder(a.month, b.month, 2, da, db);
    FieldOrder(a.year, b.year, 4, Pad(a.month, 2) + da, Pad(b.month, 2) + db);
    LessHead("log-", "log-", Pad(a.year, 4) + (Pad(a.month, 2) + da), Pad(b.year, 4) + (Pad(b.month, 2) + db));
  }

  // ----------------------------------------------------- the sequence number

  /** How many digits the sequence number takes. */
  function Digits(n: nat): nat {
    |Pad(n, 4)|
  }

  lemma {:induction false} PadMonotone(m: nat, n: nat, w: nat)
    requires m <= n
    ensures |Pad(m, w)| <= |Pad(n, w)|
    decreases n, w
  {
    if !(n < 10 && w <= 1) {
      PadMonotone(m / 10, n / 10, if w > 0 then w - 1 else 0);
    }
  }

  function DropEnd(s: string, k: nat): string
    requires k <= |s|
  {
    s[..|s| - k]
  }

  /** `n` without its last `k` digits. */
  function Lead(n: nat, k: nat): nat {
    if k == 0 then n else Lead(n / 10, k - 1)
  }

  lemma {:induction false} LeadDivides(n: nat, k: nat)
    ensures Lead(n, k) == n / Pow10(k)
    decreases k
  {
    if k > 0 {
      LeadDivides(n / 10, k - 1);
      DivDiv(n, Pow10(k - 1));
    }
  }

  lemma {:induction false} PadPrefix(n: nat, w: nat, k: nat) returns (v: nat)
    requires k < |Pad(n, w)|
    ensures DropEnd(Pad(n, w), k) == Pad(Lead(n, k), v)
    decreases k
  {
    var p := Pad(n, w);
    if k == 0 {
      v := w;
      assert p[..|p|] == p;
    } else {
      var w' := if w > 0 then w - 1 else 0;
      var q := Pad(n / 10, w');
      v := PadPrefix(n / 10, w', k - 1);
      DropLast(p, q, Digit(n % 10), k);
    }
  }

  lemma DropLast(p: string, q: string, c: char, k: nat)
    requires p == q + [c] && 0 < k <= |p|
    ensures p[..|p| - k] == q[..|q| - (k - 1)]
  {}

  lemma DivDiv(n: nat, d: nat)
    requires d > 0
    ensures n / 10 / d == n / (10 * d)
  {
    var q, r := n / 10 / d, n / 10 % d;
    assert n == 10 * (d * q + r) + n % 10;
    assert 10 * (d * q + r) == (10 * d) * q + 10 * r;
    var low := 10 * r + n % 10;
    assert 0 <= low < 10 * d;
    assert n == (10 * d) * q + low;
    QuotientUnique(n, 10 * d, q, low);
  }

  lemma QuotientUnique(n: nat, d: nat, q: nat, r: nat)
    requires d > 0 && n == d * q + r && r < d
    ensures n / d == q
  {
    var p := n / d;
    assert n == d * p + n % d;
    if p < q { MulMonotone(d, p + 1, q); }
    if q < p { MulMonotone(d, q + 1, p); }
  }

  lemma MulMonotone(d: nat, x: nat, y: nat)
    requires x <= y
    ensures d * x <= d * y
  {}

  /** The shorter number ends in '.', which sorts before every digit. */
  lemma DotBeforeDigits(p: string, head: string, rest: string)
    requires |p| == |head| && forall i | 0 <= i < |rest| :: '0' <= rest[i] <= '9'
    ensures Less(p + ".bin", head + rest + ".bin") <==> Less(p, head) || (p == head && rest != [])
  {
    LessHead(p, head, ".bin", rest + ".bin");
    assert head + rest + ".bin" == head + (rest + ".bin");
    if rest == [] {
      assert rest + ".bin" == ".bin";
      LessIrreflexive(".bin");
    } else {
      assert (rest + ".bin")[0] == rest[0];
    }
  }

  /** Two shards opened in the same millisecond sort as they were opened exactly when the
      earlier number does not exceed the leading digits of the later one; all is well
      while the numbers print with as many digits. */
  lemma TailOrderIff(m: nat, n: nat)
    requires m < n
    ensures Digits(m) <= Digits(n)
    ensures Less(Tail(m), Tail(n)) <==> m <= n / Pow10(Digits(n) - Digits(m))
  {
    hide Less, Pad, Pow10;
    PadMonotone(m, n, 4);
    var k := Digits(n) - Digits(m);
    var v := PadPrefix(n, 4, k);
    LeadDivides(n, k);
    TailAgainstLead(m, n, Lead(n, k), v);
  }

  lemma TailAgainstLead(m: nat, n: nat, lead: nat, v: nat)
    requires m < n && Digits(m) <= Digits(n) && (Digits(m) == Digits(n) ==> lead == n)
    requires Pad(n, 4)[..Digits(m)] == Pad(lead, v)
    ensures Less(Tail(m), Tail(n)) <==> m <= lead
  {
    hide Less, Pad;
    var p, q := Pad(m, 4), Pad(n, 4);
    var head, rest := q[..|p|], q[|p|..];
    PadOrder(m, 4, lead, v);
    assert q == head + rest;
    DotBeforeDigits(p, head, rest);
  }

  lemma TailsDiffer(m: nat, n: nat)
    requires m != n
    ensures Tail(m) != Tail(n)
  {
    var p, q := Pad(m, 4), Pad(n, 4);
    if Tail(m) == Tail(n) {
      assert p == Tail(m)[..|Tail(m)| - 4] && q == Tail(n)[..|Tail(n)| - 4];
      PadOrder(m, 4, n, 4);
    }
  }

  /** The later of two names sorts later exactly when the clock has moved on, or when it
      stands still and the numbers are in order as printed. */
  lemma NamesAscendIff(a: Stamp, m: nat, b: Stamp, n: nat)
    requires InRange(a) && InRange(b) && m < n
    ensures Less(Name(a, m), Name(b, n)) <==> Earlier(a, b) || (a == b && PrintedInOrder(m, n))
  {
    hide Name, Tail, Less, Pad, Earlier;
    NameOrder(a, m, b, n);
    TailOrderIff(m, n);
  }

  predicate PrintedInOrder(m: nat, n: nat) {
    Digits(m) <= Digits(n) && m <= n / Pow10(Digits(n) - Digits(m))
  }

  /** Numbers with as many digits are in order, and so are any below 10000. */
  lemma SameDigits(m: nat, n: nat)
    requires m < n
    ensures Digits(m) == Digits(n) || n < 10000 ==> PrintedInOrder(m, n)
  {
    if n < 10000 {
      FourDigits(m);
      FourDigits(n);
    }
    LeadDivides(n, 0);
  }

  /** Two names of one writer differ whatever the clock did in between. */
  lemma NamesDiffer(a: Stamp, m: nat, b: Stamp, n: nat)
    requires InRange(a) && InRange(b) && m != n
    ensures Name(a, m) != Name(b, n)
  {
    hide Name;
    NameOrder(a, m, b, n);
    NameOrder(b, n, a, m);
    LessIrreflexive(Name(a, m));
    EarlierTotal(a, b);
    if a == b {
      TailsDiffer(m, n);
      SameStampNames(a, Tail(m), Tail(n), m, n);
    }
  }

  lemma EarlierTotal(a: Stamp, b: Stamp)
    ensures Earlier(a, b) || a == b || Earlier(b, a)
  {}

  // ------------------------------------------------------ names in a directory

  /** The test the reader and the eviction runner put to a file name. */
  predicate LooksLikeShard(name: string) {
    |name| > 8 && name[..4] == "log-" && name[|name| - 4..] == ".bin"
  }

  /** "log-", something, ".bin". */
  ghost predicate ShardForm(name: string) {
    exists middle: string :: middle != [] && name == "log-" + middle + ".bin"
  }

  /** The test finds the names of that form and no others. */
  lemma LooksLikeIff(name: string)
    ensures LooksLikeShard(name) <==> ShardForm(name)
  {
    if LooksLikeShard(name) {
      var middle := name[4..|name| - 4];
      assert name == name[..4] + middle + name[|name| - 4..];
    }
    if middle :| middle != [] && name == "log-" + middle + ".bin" {
      assert name[..4] == "log-" && name[|name| - 4..] == ".bin";
    }
  }

  lemma PadTwo(n: nat)
    requires n < 100
    ensures Pad(n, 2) == [Digit(n / 10), Digit(n % 10)]
  {
    assert Pad(n / 10, 1) == [Digit(n / 10)];
  }

  lemma PadThree(n: nat)
    requires n < 1000
    ensures Pad(n, 3) == [Digit(n / 100), Digit(n / 10 % 10), Digit(n % 10)]
  {
    PadTwo(n / 10);
    assert n / 10 / 10 == n / 100;
  }

  lemma PadFour(n: nat)
    requires n < 10000
    ensures Pad(n, 4) == [Digit(n / 1000), Digit(n / 100 % 10), Digit(n / 10 % 10), Digit(n % 10)]
  {
    PadThree(n / 10);
    assert n / 10 / 100 == n / 1000 && n / 10 / 10 == n / 100;
  }

  lemma ExamplePads()
    ensures Pad(2024, 4) == "2024" && Pad(1, 2) == "01" && Pad(2, 2) == "02" && Pad(3, 2) == "03"
    ensures Pad(4, 2) == "04" && Pad(5, 2) == "05" && Pad(6, 3) == "006" && Pad(78, 4) == "0078"
  {
    hide Pad;
    PadFour(2024);
    PadTwo(1);
    PadTwo(2);
    PadTwo(3);
    PadTwo(4);
    PadTwo(5);
    PadThree(6);
    PadFour(78);
  }

  lemma ExampleClock()
    ensures Clock(Stamp(2024, 1, 2, 3, 4, 5, 6), "0078.bin") == "030405-006-0078.bin"
  {
    hide Pad;
    ExamplePads();
    assert "-" + ("006" + ("-" + "0078.bin")) == "-006-0078.bin";
    assert "03" + ("04" + ("05" + "-006-0078.bin")) == "030405-006-0078.bin";
  }

  lemma ExampleDate(clock: string)
    requires clock == "030405-006-0078.bin"
    ensures "log-" + ("2024" + ("01" + ("02" + ("-" + clock)))) == "log-20240102-030405-006-0078.bin"
  {
    Regroup("log-", "2024", "01", "02", "-" + clock);
    assert "log-" + "2024" == "log-2024" && "log-2024" + "01" + "02" == "log-20240102";
    assert "log-20240102" + ("-" + clock) == "log-20240102-030405-006-0078.bin";
  }

  lemma Regroup(a: string, b: string, c: string, d: string, e: string)
    ensures a + (b + (c + (d + e))) == a + b + c + d + e
  {}

  /** The format of a name, by an example: the date, the time, the milliseconds, the number. */
  lemma NameExample()
    ensures Name(Stamp(2024, 1, 2, 3, 4, 5, 6), 78) == "log-20240102-030405-006-0078.bin"
  {
    hide Pad, Clock;
    ExamplePads();
    assert Tail(78) == "0078.bin";
    ExampleClock();
    ExampleDate(Clock(Stamp(2024, 1, 2, 3, 4, 5, 6), Tail(78)));
  }

  /** What the writer writes is found by both. */
  lemma ShardsAreFound(t: Stamp, sequence: nat)
    ensures LooksLikeShard(Name(t, sequence))
  {
    var tail := Tail(sequence);
    var clock := Pad(t.hour, 2) + (Pad(t.minute, 2) + (Pad(t.second, 2) + ("-" + (Pad(t.ms, 3) + "-"))));
    assert Clock(t, tail) == clock + tail;
    var head := Pad(t.year, 4) + (Pad(t.month, 2) + (Pad(t.day, 2) + "-"));
    assert Name(t, sequence) == "log-" + ((head + clock + Pad(sequence, 4)) + ".bin");
  }

  /** The buffer files that lie in the same directory. */
  function BufferName(sequence: nat): string {
    "buffer-" + Pad(sequence, 6) + ".mmap"
  }

  lemma BuffersAreNotShards(sequence: nat)
    ensures !LooksLikeShard(BufferName(sequence))
  {
    assert BufferName(sequence)[0] == 'b';
    assert BufferName(sequence)[..4][0] == 'b';
  }

  lemma FourDigits(n: nat)
    requires n < 10000
    ensures Digits(n) == 4
  {
    assert Pow10(1) == 10 && Pow10(2) == 100 && Pow10(3) == 1000 && Pow10(4) == 10000;
    PadWidth(n, 4);
  }

  lemma SameStampNames(a: Stamp, x: string, y: string, m: nat, n: nat)
    requires x == Tail(m) && y == Tail(n) && x != y
    ensures Name(a, m) != Name(a, n)
  {
    assert Clock(a, x) != Clock(a, y) by {
      var head := Pad(a.hour, 2) + (Pad(a.minute, 2) + (Pad(a.second, 2) + ("-" + (Pad(a.ms, 3) + "-"))));
      assert Clock(a, x) == head + x && Clock(a, y) == head + y;
      assert Clock(a, x)[|head|..] == x && Clock(a, y)[|head|..] == y;
    }
    var head := "log-" + (Pad(a.year, 4) + (Pad(a.month, 2) + (Pad(a.day, 2) + "-")));
    assert Name(a, m) == head + Clock(a, x) && Name(a, n) == head + Clock(a, y);
    assert Name(a, m)[|head|..] == Clock(a, x) && Name(a, n)[|head|..] == Clock(a, y);
  }

  /** The first number that breaks the order: 10000 sorts before 9999. */
  lemma TenThousandSortsEarly(t: Stamp)
    requires InRange(t)
    ensures Less(Name(t, 10000), Name(t, 9999)) && !Less(Name(t, 9999), Name(t, 10000))
  {
    assert Pad(1, 1) == "1" && Pad(10, 2) == "10" && Pad(100, 3) == "100" && Pad(1000, 4) == "1000";
    assert Pad(1000, 3) == "1000" && Pad(10000, 4) == "10000";
    assert Pad(9, 1) == "9" && Pad(99, 2) == "99" && Pad(999, 3) == "999" && Pad(9999, 4) == "9999";
    NameOrder(t, 10000, t, 9999);
    NameOrder(t, 9999, t, 10000);
    assert Tail(10000)[0] == '1' && Tail(9999)[0] == '9';
  }
}
