/**
  The linear-time `reuse`: for every window length k at once, the average over all windows
  of k allocations of how many free intervals lie wholly inside the window.
  */
module Reuse {
  import opened Sums
  import opened Trace

  type Weight = Interval -> int

  function Zero(): Weight {
    (v: Interval) => 0
  }

  // The counts and sums of the first pass

  function StartIs(a: int): Weight {
    (v: Interval) => if v.s == a then 1 else 0
  }

  function EndIs(a: int): Weight {
    (v: Interval) => if v.e == a then 1 else 0
  }

  function LenIs(k: int): Weight {
    (v: Interval) => if v.Len() == k then 1 else 0
  }

  function StartSum(k: int): Weight {
    (v: Interval) => if v.Len() == k then v.s else 0
  }

  function StartMinSum(n: int, k: int): Weight {
    (v: Interval) => if v.Len() == k then Min(n - k, v.s) else 0
  }

  function EndSum(k: int): Weight {
    (v: Interval) => if v.Len() == k then v.e else 0
  }

  function EndMaxSum(k: int): Weight {
    (v: Interval) => if v.Len() == k then Max(k, v.e) else 0
  }

  // Their running sums

  function StartsFrom(a: int): Weight {
    (v: Interval) => if v.s >= a then 1 else 0
  }

  function EndsUpTo(a: int): Weight {
    (v: Interval) => if 1 <= v.e <= a then 1 else 0
  }

  function LenUpTo(k: int): Weight {
    (v: Interval) => if v.Len() <= k then 1 else 0
  }

  // What the recurrences accumulate

  function XTerm(n: int, k: int): Weight {
    (v: Interval) => if v.Len() <= k then Min(n - k, v.s) else 0
  }

  /** An interval starting at clock 0 is counted one too high, and one ending there not at all. */
  function YTerm(k: int): Weight {
    (v: Interval) => if v.Len() > k || v.e == 0 then 0 else if v.s == 0 then k else Max(k - 1, v.e)
  }

  function ZTerm(k: int): Weight {
    (v: Interval) => if v.Len() <= k then k else 0
  }

  // The brute-force reference

  function InWindow(w: int, k: int): Weight {
    (v: Interval) => if w <= v.s && v.e < w + k then 1 else 0
  }

  /** How many intervals lie in the window of `k` allocations starting at `w`. */
  function Inside(vs: seq<Interval>, w: int, k: int): int {
    Sum(vs, InWindow(w, k))
  }

  /** The total over the first `m` windows of length `k`. */
  function InsideFirst(vs: seq<Interval>, k: int, m: nat): int {
    if m == 0 then 0 else InsideFirst(vs, k, m - 1) + Inside(vs, m - 1, k)
  }

  /** The total over all windows of length `k` in a trace of `n` allocations. */
  function BruteForce(vs: seq<Interval>, n: nat, k: nat): int
    requires k <= n
  {
    InsideFirst(vs, k, n - k + 1)
  }

  // The reference counts, for each interval, the windows around it

  function WindowsAround(k: int, m: int): Weight {
    (v: Interval) => if v.Len() <= k then Max(0, Min(m - 1, v.s) - Max(0, v.e - k + 1) + 1) else 0
  }

  lemma {:induction false} SwapSums(vs: seq<Interval>, n: nat, k: nat, m: nat)
    requires Ordered(vs, n)
    ensures InsideFirst(vs, k, m) == Sum(vs, WindowsAround(k, m))
    decreases m
  {
    if m == 0 {
      SumZero(vs, WindowsAround(k, 0));
    } else {
      SwapSums(vs, n, k, m - 1);
      SumLinear(vs, WindowsAround(k, m - 1), InWindow(m - 1, k), 1, WindowsAround(k, m));
    }
  }

  /** How far off the fast numerator is: `k - 1` too high for an interval (0, 0), one too low
      for every other interval from clock 0 that fits. */
  function Offset(k: int): Weight {
    (v: Interval) => if v.s != 0 || v.e >= k then 0 else if v.e == 0 then k - 1 else -1
  }

  /** What the fast form computes for windows of length `k`. */
  function Numerator(vs: seq<Interval>, n: nat, k: nat): int
    requires k <= n
  {
    BruteForce(vs, n, k) + Sum(vs, Offset(k))
  }

  /** One interval's share of it. */
  function Counted(n: int, k: int): Weight {
    (v: Interval) => WindowsAround(k, n - k + 1)(v) + Offset(k)(v)
  }

  lemma NumeratorIsCounted(vs: seq<Interval>, n: nat, k: nat)
    requires Ordered(vs, n) && 1 <= k <= n
    ensures Numerator(vs, n, k) == Sum(vs, Counted(n, k))
  {
    SwapSums(vs, n, k, n - k + 1);
    SumLinear(vs, WindowsAround(k, n - k + 1), Offset(k), 1, Counted(n, k));
  }

  /** An interval's share in the three accumulated sums. */
  function Accumulated(n: int, k: int): Weight {
    (v: Interval) => XTerm(n, k)(v) + ZTerm(k)(v)
  }

  lemma SharesAgree(v: Interval, n: nat, k: nat)
    requires v.s <= v.e < n && 1 <= k <= n
    ensures Accumulated(n, k)(v) - YTerm(k)(v) == Counted(n, k)(v)
  {
    assert Accumulated(n, k)(v) == XTerm(n, k)(v) + ZTerm(k)(v);
    assert Counted(n, k)(v) == WindowsAround(k, n - k + 1)(v) + Offset(k)(v);
    if v.Len() <= k && v.s >= 1 {
      assert WindowsAround(k, n - k + 1)(v) == Max(0, Min(n - k, v.s) - Max(0, v.e - k + 1) + 1);
    }
  }

  /** Interval by interval, the three accumulated sums count the windows around it. */
  lemma NumeratorIsWindows(vs: seq<Interval>, n: nat, k: nat)
    requires Ordered(vs, n) && 1 <= k <= n
    ensures Sum(vs, XTerm(n, k)) + Sum(vs, ZTerm(k)) - Sum(vs, YTerm(k))
            == Numerator(vs, n, k)
  {
    SumLinear(vs, XTerm(n, k), ZTerm(k), 1, Accumulated(n, k));
    forall i | 0 <= i < |vs| ensures Accumulated(n, k)(vs[i]) - YTerm(k)(vs[i]) == Counted(n, k)(vs[i]) {
      SharesAgree(vs[i], n, k);
    }
    SumLinear(vs, Accumulated(n, k), YTerm(k), -1, Counted(n, k));
    NumeratorIsCounted(vs, n, k);
  }


  // The method

  /** The vectors of the first pass. */
  datatype Column = Starts | Ends | Lens | StartSums | StartMins | EndSums | EndMaxes

  /** What an interval adds to entry `a` of a column; the columns by length are shifted by
      one, since no interval has length 0. */
  function Entry(col: Column, n: int, a: int): Weight {
    match col
    case Starts => StartIs(a)
    case Ends => EndIs(a)
    case Lens => LenIs(a + 1)
    case StartSums => StartSum(a + 1)
    case StartMins => StartMinSum(n, a + 1)
    case EndSums => EndSum(a + 1)
    case EndMaxes => EndMaxSum(a + 1)
  }

  ghost predicate Holds(row: seq<nat>, col: Column, vs: seq<Interval>, n: nat) {
    |row| == n && forall a | 0 <= a < n :: row[a] == Sum(vs, Entry(col, n, a))
  }

  lemma HoldsNone(row: seq<nat>, col: Column, n: nat)
    requires |row| == n && forall a | 0 <= a < n :: row[a] == 0
    ensures Holds(row, col, [], n)
  {}

  /** Interval `v` adds `share` to entry `at` of a column and nothing elsewhere. */
  ghost predicate Touches(col: Column, n: nat, v: Interval, at: nat, share: nat) {
    at < n && forall a | 0 <= a < n :: Entry(col, n, a)(v) == if a == at then share else 0
  }

  lemma Shares(v: Interval, n: nat)
    requires v.s <= v.e < n
    ensures Touches(Starts, n, v, v.s, 1) && Touches(Ends, n, v, v.e, 1) && Touches(Lens, n, v, v.e - v.s, 1)
    ensures Touches(StartSums, n, v, v.e - v.s, v.s) && Touches(EndSums, n, v, v.e - v.s, v.e)
    ensures Touches(StartMins, n, v, v.e - v.s, Min(n - v.Len(), v.s))
    ensures Touches(EndMaxes, n, v, v.e - v.s, Max(v.Len(), v.e))
  {}

  /** Adds one interval's share to the one entry it touches. */
  method Tally(row: seq<nat>, ghost col: Column, ghost vs: seq<Interval>, ghost i: nat, n: nat, at: nat, share: nat)
    returns (row': seq<nat>)
    requires i < |vs| && Holds(row, col, vs[..i], n) && Touches(col, n, vs[i], at, share)
    ensures Holds(row', col, vs[..i + 1], n)
  {
    row' := row[at := row[at] + share];
    forall a | 0 <= a < n ensures row'[a] == Sum(vs[..i + 1], Entry(col, n, a)) {
      SumNext(vs, i, Entry(col, n, a));
    }
  }

  /** First pass: counts by start, by end and by length, and the sums per length. */
  method CountIntervals(vs: seq<Interval>, n: nat)
    returns (starts: seq<nat>, ends: seq<nat>, lens: seq<nat>,
             startSums: seq<nat>, startMins: seq<nat>, endSums: seq<nat>, endMaxes: seq<nat>)
    requires Ordered(vs, n)
    ensures Holds(starts, Starts, vs, n) && Holds(ends, Ends, vs, n) && Holds(lens, Lens, vs, n)
    ensures Holds(startSums, StartSums, vs, n) && Holds(startMins, StartMins, vs, n)
    ensures Holds(endSums, EndSums, vs, n) && Holds(endMaxes, EndMaxes, vs, n)
  {
    var zeros: seq<nat> := seq(n, _ => 0);
    forall col ensures Holds(zeros, col, vs[..0], n) {
      HoldsNone(zeros, col, n);
    }
    starts, ends, lens := zeros, zeros, zeros;
    startSums, startMins, endSums, endMaxes := zeros, zeros, zeros, zeros;
    for i := 0 to |vs|
      invariant Holds(starts, Starts, vs[..i], n) && Holds(ends, Ends, vs[..i], n) && Holds(lens, Lens, vs[..i], n)
      invariant Holds(startSums, StartSums, vs[..i], n) && Holds(startMins, StartMins, vs[..i], n)
      invariant Holds(endSums, EndSums, vs[..i], n) && Holds(endMaxes, EndMaxes, vs[..i], n)
    {
      var v := vs[i];
      var len := v.e - v.s + 1;
      Shares(v, n);
      starts := Tally(starts, Starts, vs, i, n, v.s, 1);
      ends := Tally(ends, Ends, vs, i, n, v.e, 1);
      lens := Tally(lens, Lens, vs, i, n, len - 1, 1);
      startSums := Tally(startSums, StartSums, vs, i, n, len - 1, v.s);
      startMins := Tally(startMins, StartMins, vs, i, n, len - 1, Min(n - len, v.s));
      endSums := Tally(endSums, EndSums, vs, i, n, len - 1, v.e);
      endMaxes := Tally(endMaxes, EndMaxes, vs, i, n, len - 1, Max(len, v.e));
    }
    assert vs[..|vs|] == vs;
  }

  lemma RunningStep(vs: seq<Interval>, n: nat, i: nat)
    requires 1 <= i < n
    ensures Sum(vs, StartsFrom(n - i)) == Sum(vs, StartsFrom(n - (i - 1))) + Sum(vs, Entry(Starts, n, n - i))
    ensures Sum(vs, EndsUpTo(i)) == Sum(vs, EndsUpTo(i - 1)) + Sum(vs, Entry(Ends, n, i))
    ensures Sum(vs, LenUpTo(i + 1)) == Sum(vs, LenUpTo(i)) + Sum(vs, Entry(Lens, n, i))
  {
    SumLinear(vs, StartsFrom(n - i + 1), StartIs(n - i), 1, StartsFrom(n - i));
    SumLinear(vs, EndsUpTo(i - 1), EndIs(i), 1, EndsUpTo(i));
    SumLinear(vs, LenUpTo(i), LenIs(i + 1), 1, LenUpTo(i + 1));
  }

  /** Second pass: running sums of the counts. */
  method RunningSums(ghost vs: seq<Interval>, n: nat, starts: seq<nat>, ends: seq<nat>, lens: seq<nat>)
    returns (startsFrom: seq<nat>, endsUpTo: seq<nat>, lenUpTo: seq<nat>)
    requires Ordered(vs, n) && n >= 1
    requires Holds(starts, Starts, vs, n) && Holds(ends, Ends, vs, n) && Holds(lens, Lens, vs, n)
    ensures |startsFrom| == n && forall i | 0 <= i < n :: startsFrom[i] == Sum(vs, StartsFrom(n - i))
    ensures |endsUpTo| == n && forall i | 0 <= i < n :: endsUpTo[i] == Sum(vs, EndsUpTo(i))
    ensures |lenUpTo| == n && forall i | 0 <= i < n :: lenUpTo[i] == Sum(vs, LenUpTo(i + 1))
  {
    startsFrom, endsUpTo, lenUpTo := [0], [0], [lens[0]];
    SumZero(vs, StartsFrom(n));
    SumZero(vs, EndsUpTo(0));
    SumLinear(vs, Zero(), LenIs(1), 1, LenUpTo(1));
    SumZero(vs, Zero());
    for i := 1 to n
      invariant |startsFrom| == |endsUpTo| == |lenUpTo| == i
      invariant forall j | 0 <= j < i :: startsFrom[j] == Sum(vs, StartsFrom(n - j))
      invariant forall j | 0 <= j < i :: endsUpTo[j] == Sum(vs, EndsUpTo(j))
      invariant forall j | 0 <= j < i :: lenUpTo[j] == Sum(vs, LenUpTo(j + 1))
    {
      RunningStep(vs, n, i);
      startsFrom := startsFrom + [startsFrom[i - 1] + starts[n - i]];
      endsUpTo := endsUpTo + [endsUpTo[i - 1] + ends[i]];
      lenUpTo := lenUpTo + [lenUpTo[i - 1] + lens[i]];
    }
  }

  // One step of each recurrence

  lemma XStep(vs: seq<Interval>, n: nat, k: nat)
    requires Ordered(vs, n) && 2 <= k <= n
    ensures Sum(vs, XTerm(n, k))
            == Sum(vs, XTerm(n, k - 1)) + Sum(vs, StartMinSum(n, k)) - Sum(vs, StartsFrom(n - k + 1))
    ensures Sum(vs, XTerm(n, k)) >= 0
  {
    var grown: Weight := (v: Interval) => XTerm(n, k - 1)(v) + StartMinSum(n, k)(v);
    SumLinear(vs, XTerm(n, k - 1), StartMinSum(n, k), 1, grown);
    SumLinear(vs, grown, StartsFrom(n - k + 1), -1, XTerm(n, k));
    SumZero(vs, Zero());
    SumBounds(vs, Zero(), XTerm(n, k));
  }

  lemma YStep(vs: seq<Interval>, n: nat, k: nat)
    requires Ordered(vs, n) && 2 <= k <= n
    ensures Sum(vs, YTerm(k))
            == Sum(vs, YTerm(k - 1)) + Sum(vs, EndsUpTo(k - 2)) + Sum(vs, EndMaxSum(k))
  {
    var grown: Weight := (v: Interval) => YTerm(k - 1)(v) + EndsUpTo(k - 2)(v);
    SumLinear(vs, YTerm(k - 1), EndsUpTo(k - 2), 1, grown);
    SumLinear(vs, grown, EndMaxSum(k), 1, YTerm(k));
  }

  lemma ZStep(vs: seq<Interval>, n: nat, k: nat)
    requires Ordered(vs, n) && 2 <= k <= n
    ensures Sum(vs, ZTerm(k)) == Sum(vs, ZTerm(k - 1)) + Sum(vs, LenUpTo(k - 1)) + k * Sum(vs, LenIs(k))
  {
    var grown: Weight := (v: Interval) => ZTerm(k - 1)(v) + LenUpTo(k - 1)(v);
    SumLinear(vs, ZTerm(k - 1), LenUpTo(k - 1), 1, grown);
    SumLinear(vs, grown, LenIs(k), k, ZTerm(k));
  }

  lemma FirstTerms(vs: seq<Interval>, n: nat)
    requires Ordered(vs, n) && n >= 1
    ensures Sum(vs, XTerm(n, 1)) == Sum(vs, StartSum(1)) && Sum(vs, ZTerm(1)) == Sum(vs, LenIs(1))
    ensures Sum(vs, YTerm(1)) == Sum(vs, EndSum(1))
  {
    SumZero(vs, Zero());
    SumLinear(vs, StartSum(1), Zero(), 1, XTerm(n, 1));
    SumLinear(vs, EndSum(1), Zero(), 1, YTerm(1));
    SumLinear(vs, LenIs(1), Zero(), 1, ZTerm(1));
  }

  /** The fast numerators never go below zero: an interval from clock 0 that fits costs one
      and lies in at least the first window. */
  lemma NumeratorNonnegative(vs: seq<Interval>, n: nat, k: nat)
    requires Ordered(vs, n) && 1 <= k <= n
    ensures Numerator(vs, n, k) >= 0
  {
    NumeratorIsCounted(vs, n, k);
    SumNonnegative(vs, Counted(n, k));
  }

  /** One step of the recurrences, in the columns of the tables. */
  lemma Recurrence(vs: seq<Interval>, n: nat, i: nat)
    requires Ordered(vs, n) && 1 <= i < n
    ensures Sum(vs, XTerm(n, i + 1))
            == Sum(vs, XTerm(n, i)) + Sum(vs, Entry(StartMins, n, i)) - Sum(vs, StartsFrom(n - i)) >= 0
    ensures Sum(vs, YTerm(i + 1)) == Sum(vs, YTerm(i)) + Sum(vs, EndsUpTo(i - 1)) + Sum(vs, Entry(EndMaxes, n, i))
    ensures Sum(vs, ZTerm(i + 1)) == Sum(vs, ZTerm(i)) + Sum(vs, LenUpTo(i)) + (i + 1) * Sum(vs, Entry(Lens, n, i))
  {
    XStep(vs, n, i + 1);
    YStep(vs, n, i + 1);
    ZStep(vs, n, i + 1);
  }

  /** Third pass: the recurrences for X, Y and Z. */
  method Recurrences(vs: seq<Interval>, n: nat) returns (x: seq<nat>, y: seq<nat>, z: seq<nat>)
    requires Ordered(vs, n) && n >= 1
    ensures |x| == |y| == |z| == n
    ensures forall j | 0 <= j < n :: x[j] == Sum(vs, XTerm(n, j + 1))
    ensures forall j | 0 <= j < n :: y[j] == Sum(vs, YTerm(j + 1))
    ensures forall j | 0 <= j < n :: z[j] == Sum(vs, ZTerm(j + 1))
  {
    var starts, ends, lens, startSums, startMins, endSums, endMaxes := CountIntervals(vs, n);
    var startsFrom, endsUpTo, lenUpTo := RunningSums(vs, n, starts, ends, lens);
    FirstTerms(vs, n);
    x, y, z := [startSums[0]], [endSums[0]], [lens[0]];
    for i := 1 to n
      invariant |x| == |y| == |z| == i
      invariant forall j | 0 <= j < i :: x[j] == Sum(vs, XTerm(n, j + 1))
      invariant forall j | 0 <= j < i :: y[j] == Sum(vs, YTerm(j + 1))
      invariant forall j | 0 <= j < i :: z[j] == Sum(vs, ZTerm(j + 1))
    {
      var k := i + 1;
      Recurrence(vs, n, i);
      x := x + [x[i - 1] + startMins[i] - startsFrom[i]];
      y := y + [y[i - 1] + endsUpTo[i - 1] + endMaxes[i]];
      z := z + [z[i - 1] + lenUpTo[i - 1] + k * lens[i]];
    }
  }

  /**
    `reuse` in linear time.  For every window length `k` the numerator is the brute-force
    count over all windows, off by exactly `Offset`; every vector index is in range and no
    unsigned subtraction goes below zero.  The source indexes entry 0 of its vectors, so it
    needs a trace with at least one allocation.
    */
  method Numerators(vs: seq<Interval>, n: nat) returns (num: seq<nat>)
    requires Ordered(vs, n) && n >= 1
    ensures |num| == n
    ensures forall k | 1 <= k <= n :: num[k - 1] == Numerator(vs, n, k)
  {
    var x, y, z := Recurrences(vs, n);
    num := [];
    for k := 1 to n + 1
      invariant |num| == k - 1
      invariant forall j | 1 <= j < k :: num[j - 1] == Numerator(vs, n, j)
    {
      NumeratorIsWindows(vs, n, k);
      NumeratorNonnegative(vs, n, k);
      num := num + [x[k - 1] + z[k - 1] - y[k - 1]];
    }
  }

  /** With no interval from clock 0, in particular for a valid trace, the fast numerators are
      the brute-force counts. */
  lemma NoOffset(vs: seq<Interval>, k: nat)
    requires forall i | 0 <= i < |vs| :: vs[i].s >= 1
    ensures Sum(vs, Offset(k)) == 0
  {
    SumZero(vs, Offset(k));
  }

  /** End times strictly increase, so a window of `k` allocations holds at most `k` intervals. */
  lemma {:induction false} WindowBound(vs: seq<Interval>, n: nat, w: int, k: nat)
    requires Ordered(vs, n)
    ensures Inside(vs, w, k) <= k
    ensures vs != [] ==> Inside(vs, w, k) <= Max(0, vs[|vs| - 1].e + 1 - w)
    decreases |vs|
  {
    if vs != [] {
      WindowBound(vs[..|vs| - 1], n, w, k);
    }
  }

  lemma {:induction false} TotalBound(vs: seq<Interval>, n: nat, k: nat, m: nat)
    requires Ordered(vs, n)
    ensures 0 <= InsideFirst(vs, k, m) <= k * m
    decreases m
  {
    if m > 0 {
      TotalBound(vs, n, k, m - 1);
      WindowBound(vs, n, m - 1, k);
      SumZero(vs, Zero());
      SumBounds(vs, Zero(), InWindow(m - 1, k));
      assert k * m == k * (m - 1) + k;
    }
  }

  lemma BruteForceBound(vs: seq<Interval>, n: nat, k: nat)
    requires Ordered(vs, n) && k <= n
    ensures 0 <= BruteForce(vs, n, k) <= k * (n - k + 1)
  {
    TotalBound(vs, n, k, n - k + 1);
  }

  // When the numerator exceeds what the windows can hold

  /** The first allocation reuses a slot, and some later interval does not start at clock 0. */
  ghost predicate Overcounted(vs: seq<Interval>) {
    && (exists i :: 0 <= i < |vs| && vs[i].e == 0)
    && (exists i :: 0 <= i < |vs| && vs[i].s >= 1)
  }

  /** Otherwise `n - k + 1` windows of length `k` hold at most `k` intervals each. */
  lemma NumeratorBounded(vs: seq<Interval>, n: nat, k: nat)
    requires Ordered(vs, n) && 1 <= k <= n && !Overcounted(vs)
    ensures Numerator(vs, n, k) <= k * (n - k + 1)
  {
    if forall i | 0 <= i < |vs| :: vs[i].e != 0 {
      SumZero(vs, Zero());
      SumBounds(vs, Offset(k), Zero());
      TotalBound(vs, n, k, n - k + 1);
    } else {
      NumeratorIsCounted(vs, n, k);
      SumZero(vs, Zero());
      SumLinear(vs, Zero(), EndIs(0), k, Counted(n, k));
      OneEnd(vs, n, 0);
      Windows(k, n - k + 1, Sum(vs, EndIs(0)));
    }
  }

  lemma Windows(k: nat, m: nat, one: int)
    requires m >= 1 && one <= 1
    ensures k * one <= k * m
  {}

  /** End times are distinct. */
  lemma {:induction false} OneEnd(vs: seq<Interval>, n: nat, e: nat)
    requires Ordered(vs, n)
    ensures Sum(vs, EndIs(e)) <= 1 && ((forall i | 0 <= i < |vs| :: vs[i].e != e) ==> Sum(vs, EndIs(e)) == 0)
    decreases |vs|
  {
    if vs != [] {
      OneEnd(vs[..|vs| - 1], n, e);
    }
  }

  /** Overcounting shows in the one window of full length. */
  lemma NumeratorTooHigh(vs: seq<Interval>, n: nat)
    requires Ordered(vs, n) && n >= 1 && Overcounted(vs)
    ensures Numerator(vs, n, n) >= n + 1
  {
    var i :| 0 <= i < |vs| && vs[i].e == 0;
    var j :| 0 <= j < |vs| && vs[j].s >= 1;
    NumeratorIsCounted(vs, n, n);
    SumLinear(vs, StartsFrom(1), EndIs(0), n, Counted(n, n));
    SumAtLeast(vs, StartsFrom(1), j);
    SumAtLeast(vs, EndIs(0), i);
    Windows(n, Sum(vs, EndIs(0)), 1);
  }
}
