/**
  The liveness counter: four histograms of running sums from which the average number of
  live objects per window of length k is a closed formula.
  */
module Liveness {
  import opened Options
  import opened Sums

  const INIT_HISTOGRAM_LENGTH := 32

  /** A growable histogram that is 0 wherever nothing was added. */
  class Histogram {
    var histogram: array<nat>
    var maxKey: nat

    ghost predicate Valid()
      reads this, histogram
    {
      maxKey == histogram.Length && maxKey > 1
    }

    /** The source's `get`: keys past the end read as 0. */
    function Get(key: nat): nat
      requires Valid()
      reads this, histogram
    {
      if key >= maxKey then 0 else histogram[key]
    }

    constructor ()
      ensures Valid() && fresh(histogram) && forall k: nat :: Get(k) == 0
    {
      histogram := new nat[INIT_HISTOGRAM_LENGTH](_ => 0);
      maxKey := INIT_HISTOGRAM_LENGTH;
    }

    method Add(key: nat, val: nat)
      requires Valid()
      modifies this, histogram
      ensures Valid() && (histogram == old(histogram) || fresh(histogram))
      ensures forall k: nat :: Get(k) == old(Get(k)) + (if k == key then val else 0)
    {
      if key >= maxKey - 1 {
        Grow(key);
      }
      histogram[key] := histogram[key] + val;
    }

    /** Doubles the capacity until `failedKey` fits; the old entries are copied and the new
        ones are 0, so no entry changes. */
    method Grow(failedKey: nat)
      requires Valid()
      modifies this
      ensures Valid() && fresh(histogram) && failedKey < maxKey && old(maxKey) < maxKey
      ensures forall k: nat :: Get(k) == old(Get(k))
    {
      var newMax := maxKey * 2;
      while newMax <= failedKey
        invariant newMax >= maxKey * 2
        decreases failedKey - newMax
      {
        newMax := newMax * 2;
      }
      var grown := new nat[newMax](_ => 0);
      for i := 0 to maxKey
        modifies grown
        invariant forall j | 0 <= j < newMax :: grown[j] == if j < i then histogram[j] else 0
      {
        grown[i] := histogram[i];
      }
      histogram, maxKey := grown, newMax;
    }
  }

  /** An object's lifetime: allocated at time `born`, freed at time `died` if at all. */
  datatype Obj = Obj(born: nat, died: Option<nat>)

  type Weight = Obj -> int

  function Zero(): Weight {
    (o: Obj) => 0
  }

  function One(): Weight {
    (o: Obj) => 1
  }

  // What the four histograms hold at key `i`

  function BornBy(i: int): Weight {
    (o: Obj) => if o.born <= i then 1 else 0
  }

  function BornSum(i: int): Weight {
    (o: Obj) => if o.born <= i then o.born else 0
  }

  function DiedBy(i: int): Weight {
    (o: Obj) => if o.died.Some? && o.died.value <= i then 1 else 0
  }

  function DiedSum(i: int): Weight {
    (o: Obj) => if o.died.Some? && o.died.value <= i then o.died.value else 0
  }

  // The brute-force reference

  /** The object is alive at some time of the window of `k` ticks starting at `w`. */
  predicate Overlaps(o: Obj, w: int, k: int) {
    o.born < w + k && (o.died.None? || w <= o.died.value)
  }

  /** How many of the windows starting at 1, ..., m the object overlaps. */
  function Touched(o: Obj, k: int, m: nat): nat {
    if m == 0 then 0 else Touched(o, k, m - 1) + (if Overlaps(o, m, k) then 1 else 0)
  }

  /** Pairs of an object and one of the `n - k + 1` windows of length `k` it overlaps. */
  function TouchedBy(k: int, m: nat): Weight {
    (o: Obj) => Touched(o, k, m)
  }

  function DiedOr(o: Obj, m: int): int {
    if o.died.Some? then Min(m, o.died.value) else m
  }

  /** Lifetimes are ordered and within the clock. */
  ghost predicate Lived(objs: seq<Obj>, n: nat) {
    forall i | 0 <= i < |objs| ::
      objs[i].born <= n && (objs[i].died.Some? ==> objs[i].born <= objs[i].died.value <= n)
  }

  lemma {:induction false} TouchedForm(o: Obj, k: nat, m: nat)
    requires k >= 1 && (o.died.Some? ==> o.born <= o.died.value)
    ensures Touched(o, k, m) == Max(0, DiedOr(o, m) - Max(k, o.born) + k)
    decreases m
  {
    if m > 0 {
      TouchedForm(o, k, m - 1);
    }
  }

  function UntilDeath(m: int): Weight {
    (o: Obj) => DiedOr(o, m)
  }

  function FromBirth(k: int): Weight {
    (o: Obj) => Max(k, o.born)
  }

  /** The formula of `liveness` counts (object, window) pairs. */
  lemma Formula(objs: seq<Obj>, n: nat, k: nat)
    requires Lived(objs, n) && 1 <= k <= n
    ensures var i := n - k + 1;
            var m := |objs|;
            ClosedForm(m - Sum(objs, DiedBy(i)), i, Sum(objs, DiedSum(i)), m, k, Sum(objs, BornBy(k)),
                       Sum(objs, BornSum(n)) - Sum(objs, BornSum(k)))
            == Sum(objs, TouchedBy(k, i))
  {
    var i := n - k + 1;
    SumOne(objs, One());
    SumZero(objs, Zero());
    DeathForm(objs, i);
    BirthForm(objs, n, k);
    forall j | 0 <= j < |objs|
      ensures TouchedBy(k, i)(objs[j]) == UntilDeath(i)(objs[j]) + (k - FromBirth(k)(objs[j]))
    {
      TouchedForm(objs[j], k, i);
    }
    var short: Weight := (o: Obj) => k - FromBirth(k)(o);
    SumLinear(objs, UntilDeath(i), short, 1, TouchedBy(k, i));
    var ks: Weight := (o: Obj) => k;
    SumLinear(objs, Zero(), One(), k, ks);
    SumLinear(objs, ks, FromBirth(k), -1, short);
  }

  function Survives(i: int): Weight {
    (o: Obj) => 1 - DiedBy(i)(o)
  }

  lemma DeathForm(objs: seq<Obj>, i: nat)
    ensures Sum(objs, UntilDeath(i)) == (|objs| - Sum(objs, DiedBy(i))) * i + Sum(objs, DiedSum(i))
  {
    assert Sum(objs, Survives(i)) == |objs| - Sum(objs, DiedBy(i)) by {
      SumOne(objs, One());
      SumLinear(objs, One(), DiedBy(i), -1, Survives(i));
    }
    SumLinear(objs, DiedSum(i), Survives(i), i, UntilDeath(i));
  }

  lemma BirthForm(objs: seq<Obj>, n: nat, k: nat)
    requires Lived(objs, n) && k <= n
    ensures Sum(objs, FromBirth(k)) == Sum(objs, BornBy(k)) * k + Sum(objs, BornSum(n)) - Sum(objs, BornSum(k))
  {
    var late: Weight := (o: Obj) => BornSum(n)(o) - BornSum(k)(o);
    SumLinear(objs, BornSum(n), BornSum(k), -1, late);
    SumLinear(objs, late, BornBy(k), k, FromBirth(k));
  }

  lemma NoUnderflow(objs: seq<Obj>, n: nat, k: nat, i: nat)
    requires Lived(objs, n) && k <= n
    ensures Sum(objs, DiedBy(i)) <= |objs| && Sum(objs, BornSum(k)) <= Sum(objs, BornSum(n))
    ensures 0 <= Sum(objs, TouchedBy(k, i))
  {
    SumOne(objs, One());
    SumZero(objs, Zero());
    SumBounds(objs, DiedBy(i), One());
    SumBounds(objs, BornSum(k), BornSum(n));
    SumBounds(objs, Zero(), TouchedBy(k, i));
  }

  /** The four histograms. */
  datatype Column = BornCounts | BornSums | DiedCounts | DiedSums

  function Entry(col: Column, i: int): Weight {
    match col
    case BornCounts => BornBy(i)
    case BornSums => BornSum(i)
    case DiedCounts => DiedBy(i)
    case DiedSums => DiedSum(i)
  }

  /** Up to the current time the histogram holds running sums; past it, zeros. */
  ghost predicate Records(h: Histogram, col: Column, objs: seq<Obj>, n: nat)
    reads h, h.histogram
  {
    h.Valid() && forall i: nat :: h.Get(i) == if i <= n then Sum(objs, Entry(col, i)) else 0
  }

  /** One tick later no object was born or freed, so the running sum carries over. */
  method Carry(h: Histogram, ghost col: Column, ghost objs: seq<Obj>, n: nat)
    requires n > 0 && Lived(objs, n - 1) && Records(h, col, objs, n - 1)
    modifies h, h.histogram
    ensures Records(h, col, objs, n) && (h.histogram == old(h.histogram) || fresh(h.histogram))
  {
    h.Add(n, h.Get(n - 1));
    SumZero(objs, Zero());
    SumLinear(objs, Entry(col, n - 1), Zero(), 1, Entry(col, n));
  }

  method CarryBoth(g: Histogram, ghost c: Column, h: Histogram, ghost d: Column, ghost objs: seq<Obj>, n: nat)
    requires n > 0 && Lived(objs, n - 1) && Records(g, c, objs, n - 1) && Records(h, d, objs, n - 1)
    requires g != h && g.histogram != h.histogram
    modifies g, g.histogram, h, h.histogram
    ensures Records(g, c, objs, n) && Records(h, d, objs, n) && g.histogram != h.histogram
    ensures g.histogram == old(g.histogram) || fresh(g.histogram)
    ensures h.histogram == old(h.histogram) || fresh(h.histogram)
  {
    Carry(g, c, objs, n);
    Carry(h, d, objs, n);
  }

  /** Adds to the current time what turning `objs` into `objs'` adds to the column. */
  method Note(h: Histogram, ghost col: Column, ghost objs: seq<Obj>, ghost objs': seq<Obj>, n: nat, val: nat)
    requires Records(h, col, objs, n)
    requires forall i: nat | i <= n ::
               Sum(objs', Entry(col, i)) == Sum(objs, Entry(col, i)) + (if i == n then val else 0)
    modifies h, h.histogram
    ensures Records(h, col, objs', n) && (h.histogram == old(h.histogram) || fresh(h.histogram))
  {
    h.Add(n, val);
  }

  lemma BirthEntries(objs: seq<Obj>, n: nat, i: nat)
    requires i <= n
    ensures var objs' := objs + [Obj(n, None)];
            && Sum(objs', BornBy(i)) == Sum(objs, BornBy(i)) + (if i == n then 1 else 0)
            && Sum(objs', BornSum(i)) == Sum(objs, BornSum(i)) + (if i == n then n else 0)
            && Sum(objs', DiedBy(i)) == Sum(objs, DiedBy(i)) && Sum(objs', DiedSum(i)) == Sum(objs, DiedSum(i))
  {
    var o := Obj(n, None);
    SumSnoc(objs, o, BornBy(i));
    SumSnoc(objs, o, BornSum(i));
    SumSnoc(objs, o, DiedBy(i));
    SumSnoc(objs, o, DiedSum(i));
  }

  lemma DeathEntries(objs: seq<Obj>, j: nat, n: nat, i: nat)
    requires i <= n && j < |objs| && objs[j].died == None
    ensures var objs' := objs[j := objs[j].(died := Some(n))];
            && Sum(objs', DiedBy(i)) == Sum(objs, DiedBy(i)) + (if i == n then 1 else 0)
            && Sum(objs', DiedSum(i)) == Sum(objs, DiedSum(i)) + (if i == n then n else 0)
            && Sum(objs', BornBy(i)) == Sum(objs, BornBy(i)) && Sum(objs', BornSum(i)) == Sum(objs, BornSum(i))
  {
    var o := objs[j].(died := Some(n));
    SumUpdate(objs, j, o, BornBy(i));
    SumUpdate(objs, j, o, BornSum(i));
    SumUpdate(objs, j, o, DiedBy(i));
    SumUpdate(objs, j, o, DiedSum(i));
  }

  /** The average as an exact quotient; a denominator of 0 is the float's division by zero. */
  datatype Quotient = Quotient(num: nat, den: nat)

  class LivenessCounter {
    var n: nat
    var m: nat
    const allocSum: Histogram
    const allocCounts: Histogram
    const freeSum: Histogram
    const freeCounts: Histogram
    /** The objects so far; which one a free ends is proof-only, so the results hold for every
        pairing of frees with earlier allocations. */
    ghost var objs: seq<Obj>

    ghost predicate Apart()
      reads this, allocSum, allocCounts, freeSum, freeCounts
    {
      && allocSum != allocCounts && allocSum != freeSum && allocSum != freeCounts
      && allocCounts != freeSum && allocCounts != freeCounts && freeSum != freeCounts
      && allocSum.histogram != allocCounts.histogram && allocSum.histogram != freeSum.histogram
      && allocSum.histogram != freeCounts.histogram && allocCounts.histogram != freeSum.histogram
      && allocCounts.histogram != freeCounts.histogram && freeSum.histogram != freeCounts.histogram
    }

    ghost function Repr(): set<object>
      reads this, allocSum, allocCounts, freeSum, freeCounts
    {
      {this, allocSum, allocCounts, freeSum, freeCounts,
       allocSum.histogram, allocCounts.histogram, freeSum.histogram, freeCounts.histogram}
    }

    ghost predicate Valid()
      reads Repr()
    {
      && Apart() && m == |objs| && Lived(objs, n)
      && Records(allocCounts, BornCounts, objs, n) && Records(allocSum, BornSums, objs, n)
      && Records(freeCounts, DiedCounts, objs, n) && Records(freeSum, DiedSums, objs, n)
    }

    constructor ()
      ensures Valid() && fresh(Repr()) && n == 0 && objs == []
    {
      n, m, objs := 0, 0, [];
      allocSum := new Histogram();
      allocCounts := new Histogram();
      freeSum := new Histogram();
      freeCounts := new Histogram();
    }

    method Alloc()
      requires Valid()
      modifies Repr()
      ensures Valid() && fresh(Repr() - old(Repr()))
      ensures n == old(n) && objs == old(objs) + [Obj(n, None)]
    {
      ghost var objs' := objs + [Obj(n, None)];
      forall i: nat | i <= n { BirthEntries(objs, n, i); }
      Note(allocSum, BornSums, objs, objs', n, n);
      Note(allocCounts, BornCounts, objs, objs', n, 1);
      m := m + 1;
      objs := objs';
    }

    method Free(ghost i: nat)
      requires Valid() && i < |objs| && objs[i].died == None
      modifies Repr()
      ensures Valid() && fresh(Repr() - old(Repr()))
      ensures n == old(n) && objs == old(objs)[i := old(objs)[i].(died := Some(n))]
    {
      ghost var objs' := objs[i := objs[i].(died := Some(n))];
      forall j: nat | j <= n { DeathEntries(objs, i, n, j); }
      Note(freeSum, DiedSums, objs, objs', n, n);
      Note(freeCounts, DiedCounts, objs, objs', n, 1);
      objs := objs';
    }

    method IncTimer()
      requires Valid()
      modifies Repr()
      ensures Valid() && fresh(Repr() - old(Repr()))
      ensures n == old(n) + 1 && objs == old(objs)
    {
      n := n + 1;
      CarryBoth(allocCounts, BornCounts, allocSum, BornSums, objs, n);
      CarryBoth(freeCounts, DiedCounts, freeSum, DiedSums, objs, n);
    }

    /** The average number of objects alive per window of `k` ticks: over the `n - k + 1`
        windows, the number of (object, window) pairs that overlap.  No unsigned subtraction
        goes below zero. */
    method Evaluate(k: nat) returns (q: Quotient)
      requires Valid()
      ensures 1 <= k <= n ==> q.num == Sum(objs, TouchedBy(k, n - k + 1)) && q.den == n - k + 1
      ensures k > n + 1 ==> q.num == 0 && q.den == 1
      ensures k == 0 || k == n + 1 ==> q.num == |objs| * (n + 1) - Sum(objs, BornSum(n)) && q.den == n + 1 - k
      ensures q.den == 0 <==> k == n + 1
    {
      var i := n - k + 1;
      if i < 0 {
        return Quotient(0, 1);
      }
      var fc, fs, ac := freeCounts.Get(i), freeSum.Get(i), allocCounts.Get(k);
      var an, ak := allocSum.Get(n), allocSum.Get(k);
      if 1 <= k <= n {
        InnerSafe(objs, n, k);
      } else if k == 0 {
        EdgeSafe(objs, n);
        FirstEdge(m, n, ac, an);
      } else {
        EdgeSafe(objs, n);
        LastEdge(m, n, fc, an);
      }
      var alive: nat := m - fc;
      var late: nat := an - ak;
      q := Quotient(ClosedForm(alive, i, fs, m, k, ac, late), i);
    }
  }

  /** While frees are fewer than allocations some object is still alive, so a run in which
      frees never outnumber allocations always has a pairing. */
  lemma SomeAlive(objs: seq<Obj>, n: nat)
    requires Lived(objs, n) && Sum(objs, DiedBy(n)) < |objs|
    ensures exists i :: 0 <= i < |objs| && objs[i].died == None
  {
    if forall i | 0 <= i < |objs| :: objs[i].died != None {
      SumOne(objs, DiedBy(n));
    }
  }

  /** `tmp1 + m * k - tmp2`. */
  function ClosedForm(alive: int, i: int, fs: int, m: int, k: int, ac: int, late: int): int {
    alive * i + fs + m * k - (ac * k + late)
  }

  lemma InnerSafe(objs: seq<Obj>, n: nat, k: nat)
    requires Lived(objs, n) && 1 <= k <= n
    ensures var i := n - k + 1;
            var m := |objs|;
            && Sum(objs, DiedBy(i)) <= m && Sum(objs, BornSum(k)) <= Sum(objs, BornSum(n))
            && ClosedForm(m - Sum(objs, DiedBy(i)), i, Sum(objs, DiedSum(i)), m, k, Sum(objs, BornBy(k)),
                          Sum(objs, BornSum(n)) - Sum(objs, BornSum(k)))
               == Sum(objs, TouchedBy(k, i)) >= 0
  {
    Formula(objs, n, k);
    NoUnderflow(objs, n, k, n - k + 1);
  }

  lemma FirstEdge(m: nat, n: nat, ac: nat, an: nat)
    ensures ClosedForm(m, n + 1, 0, m, 0, ac, an) == m * (n + 1) - an
  {}

  lemma LastEdge(m: nat, n: nat, fc: nat, an: nat)
    ensures ClosedForm(m - fc, 0, 0, m, n + 1, 0, an) == m * (n + 1) - an
  {}

  lemma EdgeSafe(objs: seq<Obj>, n: nat)
    requires Lived(objs, n)
    ensures 0 <= Sum(objs, BornSum(n)) <= |objs| * (n + 1)
    ensures 0 <= Sum(objs, DiedBy(0)) <= |objs| && Sum(objs, BornSum(0)) == Sum(objs, DiedSum(0)) == 0
  {
    SumZero(objs, BornSum(0));
    SumZero(objs, DiedSum(0));
    SumOne(objs, One());
    SumZero(objs, Zero());
    SumBounds(objs, Zero(), DiedBy(0));
    SumBounds(objs, DiedBy(0), One());
    BirthsBounded(objs, n);
  }

  lemma BirthsBounded(objs: seq<Obj>, n: nat)
    requires Lived(objs, n)
    ensures 0 <= Sum(objs, BornSum(n)) <= |objs| * (n + 1)
  {
    SumOne(objs, One());
    SumZero(objs, Zero());
    SumBounds(objs, Zero(), BornSum(n));
    var ns: Weight := (o: Obj) => n + 1;
    SumLinear(objs, Zero(), One(), n + 1, ns);
    SumBounds(objs, BornSum(n), ns);
    assert (n + 1) * |objs| == |objs| * (n + 1);
  }
}
