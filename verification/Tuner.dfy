/**
  The reuse counter's bursts and the tuner that decides from them how many blocks to fetch
  or return, on the allocation clock and with reals for the source's floats.
  */
module Tuner {
  import opened Options
  import opened Trace
  import R = Reuse
  import S = Sums

  function Average(total: int, windows: nat): real
    requires windows > 0
  {
    total as real / windows as real
  }

  /** Times the number of windows, `r` is the total again. */
  predicate Averages(r: real, total: int, windows: int) {
    r * windows as real == total as real
  }

  lemma AverageIsExact(total: int, windows: nat)
    requires windows > 0
    ensures Averages(Average(total, windows), total, windows)
  {
    var x, z := total as real, windows as real;
    assert x / z * z == x;
  }

  /** The reuse of a recorded burst for windows of `k` allocations: the average over them of
      the intervals they hold, with the fast form's offset. */
  ghost function ReuseAt(es: seq<Event>, k: nat): real
    requires 1 <= k <= Clock(es)
  {
    Average(R.Numerator(Intervals(es), Clock(es), k), Clock(es) - k + 1)
  }

  ghost function ReuseOf(es: seq<Event>): map<nat, real> {
    map k: nat | 1 <= k <= Clock(es) :: ReuseAt(es, k)
  }

  method ComputeReuse(es: seq<Event>, n: nat) returns (result: map<nat, real>)
    requires n == Clock(es) && n >= 1
    ensures result == ReuseOf(es)
    ensures forall k: nat :: k in result <==> 1 <= k <= n
    ensures forall k | 1 <= k <= n :: Averages(result[k], R.Numerator(Intervals(es), n, k), n - k + 1)
  {
    var intervals := FreeIntervals(es);
    IntervalsOrdered(es);
    var num := R.Numerators(intervals, n);
    result := AveragesOf(num);
    forall k: nat | 1 <= k <= n ensures result[k] == ReuseAt(es, k) {
      assert num[k - 1] == R.Numerator(Intervals(es), n, k);
    }
    AllExact(es, n);
  }

  /** Each numerator over the number of its windows. */
  method AveragesOf(num: seq<int>) returns (result: map<nat, real>)
    ensures forall k: nat :: k in result <==> 1 <= k <= |num|
    ensures forall k | 1 <= k <= |num| :: result[k] == Average(num[k - 1], |num| - k + 1)
  {
    result := map[];
    for k := 1 to |num| + 1
      invariant forall j :: j in result <==> 1 <= j < k
      invariant forall j | 1 <= j < k :: result[j] == Average(num[j - 1], |num| - j + 1)
    {
      result := result[k := Average(num[k - 1], |num| - k + 1)];
    }
  }

  lemma AllExact(es: seq<Event>, n: nat)
    requires n == Clock(es)
    ensures forall k: nat | 1 <= k <= n :: Averages(ReuseAt(es, k), R.Numerator(Intervals(es), n, k), n - k + 1)
  {
    forall k: nat | 1 <= k <= n ensures Averages(ReuseAt(es, k), R.Numerator(Intervals(es), n, k), n - k + 1) {
      ReuseIsExact(es, k);
    }
  }

  lemma ReuseIsExact(es: seq<Event>, k: nat)
    requires 1 <= k <= Clock(es)
    ensures Averages(ReuseAt(es, k), R.Numerator(Intervals(es), Clock(es), k), Clock(es) - k + 1)
  {
    AverageIsExact(R.Numerator(Intervals(es), Clock(es), k), Clock(es) - k + 1);
  }

  /** Without intervals from clock 0 the reuse of `k` is the plain average over the windows,
      and at most `k`. */
  lemma LateReuse(es: seq<Event>, k: nat)
    requires 1 <= k <= Clock(es) && forall i | 0 <= i < |Intervals(es)| :: Intervals(es)[i].s >= 1
    ensures Averages(ReuseAt(es, k), R.BruteForce(Intervals(es), Clock(es), k), Clock(es) - k + 1)
    ensures 0.0 <= ReuseAt(es, k) <= k as real
  {
    var total, windows := R.BruteForce(Intervals(es), Clock(es), k), Clock(es) - k + 1;
    assert R.Numerator(Intervals(es), Clock(es), k) == total by {
      R.NoOffset(Intervals(es), k);
    }
    WindowsBounded(es, k);
    AverageIsExact(total, windows);
    Quotient(total, k, windows);
  }

  lemma WindowsBounded(es: seq<Event>, k: nat)
    requires 1 <= k <= Clock(es)
    ensures 0 <= R.BruteForce(Intervals(es), Clock(es), k) <= k * (Clock(es) - k + 1)
  {
    IntervalsOrdered(es);
    R.BruteForceBound(Intervals(es), Clock(es), k);
  }

  lemma Quotient(a: int, b: int, c: nat)
    requires c > 0 && 0 <= a
    ensures 0.0 <= Average(a, c) && (Average(a, c) <= b as real <==> a <= b * c)
  {
    var x, y, z := a as real, b as real, c as real;
    assert (a <= b * c) <==> x <= y * z;
    assert x / z * z == x;
    assert (y - x / z) * z == y * z - x;
  }

  class ReuseCounter {
    const burstLength: nat
    const hibernationPeriod: nat
    var n: nat
    var trace: Buffer?
    var reuse: Option<map<nat, real>>
    ghost var burst: seq<Event>

    ghost function Repr(): set<object?>
      reads this, trace
    {
      if trace == null then {this} else {this, trace, trace.accesses}
    }

    /** The last computed reuse is that of the last finished burst. */
    ghost predicate Valid()
      reads Repr()
    {
      && (trace != null ==> trace.Valid())
      && (reuse.Some? ==> reuse.value == ReuseOf(burst))
    }

    ghost predicate Sampling()
      reads this
    {
      trace != null
    }

    /** The events of the burst being sampled, none while hibernating. */
    ghost function Recorded(): seq<Event>
      reads this, Repr()
    {
      if trace == null then [] else trace.Contents()
    }

    constructor (bl: nat, hp: nat)
      ensures Valid() && fresh(Repr()) && burstLength == bl && hibernationPeriod == hp
      ensures n == 0 && reuse == None && Sampling() && Recorded() == []
    {
      burstLength, hibernationPeriod := bl, hp;
      n, reuse, burst := 0, None, [];
      trace := new Buffer();
    }

    method Record(e: Event)
      requires Valid()
      modifies Repr()
      ensures Valid() && fresh(Repr() - old(Repr()))
      ensures n == old(n) && reuse == old(reuse) && burst == old(burst) && Sampling() == old(Sampling())
      ensures Sampling() ==> Recorded() == old(Recorded()) + [e]
    {
      if trace != null {
        trace.Add(e);
      }
    }

    /** Ends a burst after `burstLength` ticks and a hibernation after `hibernationPeriod`.
        Ending a burst computes its reuse, which needs a recorded allocation. */
    method IncTimer()
      requires Valid()
      requires Sampling() && n + 1 >= burstLength ==> Clock(Recorded()) >= 1
      modifies Repr()
      ensures Valid() && fresh(Repr() - old(Repr()))
      ensures if old(Sampling()) && old(n) + 1 >= burstLength then
                n == 0 && !Sampling() && burst == old(Recorded()) && reuse == Some(ReuseOf(burst))
              else if !old(Sampling()) && old(n) + 1 >= hibernationPeriod then
                n == 0 && Sampling() && Recorded() == [] && reuse == old(reuse) && burst == old(burst)
              else
                n == old(n) + 1 && trace == old(trace) && reuse == old(reuse) && burst == old(burst)
                && (Sampling() ==> Recorded() == old(Recorded()))
    {
      n := n + 1;
      if trace != null {
        if n >= burstLength {
          burst := trace.Contents();
          var r := ComputeReuse(trace.accesses[..trace.length], trace.allocCount);
          reuse := Some(r);
          n := 0;
          trace := null;
        }
      } else if n >= hibernationPeriod {
        n := 0;
        trace := new Buffer();
      }
    }

    /** An allocation is recorded before the clock ticks, so a burst that ends here includes it
        and is never computed on an empty trace. */
    method Tick(slot: nat)
      requires Valid()
      modifies Repr()
      ensures Valid() && fresh(Repr() - old(Repr()))
      ensures old(Sampling()) ==>
                var seen := old(Recorded()) + [Alloc(slot)];
                if old(n) + 1 >= burstLength then !Sampling() && burst == seen && reuse == Some(ReuseOf(seen))
                else Sampling() && Recorded() == seen && reuse == old(reuse)
    {
      Record(Alloc(slot));
      if trace != null {
        ClockSnoc(Recorded(), Alloc(slot));
      }
      IncTimer();
    }
  }

  /** The least integer that is not below `x`. */
  function Ceil(x: real): (r: int)
    ensures r as real - 1.0 < x <= r as real
  {
    -((-x).Floor)
  }

  /** The demand of windows of `k` allocations: `k` less the reuse, and `k` for windows longer
      than the burst. */
  function DemandFrom(reuse: map<nat, real>, k: nat): real {
    k as real - (if k in reuse then reuse[k] else 0.0)
  }

  /** What the demand is: `k` less the average number of reuses per window of the burst, and `k`
      for windows the burst does not have. */
  lemma DemandMeans(es: seq<Event>, k: nat)
    ensures 1 <= k <= Clock(es) ==>
              Averages(k as real - DemandFrom(ReuseOf(es), k),
                       R.Numerator(Intervals(es), Clock(es), k), Clock(es) - k + 1)
    ensures !(1 <= k <= Clock(es)) ==> DemandFrom(ReuseOf(es), k) == k as real
  {
    if 1 <= k <= Clock(es) {
      ReuseIsExact(es, k);
      Complement(k as real, ReuseAt(es, k), DemandFrom(ReuseOf(es), k));
    }
  }

  lemma Complement(k: real, r: real, d: real)
    requires d == k - r
    ensures k - d == r
  {}

  /** For every burst the demand of `k` is at most `k`, and it is not negative exactly if the
      fast numerator is no more than `k` per window. */
  lemma DemandSign(es: seq<Event>, k: nat)
    ensures DemandFrom(ReuseOf(es), k) <= k as real
    ensures DemandFrom(ReuseOf(es), k) >= 0.0 <==>
            (1 <= k <= Clock(es) ==> R.Numerator(Intervals(es), Clock(es), k) <= k * (Clock(es) - k + 1))
  {
    if 1 <= k <= Clock(es) {
      ReuseSign(es, k);
      assert ReuseOf(es)[k] == ReuseAt(es, k);
    }
  }

  lemma ReuseSign(es: seq<Event>, k: nat)
    requires 1 <= k <= Clock(es)
    ensures 0.0 <= ReuseAt(es, k)
    ensures ReuseAt(es, k) <= k as real <==>
            R.Numerator(Intervals(es), Clock(es), k) <= k * (Clock(es) - k + 1)
  {
    var total, windows := R.Numerator(Intervals(es), Clock(es), k), Clock(es) - k + 1;
    NumeratorSign(es, k);
    Quotient(total, k, windows);
    assert ReuseAt(es, k) == Average(total, windows);
  }

  lemma NumeratorSign(es: seq<Event>, k: nat)
    requires 1 <= k <= Clock(es)
    ensures R.Numerator(Intervals(es), Clock(es), k) >= 0
  {
    IntervalsOrdered(es);
    R.NumeratorNonnegative(Intervals(es), Clock(es), k);
  }

  /** So it lies between 0 and `k` unless the burst is overcounted; in particular after every
      burst without intervals from clock 0. */
  lemma DemandBounds(es: seq<Event>, k: nat)
    requires !R.Overcounted(Intervals(es))
    ensures 0.0 <= DemandFrom(ReuseOf(es), k) <= k as real
  {
    DemandSign(es, k);
    if 1 <= k <= Clock(es) {
      IntervalsOrdered(es);
      R.NumeratorBounded(Intervals(es), Clock(es), k);
    }
  }

  /** And the condition is exact: an overcounted burst makes the demand of its own length
      negative. */
  lemma DemandExact(es: seq<Event>)
    ensures (forall k: nat :: DemandFrom(ReuseOf(es), k) >= 0.0) <==> !R.Overcounted(Intervals(es))
  {
    if R.Overcounted(Intervals(es)) {
      var n := Clock(es);
      IntervalsOrdered(es);
      R.NumeratorTooHigh(Intervals(es), n);
      DemandSign(es, n);
    } else {
      forall k: nat ensures DemandFrom(ReuseOf(es), k) >= 0.0 {
        DemandBounds(es, k);
      }
    }
  }

  /** Both frees reuse at once, the first from clock 0: the demand of 2 is -1. */
  lemma NegativeDemand()
    ensures var es := [Event.Free(5), Alloc(5), Event.Free(5), Alloc(5)];
            Intervals(es) == [Interval(0, 0), Interval(1, 1)] && DemandFrom(ReuseOf(es), 2) == -1.0
  {
    var es := [Event.Free(5), Alloc(5), Event.Free(5), Alloc(5)];
    ReuseBurst(es);
    var vs := Intervals(es);
    IntervalsOrdered(es);
    R.NumeratorIsCounted(vs, 2, 2);
    S.SumSnoc([vs[0]], vs[1], R.Counted(2, 2));
    S.SumSnoc([], vs[0], R.Counted(2, 2));
    assert vs == [vs[0]] + [vs[1]] && [vs[0]] == [] + [vs[0]];
    assert R.Numerator(vs, 2, 2) == 3;
  }

  lemma ReuseBurst(es: seq<Event>)
    requires es == [Event.Free(5), Alloc(5), Event.Free(5), Alloc(5)]
    ensures Intervals(es) == [Interval(0, 0), Interval(1, 1)] && Clock(es) == 2
  {
    var one, two, three := es[..1], es[..2], es[..3];
    assert one[..0] == [] && two[..1] == one && three[..2] == two;
    assert Clock(one) == 0 && Frees(one) == map[5 := 0] && Intervals(one) == [];
    assert Clock(two) == 1 && Frees(two) == map[5 := 0] && Intervals(two) == [Interval(0, 0)];
    assert Clock(three) == 1 && Frees(three) == map[5 := 1] && Intervals(three) == [Interval(0, 0)];
  }

  /** A bin with at least `2 * demand + 1` blocks has `ceil(demand) + 1` to give back. */
  lemma EnoughToReturn(cached: nat, demand: real)
    requires demand >= 0.0 && cached as real >= 2.0 * demand + 1.0
    ensures 1 <= Ceil(demand) + 1 <= cached
  {
    if demand == 0.0 {
    } else {
      assert (Ceil(demand) - 1) as real < demand;
      if demand < 1.0 {
        assert cached >= 2;
      } else {
        assert (Ceil(demand) as real) < demand + 1.0 <= 2.0 * demand;
      }
    }
  }

  /** The distance to the next fetch that keeps the allocations per fetch on target. */
  function Dapf(target: nat, time: nat, fetchCount: int): (k: int)
    ensures time < target * (fetchCount + 1) ==> time + k == target * (fetchCount + 1)
    ensures time >= target * (fetchCount + 1) ==> k == target
  {
    if time >= target * (fetchCount + 1) then target else target * (fetchCount + 1) - time
  }

  /** The allocation clock at the `i`-th fetch from now on, if each comes at the distance
      computed at the one before. */
  function FetchTime(target: nat, time: nat, fetchCount: nat, i: nat): int
    decreases i
  {
    if i == 0 then time
    else
      var last := FetchTime(target, time, fetchCount, i - 1);
      last + Dapf(target, Clamp(last), fetchCount + i - 1)
  }

  /** Ahead of its target the tuner lands on it with the next fetch and stays on it, so there
      are exactly `target` allocations per fetch; behind it every further fetch comes after
      `target` allocations. */
  lemma {:induction false} FetchSchedule(target: nat, time: nat, fetchCount: nat, i: nat)
    requires i >= 1
    ensures FetchTime(target, time, fetchCount, i)
            == if time < target * (fetchCount + 1) then target * (fetchCount + i) else time + target * i
    decreases i
  {
    var last := FetchTime(target, time, fetchCount, i - 1);
    if i > 1 {
      FetchSchedule(target, time, fetchCount, i - 1);
    }
    NextFetch(target, time, fetchCount, i, last);
  }

  lemma NextFetch(target: nat, time: nat, fetchCount: nat, i: nat, last: int)
    requires i >= 1
    requires last == if i == 1 then time
                     else if time < target * (fetchCount + 1) then target * (fetchCount + i - 1)
                     else time + target * (i - 1)
    ensures last >= 0
    ensures last + Dapf(target, last, fetchCount + i - 1)
            == if time < target * (fetchCount + 1) then target * (fetchCount + i) else time + target * i
  {
    var before, next := target * (fetchCount + i - 1), target * (fetchCount + i);
    assert next == before + target && target * i == target * (i - 1) + target;
    assert target * (fetchCount + i) == target * (fetchCount + 1) + target * (i - 1);
    assert before >= 0 && target * (i - 1) >= 0;
  }

  /** From the start every fetch finds the clock at `target` times the number of fetches. */
  lemma OnTargetFromStart(target: nat, i: nat)
    ensures FetchTime(target, 0, 0, i) == target * i
  {
    if i >= 1 {
      FetchSchedule(target, 0, 0, i);
    }
  }

  /** A float cast to an unsigned integer saturates at 0. */
  function Clamp(x: int): (r: nat)
    ensures r >= x && (r == x || r == 0)
  {
    if x < 0 then 0 else x
  }

  /** The least number of blocks that is not below the demand. */
  predicate Covers(blocks: nat, demand: real) {
    demand <= blocks as real && (blocks > 0 ==> blocks as real < demand + 1.0)
  }

  lemma FetchBounded(es: seq<Event>, k: nat)
    ensures var d := DemandFrom(ReuseOf(es), k); Covers(Clamp(Ceil(d)), d) && Clamp(Ceil(d)) <= k
  {
    DemandSign(es, k);
  }

  class ApfTuner {
    const target: nat
    const counter: ReuseCounter
    var time: nat
    var fetchCount: nat

    ghost predicate Valid()
      reads this, counter, counter.Repr()
    {
      counter.Valid() && this !in counter.Repr()
    }

    constructor (target: nat, burst: nat, hibernation: nat)
      ensures Valid() && fresh(counter) && fresh(counter.Repr()) && time == 0 && fetchCount == 0
    {
      this.target := target;
      counter := new ReuseCounter(burst, hibernation);
      time, fetchCount := 0, 0;
    }

    /** The next fetch lands on target, or comes a whole target later if it was missed. */
    function CalculateDapf(): (k: nat)
      reads this
      ensures time < target * (fetchCount + 1) ==> time + k == target * (fetchCount + 1)
      ensures time >= target * (fetchCount + 1) ==> k == target
    {
      Dapf(target, time, fetchCount)
    }

    function Demand(k: nat): (d: Option<real>)
      reads this, counter
      ensures d.Some? <==> k <= time && counter.reuse.Some?
    {
      if k > time || counter.reuse.None? then None
      else Some(DemandFrom(counter.reuse.value, k))
    }

    /** Notes an allocation in the clock and the counter. */
    method Note(slot: nat)
      requires Valid()
      modifies this, counter.Repr()
      ensures Valid() && fresh(counter.Repr() - old(counter.Repr()))
      ensures time == old(time) + 1 && fetchCount == old(fetchCount)
      ensures old(counter.Sampling()) ==>
                var seen := old(counter.Recorded()) + [Alloc(slot)];
                if old(counter.n) + 1 >= counter.burstLength
                then !counter.Sampling() && counter.burst == seen && counter.reuse == Some(ReuseOf(seen))
                else counter.Sampling() && counter.Recorded() == seen && counter.reuse == old(counter.reuse)
    {
      time := time + 1;
      counter.Tick(slot);
    }

    /** Notes an allocation; when the bin has run dry asks for `ceil(demand)` blocks. */
    method Malloc(slot: nat, cached: nat) returns (ok: bool, fetched: Option<nat>)
      requires Valid()
      modifies this, counter.Repr()
      ensures Valid() && fresh(counter.Repr() - old(counter.Repr()))
      ensures time == old(time) + 1 && fetchCount == old(fetchCount) + (if fetched.Some? then 1 else 0)
      ensures ok <==> cached > 0 || fetched.Some?
      ensures var k := Dapf(target, time, old(fetchCount));
              && (fetched.Some? <==> cached == 0 && k <= time && counter.reuse.Some?)
              && (fetched.Some? ==> Covers(fetched.value, DemandFrom(counter.reuse.value, k)) && fetched.value <= k)
    {
      Note(slot);
      ok, fetched := true, None;
      if cached == 0 {
        var k := CalculateDapf();
        var d := Demand(k);
        if d == None {
          return false, None;
        }
        fetched := Some(Clamp(Ceil(d.value)));
        FetchBounded(counter.burst, k);
        fetchCount := fetchCount + 1;
      }
    }

    /** Notes a free; when the bin holds much more than the demand gives some blocks back,
        never more than it holds. */
    method Free(slot: nat, cached: nat) returns (ok: bool, returned: nat)
      requires Valid()
      modifies counter.Repr()
      ensures Valid() && fresh(counter.Repr() - old(counter.Repr()))
      ensures counter.reuse == old(counter.reuse) && counter.Sampling() == old(counter.Sampling())
      ensures counter.Sampling() ==>
                counter.Recorded() == old(counter.Recorded()) + [Event.Free(slot)]
      ensures returned <= cached
      ensures var d := Demand(CalculateDapf());
              && (ok <==> d.Some? && d.value >= 0.0)
              && (returned > 0 <==> ok && cached as real >= 2.0 * d.value + 1.0)
              && (returned > 0 ==> returned == Ceil(d.value) + 1 && d.value + 1.0 <= returned as real < d.value + 2.0)
    {
      counter.Record(Event.Free(slot));
      var d := Demand(CalculateDapf());
      if d == None || d.value < 0.0 {
        return false, 0;
      }
      ok, returned := true, 0;
      if cached as real >= 2.0 * d.value + 1.0 {
        EnoughToReturn(cached, d.value);
        returned := Ceil(d.value) + 1;
      }
    }
  }

  lemma ClockSnoc(es: seq<Event>, e: Event)
    requires es != [] && es[|es| - 1] == e && e.Alloc?
    ensures Clock(es) >= 1
  {}
}
