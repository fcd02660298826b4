/**
  The trace of allocations and frees a reuse burst records, on the allocation clock, and the
  free intervals read off it.
  */
module Trace {

  datatype Event = Alloc(slot: nat) | Free(slot: nat)

  /** A slot freed when `s` allocations had happened and handed out again by allocation `e`. */
  datatype Interval = Interval(s: nat, e: nat) {
    function Len(): int {
      e - s + 1
    }
  }

  /** The allocation clock after the events `es`. */
  function Clock(es: seq<Event>): nat {
    if es == [] then 0
    else Clock(es[..|es| - 1]) + (if es[|es| - 1].Alloc? then 1 else 0)
  }

  /** For each slot freed so far, the clock of its latest free. */
  function Frees(es: seq<Event>): map<nat, nat> {
    if es == [] then map[]
    else
      var p, last := es[..|es| - 1], es[|es| - 1];
      if last.Free? then Frees(p)[last.slot := Clock(p)] else Frees(p)
  }

  function Intervals(es: seq<Event>): seq<Interval> {
    if es == [] then []
    else
      var p, last := es[..|es| - 1], es[|es| - 1];
      if last.Alloc? && last.slot in Frees(p)
      then Intervals(p) + [Interval(Frees(p)[last.slot], Clock(p))]
      else Intervals(p)
  }

  /** `free_intervals` walks the trace once, keeping a clock and the latest frees. */
  method FreeIntervals(es: seq<Event>) returns (result: seq<Interval>)
    ensures result == Intervals(es)
  {
    var frees: map<nat, nat> := map[];
    var allocClock: nat := 0;
    result := [];
    for i := 0 to |es|
      invariant frees == Frees(es[..i]) && allocClock == Clock(es[..i]) && result == Intervals(es[..i])
    {
      assert es[..i + 1][..i] == es[..i] && es[..i + 1][i] == es[i];
      match es[i] {
        case Free(s) =>
          frees := frees[s := allocClock];
        case Alloc(e) =>
          if e in frees {
            result := result + [Interval(frees[e], allocClock)];
          }
          allocClock := allocClock + 1;
      }
    }
    assert es[..|es|] == es;
  }

  lemma {:induction false} ClockMonotone(es: seq<Event>, i: nat)
    requires i <= |es|
    ensures Clock(es[..i]) <= Clock(es)
    decreases |es|
  {
    if i < |es| {
      assert es[..|es| - 1][..i] == es[..i];
      ClockMonotone(es[..|es| - 1], i);
    } else {
      assert es[..i] == es;
    }
  }

  /** Index `i` holds the last free of slot `x` in `es`. */
  ghost predicate LastFree(es: seq<Event>, x: nat, i: int) {
    0 <= i < |es| && es[i] == Free(x) && forall j | i < j < |es| :: es[j] != Free(x)
  }

  lemma {:induction false} FreesIsLast(es: seq<Event>, x: nat)
    ensures x in Frees(es) <==> Free(x) in es
    ensures forall i | LastFree(es, x, i) :: x in Frees(es) && Frees(es)[x] == Clock(es[..i])
    decreases |es|
  {
    if es != [] {
      var n := |es| - 1;
      var p := es[..n];
      FreesIsLast(p, x);
      assert es == p + [es[n]];
      forall i | LastFree(es, x, i) ensures x in Frees(es) && Frees(es)[x] == Clock(es[..i]) {
        if i < n {
          assert p[..i] == es[..i];
          assert forall j | i < j < |p| :: p[j] == es[j];
          assert LastFree(p, x, i);
          assert es[n] != Free(x);
        }
      }
    }
  }

  /** What an interval means: allocation number `e`, at event `j`, reused a slot whose last
      free before it, at event `i`, happened at clock `s`. */
  ghost predicate Reuses(es: seq<Event>, v: Interval, i: int, j: int) {
    && 0 <= i < j < |es| && es[j].Alloc? && LastFree(es[..j], es[j].slot, i)
    && v == Interval(Clock(es[..i]), Clock(es[..j]))
  }

  /** Every interval is such a reuse. */
  lemma {:induction false} IntervalsAreReuses(es: seq<Event>, v: Interval)
    requires v in Intervals(es)
    ensures exists i, j :: Reuses(es, v, i, j)
    decreases |es|
  {
    var n := |es| - 1;
    var p, last := es[..n], es[n];
    if v in Intervals(p) {
      IntervalsAreReuses(p, v);
      var i, j :| Reuses(p, v, i, j);
      assert p[..i] == es[..i] && p[..j] == es[..j];
      assert Reuses(es, v, i, j);
    } else {
      FreesIsLast(p, last.slot);
      var i := FindLast(p, last.slot);
      assert p[..i] == es[..i];
      assert Reuses(es, v, i, n);
    }
  }

  lemma {:induction false} FindLast(es: seq<Event>, x: nat) returns (i: int)
    requires Free(x) in es
    ensures LastFree(es, x, i)
    decreases |es|
  {
    var n := |es| - 1;
    if es[n] == Free(x) {
      i := n;
    } else {
      assert es == es[..n] + [es[n]];
      i := FindLast(es[..n], x);
      assert forall j | i < j < n :: es[..n][j] == es[j];
    }
  }

  /** Every such reuse is an interval. */
  lemma {:induction false} ReusesAreIntervals(es: seq<Event>, v: Interval, i: int, j: int)
    requires Reuses(es, v, i, j)
    ensures v in Intervals(es)
    decreases |es|
  {
    var n := |es| - 1;
    var p := es[..n];
    if j < n {
      assert p[..i] == es[..i] && p[..j] == es[..j];
      ReusesAreIntervals(p, v, i, j);
    } else {
      assert es[..j] == p && p[..i] == es[..i];
      FreesIsLast(p, es[j].slot);
    }
  }

  /** Intervals lie inside the trace and their end times strictly increase. */
  ghost predicate Ordered(vs: seq<Interval>, n: nat) {
    && (forall i | 0 <= i < |vs| :: vs[i].s <= vs[i].e < n)
    && (forall i, j | 0 <= i < j < |vs| :: vs[i].e < vs[j].e)
  }

  lemma {:induction false} IntervalsOrdered(es: seq<Event>)
    ensures Ordered(Intervals(es), Clock(es))
    ensures forall x | x in Frees(es) :: Frees(es)[x] <= Clock(es)
    decreases |es|
  {
    if es != [] {
      IntervalsOrdered(es[..|es| - 1]);
    }
  }

  datatype SlotState = Untouched | Allocated | Freed

  /** What the latest event on slot `x` left it as. */
  function Latest(es: seq<Event>, x: nat): SlotState {
    if es == [] then Untouched
    else if es[|es| - 1].slot == x then (if es[|es| - 1].Alloc? then Allocated else Freed)
    else Latest(es[..|es| - 1], x)
  }

  /** Event `i` allocates a slot that is not allocated or frees one that is. */
  predicate ValidAt(es: seq<Event>, i: nat)
    requires i < |es|
  {
    es[i].Free? <==> Latest(es[..i], es[i].slot) == Allocated
  }

  ghost predicate Valid(es: seq<Event>) {
    forall i | 0 <= i < |es| :: ValidAt(es, i)
  }

  method CheckValid(es: seq<Event>) returns (ok: bool)
    ensures ok <==> Valid(es)
  {
    var alloc: map<nat, bool> := map[];
    for i := 0 to |es|
      invariant forall x ::
                  Latest(es[..i], x) == if x !in alloc then Untouched else if alloc[x] then Allocated else Freed
      invariant forall j | 0 <= j < i :: ValidAt(es, j)
    {
      assert es[..i + 1][..i] == es[..i] && es[..i + 1][i] == es[i];
      var x := es[i].slot;
      if es[i].Alloc? {
        if x in alloc && alloc[x] {
          assert !ValidAt(es, i);
          return false;
        }
        alloc := alloc[x := true];
      } else {
        if x !in alloc || !alloc[x] {
          assert !ValidAt(es, i);
          return false;
        }
        alloc := alloc[x := false];
      }
    }
    return true;
  }

  /** In a valid trace every free follows an allocation, so no interval starts at clock 0. */
  lemma ValidStartsLate(es: seq<Event>)
    requires Valid(es)
    ensures forall i | 0 <= i < |Intervals(es)| :: Intervals(es)[i].s >= 1
  {
    forall i | 0 <= i < |Intervals(es)| ensures Intervals(es)[i].s >= 1 {
      var v := Intervals(es)[i];
      IntervalsAreReuses(es, v);
      var f, j :| Reuses(es, v, f, j);
      assert es[f] == es[..j][f];
      var x := es[f].slot;
      assert ValidAt(es, f);
      LatestAlloc(es[..f], x);
    }
  }

  lemma {:induction false} LatestAlloc(es: seq<Event>, x: nat)
    requires Latest(es, x) == Allocated
    ensures Clock(es) >= 1
    decreases |es|
  {
    if es[|es| - 1].slot != x {
      LatestAlloc(es[..|es| - 1], x);
    }
  }

  const INIT_TRACE_LENGTH := 0x4000

  /** The growing buffer a trace is recorded in. */
  class Buffer {
    var accesses: array<Event>
    var length: nat
    var allocCount: nat

    ghost predicate Valid()
      reads this, accesses
    {
      length < accesses.Length && allocCount == Clock(Contents())
    }

    ghost function Contents(): seq<Event>
      reads this, accesses
    {
      if length <= accesses.Length then accesses[..length] else []
    }

    constructor ()
      ensures Valid() && fresh(accesses) && Contents() == []
    {
      accesses := new Event[INIT_TRACE_LENGTH](_ => Alloc(0));
      length, allocCount := 0, 0;
    }

    method Grow()
      requires Valid()
      modifies this`accesses
      ensures Valid() && fresh(accesses) && accesses.Length == 2 * old(accesses.Length) && Contents() == old(Contents())
    {
      var full := accesses;
      var grown := new Event[full.Length * 2](_ => Alloc(0));
      for i := 0 to full.Length
        modifies grown
        invariant forall j | 0 <= j < i :: grown[j] == full[j]
      {
        grown[i] := full[i];
      }
      assert grown[..length] == full[..length];
      accesses := grown;
    }

    method Add(e: Event)
      requires Valid()
      modifies this, accesses
      ensures Valid() && Contents() == old(Contents()) + [e]
      ensures accesses == old(accesses) || fresh(accesses)
    {
      if length == accesses.Length - 1 {
        Grow();
      }
      Store(e);
    }

    method Store(e: Event)
      requires Valid() && length < accesses.Length - 1
      modifies this`length, this`allocCount, accesses
      ensures Valid() && Contents() == old(Contents()) + [e]
    {
      accesses[length] := e;
      length := length + 1;
      if e.Alloc? {
        allocCount := allocCount + 1;
      }
      assert accesses[..length] == old(Contents()) + [e];
      assert (old(Contents()) + [e])[..length - 1] == old(Contents());
    }
  }
}
