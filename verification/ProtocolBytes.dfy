/**
  Blocks as bytes.  Segments of mapped superblocks do not overlap, so different blocks that
  anyone holds share no byte (section 7.22.3 of ISO/IEC 9899:2011).
  */
module ProtocolBytes {
  import opened Chains
  import opened Protocol
  import opened ProtocolInvariant
  import opened ProtocolSafety
  import opened ProtocolUnmap

  /** Where the segment of each descriptor starts. */
  type Bases = map<nat, nat>

  /** Every mapped superblock has a segment of `max * size` bytes of its own, as the segment
      allocator promises. */
  ghost predicate SegmentsApart(s: State, base: Bases, size: nat) {
    && (forall d | d in s.descs && s.descs[d].mapped :: d in base)
    && (forall d, e | d in s.descs && s.descs[d].mapped && e in s.descs && s.descs[e].mapped && d != e ::
          base[d] + s.max * size <= base[e] || base[e] + s.max * size <= base[d])
  }

  function First(base: Bases, size: nat, b: Block): nat
    requires b.desc in base
  {
    base[b.desc] + b.idx * size
  }

  /** The bytes of the two blocks do not overlap. */
  predicate NoOverlap(base: Bases, size: nat, b: Block, c: Block)
    requires b.desc in base && c.desc in base
  {
    First(base, size, b) + size <= First(base, size, c) || First(base, size, c) + size <= First(base, size, b)
  }

  /** Blocks of one superblock lie one after the other. */
  lemma {:induction false} InOrder(i: nat, j: nat, size: nat)
    requires i < j
    ensures i * size + size <= j * size
    decreases j
  {
    assert j * size == (j - 1) * size + size;
    if i < j - 1 {
      InOrder(i, j - 1, size);
    }
  }

  lemma BlocksApart(s: State, base: Bases, size: nat, b: Block, c: Block)
    requires SegmentsApart(s, base, size) && Mapped(s, b) && Mapped(s, c)
    requires b.idx < s.max && c.idx < s.max && b != c
    ensures b.desc in base && c.desc in base && NoOverlap(base, size, b, c)
  {
    if b.desc == c.desc {
      InOrder(if b.idx < c.idx then b.idx else c.idx, if b.idx < c.idx then c.idx else b.idx, size);
    } else {
      InOrder(b.idx, s.max, size);
      InOrder(c.idx, s.max, size);
    }
  }

  lemma PlacedInside(s: State, b: Block, p: Place)
    requires Inv(s) && At(s, b, p)
    ensures b.idx < s.max
  {
    var o :| Good(s, o);
    AtIsHeld(s, o, b, p);
  }

  lemma HeldApart(s: State, base: Bases, size: nat, b: Block, p: Place, c: Block, q: Place)
    requires Inv(s) && SegmentsHeld(s) && SegmentsApart(s, base, size)
    requires At(s, b, p) && At(s, c, q) && b != c
    ensures b.desc in base && c.desc in base && NoOverlap(base, size, b, c)
  {
    PlacedInside(s, b, p);
    PlacedInside(s, c, q);
    PlacedMapped(s, b, p);
    PlacedMapped(s, c, q);
    BlocksApart(s, base, size, b, c);
  }

  /** After every run whose releases are on time, two different blocks that are in use, cached,
      in flight or on a chain share no byte; in particular two live allocations. */
  lemma NoSharedBytes(max: Pos, ls: seq<Label>, base: Bases, size: nat, b: Block, p: Place, c: Block, q: Place)
    requires CanRun(Init(max), ls) && OnTimeRun(Init(max), ls)
    requires var s := Run(Init(max), ls); SegmentsApart(s, base, size) && At(s, b, p) && At(s, c, q) && b != c
    ensures b.desc in base && c.desc in base && NoOverlap(base, size, b, c)
  {
    InitGood(max);
    RunKeepsSegments(Init(max), ls);
    HeldApart(Run(Init(max), ls), base, size, b, p, c, q);
  }

  /** The block an allocation hands out overlaps no block in use. */
  lemma MallocIsDisjoint(max: Pos, ls: seq<Label>, base: Bases, size: nat, t: nat, c: Block)
    requires CanRun(Init(max), ls) && OnTimeRun(Init(max), ls)
    requires var s := Run(Init(max), ls);
             SegmentsApart(s, base, size) && Enabled(s, Malloc(t)) && c in s.used
    ensures var b := Th(Run(Init(max), ls), t).head.block;
            b != c && b.desc in base && c.desc in base && NoOverlap(base, size, b, c)
  {
    InitGood(max);
    RunKeepsSegments(Init(max), ls);
    MallocApart(Run(Init(max), ls), base, size, t, c);
  }

  lemma MallocApart(s: State, base: Bases, size: nat, t: nat, c: Block)
    requires Inv(s) && SegmentsHeld(s) && SegmentsApart(s, base, size) && Enabled(s, Malloc(t)) && c in s.used
    ensures var b := Th(s, t).head.block;
            b != c && b.desc in base && c.desc in base && NoOverlap(base, size, b, c)
  {
    var b := Th(s, t).head.block;
    MallocHandsOutOnce(s, t);
    HeadPlaced(s, t);
    HeldApart(s, base, size, b, InCache(t), c, InUse);
  }

  lemma HeadPlaced(s: State, t: nat)
    requires Th(s, t).num > 0 && Th(s, t).head.To?
    ensures At(s, Th(s, t).head.block, InCache(t))
  {
    assert CacheOf(s, t)[0] == Th(s, t).head.block;
  }
}
