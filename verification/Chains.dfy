/**
  Blocks of a superblock and the raw links stored in them.  A free block's first word is a
  pointer to the next one (feature `no_met_stack`), so thread caches, runs being flushed and
  the free chain of a superblock are all walks over the same link memory.
  */
module Chains {

  /** Block `idx` of the superblock of descriptor `desc`; `idx` equal to the number of blocks
      is the address one past the superblock. */
  datatype Block = Block(desc: nat, idx: nat)

  datatype Ptr = Null | To(block: Block)

  type Links = map<Block, Ptr>

  function Next(link: Links, b: Block): Ptr {
    if b in link then link[b] else Null
  }

  /** The blocks met by following at most `n` links from `p`; shorter than `n` only if the
      walk meets a null pointer. */
  function Walk(link: Links, p: Ptr, n: nat): (w: seq<Block>)
    ensures |w| <= n
    decreases n
  {
    if n == 0 || p.Null? then [] else [p.block] + Walk(link, Next(link, p.block), n - 1)
  }

  ghost predicate Distinct(w: seq<Block>) {
    forall i, j | 0 <= i < j < |w| :: w[i] != w[j]
  }

  /** A walk only reads the links of its blocks other than the last. */
  lemma {:induction false} WalkFrame(link: Links, link': Links, p: Ptr, n: nat)
    requires forall i | 0 <= i < |Walk(link, p, n)| && i < n - 1 ::
               Next(link', Walk(link, p, n)[i]) == Next(link, Walk(link, p, n)[i])
    ensures Walk(link', p, n) == Walk(link, p, n)
    decreases n
  {
    if n > 1 && p.To? {
      var w := Walk(link, p, n);
      var q := Next(link, p.block);
      var v := Walk(link, q, n - 1);
      assert w == [p.block] + v;
      assert w[0] == p.block;
      assert Next(link', p.block) == q;
      forall i | 0 <= i < |v| && i < n - 2
        ensures Next(link', v[i]) == Next(link, v[i])
      {
        assert v[i] == w[i + 1];
      }
      WalkFrame(link, link', q, n - 1);
    }
  }

  /** Writing the link of a block a walk does not contain, or contains only as its last
      block, leaves the walk as it was. */
  lemma WalkUpdate(link: Links, b: Block, q: Ptr, p: Ptr, n: nat)
    requires Distinct(Walk(link, p, n))
    requires b !in Walk(link, p, n) || (|Walk(link, p, n)| == n > 0 && b == Walk(link, p, n)[n - 1])
    ensures Walk(link[b := q], p, n) == Walk(link, p, n)
  {
    WalkFrame(link, link[b := q], p, n);
  }

  /** A longer walk goes on from the last block of a shorter one. */
  lemma {:induction false} WalkJoin(link: Links, p: Ptr, n: nat, m: nat)
    requires n > 0 && |Walk(link, p, n)| == n
    ensures Walk(link, p, n + m) == Walk(link, p, n) + Walk(link, Next(link, Walk(link, p, n)[n - 1]), m)
    decreases n
  {
    var q := Next(link, p.block);
    assert Walk(link, p, n) == [p.block] + Walk(link, q, n - 1);
    if n > 1 {
      WalkJoin(link, q, n - 1, m);
    }
  }

  /** Cutting a full walk after `k` blocks gives two full walks. */
  lemma {:induction false} WalkSplit(link: Links, p: Ptr, n: nat, k: nat)
    requires |Walk(link, p, n)| == n && 1 <= k <= n
    ensures var w := Walk(link, p, n);
            Walk(link, p, k) == w[..k] && Walk(link, Next(link, w[k - 1]), n - k) == w[k..]
    decreases n
  {
    var w := Walk(link, p, n);
    assert p.To?;
    var q := Next(link, p.block);
    var v := Walk(link, q, n - 1);
    assert w == [p.block] + v;
    if k == 1 {
      assert Walk(link, q, 0) == [];
      assert Walk(link, p, 1) == [p.block] + Walk(link, q, 0);
      assert Walk(link, p, 1) == w[..1];
      assert w[1..] == v;
    } else {
      WalkSplit(link, q, n - 1, k - 1);
      assert v[k - 2] == w[k - 1];
      assert v[k - 1..] == w[k..];
      assert Walk(link, p, k) == [p.block] + v[..k - 1];
      assert w[..k] == [p.block] + v[..k - 1];
    }
  }

  /** The blocks of descriptor `d`'s superblock. */
  function BlocksOf(d: nat, max: nat): (bs: set<Block>)
    ensures forall b :: b in bs <==> b.desc == d && b.idx < max
  {
    set i | 0 <= i < max :: Block(d, i)
  }

  lemma {:induction false} BlocksOfSize(d: nat, max: nat)
    ensures |BlocksOf(d, max)| == max
  {
    if max > 0 {
      BlocksOfSize(d, max - 1);
      assert BlocksOf(d, max) == BlocksOf(d, max - 1) + {Block(d, max - 1)};
    }
  }

  lemma {:induction false} DistinctSize(w: seq<Block>)
    requires Distinct(w)
    ensures |set b | b in w| == |w|
  {
    if w != [] {
      var v := w[..|w| - 1];
      DistinctSize(v);
      assert (set b | b in w) == (set b | b in v) + {w[|w| - 1]};
    }
  }

  /** Pigeonhole: `max` distinct blocks of a superblock with `max` blocks are all of it. */
  lemma AllBlocks(w: seq<Block>, d: nat, max: nat)
    requires Distinct(w) && |w| == max
    requires forall i | 0 <= i < |w| :: w[i].desc == d && w[i].idx < max
    ensures forall b :: b in w <==> b in BlocksOf(d, max)
  {
    var s := set b | b in w;
    DistinctSize(w);
    BlocksOfSize(d, max);
    assert s <= BlocksOf(d, max);
    SubsetSameSize(s, BlocksOf(d, max));
    forall b ensures b in w <==> b in BlocksOf(d, max) {
      assert b in s <==> b in w;
    }
  }

  lemma SubsetSameSize(a: set<Block>, b: set<Block>)
    requires a <= b && |a| == |b|
    ensures a == b
  {
    assert |b - a| == |b| - |a|;
    assert b == a + (b - a);
  }
}
