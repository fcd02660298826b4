/**
  The list of available descriptors.  Its head and links are descriptor addresses whose low
  six bits hold a counter; the list is used under a mutex.
  */
module DescriptorPool {
  import opened Options
  import opened Bits
  import opened CacheBin

  const TAGS := 64
  const DESCRIPTOR_BLOCK_SZ := 0x1_0000

  /** `DescriptorNode::set`: the address with a six-bit counter in its free low bits. */
  function Tagged(desc: nat, counter: nat): nat {
    desc + And(counter, TAGS - 1)
  }

  function Counter(w: nat): nat {
    And(w, TAGS - 1)
  }

  /** `DescriptorNode::get_desc`: the address without its counter, 0 for none. */
  function DescOf(w: nat): nat
    requires w < WORD
  {
    And(w, Not(TAGS - 1))
  }

  predicate DescAddress(d: nat) {
    d > 0 && d % TAGS == 0 && d < WORD
  }

  lemma Untag(w: nat)
    requires w < WORD
    ensures DescOf(w) == w - w % TAGS
  {
    Pow2Word();
    SixBits();
    AndMask(w, 64, 6);
  }

  /** The counter never disturbs the address. */
  lemma TagRoundTrip(d: nat, counter: nat)
    requires DescAddress(d)
    ensures Tagged(d, counter) < WORD && DescOf(Tagged(d, counter)) == d
  {
    TagSmall(counter);
    AddTag(d, And(counter, TAGS - 1));
    Untag(Tagged(d, counter));
  }

  lemma SixBits()
    ensures Pow2(6) == TAGS
  {
    assert Pow2(4) == 16;
    Pow2Add(4, 2);
  }

  lemma TagSmall(counter: nat)
    ensures And(counter, TAGS - 1) < TAGS
  {
    SixBits();
    AndLow(counter, 6);
  }

  lemma AddTag(d: nat, tag: nat)
    requires DescAddress(d) && tag < TAGS
    ensures d + tag < WORD && (d + tag) % TAGS == tag
  {}

  type NextFree = map<nat, Option<nat>>

  function NextWord(next: NextFree, d: nat): nat {
    if d in next && next[d].Some? then next[d].value else 0
  }

  /** Following the masked links from word `w` gives exactly `free`, then null. */
  ghost predicate Linked(next: NextFree, w: nat, free: seq<nat>)
    decreases |free|
  {
    w < WORD &&
    if free == [] then DescOf(w) == 0
    else DescOf(w) == free[0] && DescAddress(free[0]) && Linked(next, NextWord(next, free[0]), free[1..])
  }

  lemma {:induction false} LinkedFrame(next: NextFree, next': NextFree, w: nat, free: seq<nat>)
    requires Linked(next, w, free) && forall i | 0 <= i < |free| :: NextWord(next', free[i]) == NextWord(next, free[i])
    ensures Linked(next', w, free)
    decreases |free|
  {
    if free != [] {
      LinkedFrame(next, next', NextWord(next, free[0]), free[1..]);
    }
  }

  /** Only the address part of the head matters. */
  lemma Retag(next: NextFree, w: nat, w': nat, free: seq<nat>)
    requires Linked(next, w, free) && w' < WORD && DescOf(w') == DescOf(w)
    ensures Linked(next, w', free)
  {}

  ghost predicate AllDistinct(s: seq<nat>) {
    forall i, j | 0 <= i < j < |s| :: s[i] != s[j]
  }

  class Pool {
    var avail: nat
    var nextFree: NextFree
    /** The free list, in order, and the descriptors handed out. */
    ghost var free: seq<nat>
    ghost var inUse: set<nat>

    /** The list is finite and acyclic, and every descriptor ever created is either on it or
        in use, not both. */
    ghost predicate Valid()
      reads this
    {
      && Linked(nextFree, avail, free) && AllDistinct(free)
      && Outside(inUse, free) && OnlyThese(nextFree, free, inUse)
    }

    constructor ()
      ensures Valid() && free == [] && inUse == {}
    {
      avail, nextFree, free, inUse := 0, map[], [], {};
    }

    method Retire(d: nat)
      requires Valid() && d in inUse
      modifies this
      ensures Valid() && free == [d] + old(free) && inUse == old(inUse) - {d}
    {
      var oldHead := avail;
      ghost var next := nextFree;
      nextFree := nextFree[d := Some(oldHead)];
      LinkedFrame(next, nextFree, oldHead, free);
      TagRoundTrip(d, Counter(oldHead) + 1);
      avail := Tagged(d, Counter(oldHead) + 1);
      inUse := inUse - {d};
      free := [d] + free;
      assert free[1..] == old(free);
      forall e ensures e in nextFree <==> e in free || e in inUse {
        assert e in free <==> e == d || e in old(free);
      }
    }

    /** Hands out the head of the list, or lays out a new page of descriptors of `size` bytes
        and hands out the first of them. */
    method Alloc(page: nat, size: nat) returns (desc: nat)
      requires Valid()
      requires size > 0 && size % TAGS == 0 && 2 * size <= DESCRIPTOR_BLOCK_SZ
      requires page > 0 && page % TAGS == 0 && page + DESCRIPTOR_BLOCK_SZ < WORD
      requires forall d | d in nextFree :: d < page || page + DESCRIPTOR_BLOCK_SZ <= d
      modifies this
      ensures Valid() && desc !in old(inUse) && inUse == old(inUse) + {desc}
      ensures if old(free) != [] then [desc] + free == old(free)
              else [desc] + free == Ladder(page, size, DESCRIPTOR_BLOCK_SZ / size)
    {
      Untag(avail);
      if DescOf(avail) == 0 {
        desc := AllocPage(page, size);
      } else {
        desc := PopHead();
      }
    }

    method PopHead() returns (desc: nat)
      requires Valid() && DescOf(avail) != 0
      modifies this
      ensures Valid() && old(free) != [] && [desc] + free == old(free) && inUse == old(inUse) + {desc}
    {
      var oldHead := avail;
      desc := DescOf(oldHead);
      assert desc == free[0] && desc in free;
      assert Linked(nextFree, NextWord(nextFree, desc), free[1..]);
      var newHead := nextFree[desc];
      if newHead.Some? {
        var target := DescOf(newHead.value);
        if target != 0 {
          assert free[1..] != [];
          TagRoundTrip(target, Counter(oldHead));
          avail := Tagged(target, Counter(oldHead));
        } else {
          avail := 0;
        }
      } else {
        avail := 0;
      }
      assert DescOf(avail) == DescOf(NextWord(nextFree, desc)) by { Untag(0); }
      Retag(nextFree, NextWord(nextFree, desc), avail, free[1..]);
      inUse := inUse + {desc};
      free := free[1..];
      assert old(free) == [desc] + free;
      forall e ensures e in nextFree <==> e in free || e in inUse {
        assert e in old(free) <==> e == desc || e in free;
      }
    }

    method AllocPage(page: nat, size: nat) returns (desc: nat)
      requires Valid() && free == []
      requires size > 0 && size % TAGS == 0 && 2 * size <= DESCRIPTOR_BLOCK_SZ
      requires page > 0 && page % TAGS == 0 && page + DESCRIPTOR_BLOCK_SZ < WORD
      requires forall d | d in nextFree :: d < page || page + DESCRIPTOR_BLOCK_SZ <= d
      modifies this
      ensures Valid() && desc == page && desc !in old(inUse) && inUse == old(inUse) + {desc}
      ensures [desc] + free == Ladder(page, size, DESCRIPTOR_BLOCK_SZ / size)
    {
      var count := DESCRIPTOR_BLOCK_SZ / size;
      nextFree := NewPage(nextFree, inUse, page, size, count);
      desc := page;
      avail := Tagged(page + size, 0);
      free := Ladder(page, size, count)[1..];
      inUse := inUse + {page};
    }
  }

  ghost predicate OnlyThese(next: NextFree, free: seq<nat>, inUse: set<nat>) {
    forall d :: d in next <==> d in free || d in inUse
  }

  ghost predicate Outside(inUse: set<nat>, free: seq<nat>) {
    forall d | d in inUse :: DescAddress(d) && d !in free
  }

  /** A page of descriptors: the first one is in use, the others make up the list. */
  method NewPage(before: NextFree, ghost inUse: set<nat>, page: nat, size: nat, count: nat) returns (next: NextFree)
    requires size > 0 && size % TAGS == 0 && 2 * size <= DESCRIPTOR_BLOCK_SZ && count == DESCRIPTOR_BLOCK_SZ / size
    requires page > 0 && page % TAGS == 0 && page + DESCRIPTOR_BLOCK_SZ < WORD
    requires forall d | d in before :: d < page || page + DESCRIPTOR_BLOCK_SZ <= d
    requires OnlyThese(before, [], inUse) && Outside(inUse, [])
    ensures count >= 2 && page !in inUse
    ensures var all := Ladder(page, size, count);
            && all == [page] + all[1..] && AllDistinct(all[1..])
            && Linked(next, Tagged(page + size, 0), all[1..])
            && OnlyThese(next, all[1..], inUse + {page}) && Outside(inUse + {page}, all[1..])
  {
    ghost var all := Ladder(page, size, count);
    PageLayout(page, size, count);
    next := LayOut(before, page, size, count);
    PageLinked(next, page, size, count);
    PageSplit(all, inUse);
    PageInstalled(before, next, all, inUse);
  }

  lemma PageInstalled(before: NextFree, next: NextFree, all: seq<nat>, inUse: set<nat>)
    requires all != [] && OnlyThese(before, [], inUse)
    requires forall d :: d in next <==> d in before || d in all
    requires forall d :: d in all <==> d in all[1..] || d == all[0]
    ensures OnlyThese(next, all[1..], inUse + {all[0]})
  {}

  /** What the set-up loop leaves in the links of a page's descriptors. */
  ghost predicate PageLinks(next: NextFree, all: seq<nat>) {
    && (forall i | 0 <= i < |all| :: all[i] in next && DescAddress(all[i]))
    && (forall i | 1 <= i < |all| - 1 :: next[all[i]] == Some(all[i + 1]))
    && (|all| > 1 ==> next[all[|all| - 1]] == None)
  }

  /** After the page is laid out all its descriptors but the first are listed in order. */
  lemma PageLinked(next: NextFree, page: nat, size: nat, count: nat)
    requires count >= 2 && PageLinks(next, Ladder(page, size, count))
    ensures Ladder(page, size, count)[0] == page
    ensures Linked(next, Tagged(page + size, 0), Ladder(page, size, count)[1..])
  {
    var all := Ladder(page, size, count);
    LadderAt(page, size, count, 0);
    LadderAt(page, size, count, 1);
    assert all[1] == page + size;
    TagRoundTrip(all[1], 0);
    ChainLinked(next, all, 1);
    Retag(next, all[1], Tagged(page + size, 0), all[1..]);
  }

  /** The first descriptor of the page goes to the caller, the rest to the list. */
  lemma PageSplit(all: seq<nat>, known: set<nat>)
    requires all != [] && AllDistinct(all) && forall i | 0 <= i < |all| :: all[i] !in known
    ensures AllDistinct(all[1..]) && all[0] !in all[1..]
    ensures forall d | d in known :: d !in all[1..]
    ensures forall d :: d in all <==> d in all[1..] || d == all[0]
  {
    assert all == [all[0]] + all[1..];
    forall d | d in all[1..] ensures d !in known && d != all[0] {
      var i :| 0 <= i < |all| - 1 && all[1..][i] == d;
      assert d == all[i + 1];
    }
  }

  /** What the set-up loop has done after `i` descriptors. */
  ghost predicate LaidOut(next0: NextFree, next: NextFree, all: seq<nat>, i: nat)
    requires i <= |all|
  {
    && (forall d :: d in next <==> d in next0 || d in all[..i])
    && (forall k | 1 <= k < i - 1 :: all[k] in next && next[all[k]] == Some(all[k + 1]))
    && (i > 0 ==> all[i - 1] in next && next[all[i - 1]] == None)
  }

  lemma LaidOutStep(next0: NextFree, next: NextFree, all: seq<nat>, i: nat)
    requires i < |all| && AllDistinct(all) && LaidOut(next0, next, all, i)
    ensures var linked := if i >= 2 then next[all[i - 1] := Some(all[i])] else next;
            LaidOut(next0, linked[all[i] := None], all, i + 1)
  {
    assert all[..i + 1] == all[..i] + [all[i]];
    assert i >= 1 ==> all[i - 1] in all[..i];
  }

  /** The loop that sets every descriptor of a page to its default and links all but the
      first in order. */
  method LayOut(next0: NextFree, page: nat, size: nat, count: nat) returns (next: NextFree)
    requires count >= 2 && AllDistinct(Ladder(page, size, count))
    requires forall i | 0 <= i < count :: DescAddress(Ladder(page, size, count)[i])
    ensures var all := Ladder(page, size, count);
            && (forall d :: d in next <==> d in next0 || d in all)
            && PageLinks(next, all)
  {
    ghost var all := Ladder(page, size, count);
    next := next0;
    for i := 0 to count
      invariant LaidOut(next0, next, all, i)
    {
      LaidOutStep(next0, next, all, i);
      LadderAt(page, size, count, i);
      var current := page + i * size;
      if i >= 2 {
        LadderAt(page, size, count, i - 1);
        next := next[page + (i - 1) * size := Some(current)];
      }
      next := next[current := None];
    }
    assert all[..count] == all;
  }

  /** The descriptors of a page are distinct, aligned addresses inside it. */
  lemma PageLayout(page: nat, size: nat, count: nat)
    requires size > 0 && size % TAGS == 0 && page > 0 && page % TAGS == 0
    requires count == DESCRIPTOR_BLOCK_SZ / size && page + DESCRIPTOR_BLOCK_SZ < WORD
    requires 2 * size <= DESCRIPTOR_BLOCK_SZ
    ensures count >= 2
    ensures var all := Ladder(page, size, count);
            && AllDistinct(all)
            && forall i | 0 <= i < count :: page <= all[i] < page + DESCRIPTOR_BLOCK_SZ && DescAddress(all[i])
  {
    var all := Ladder(page, size, count);
    assert count * size <= DESCRIPTOR_BLOCK_SZ < count * size + size;
    AtLeastTwo(size, count);
    LadderStack(page, size, count);
    forall i | 0 <= i < count ensures all[i] % TAGS == 0 {
      LadderAt(page, size, count, i);
      Multiples(page, size, i);
    }
  }

  lemma AtLeastTwo(size: nat, count: nat)
    requires 2 * size <= DESCRIPTOR_BLOCK_SZ < count * size + size
    ensures count >= 2
  {
    if count == 0 || count == 1 {
      assert false;
    }
  }

  lemma Multiples(a: nat, b: nat, i: nat)
    requires a % TAGS == 0 && b % TAGS == 0
    ensures (a + i * b) % TAGS == 0
  {
    assert b == TAGS * (b / TAGS);
    assert i * b == TAGS * (i * (b / TAGS));
    assert a == TAGS * (a / TAGS);
    ModUnique(a + i * b, TAGS, a / TAGS + i * (b / TAGS), 0);
  }

  /** From descriptor `k` of the page on, the links run to the end. */
  lemma {:induction false} ChainLinked(next: NextFree, all: seq<nat>, k: nat)
    requires 1 <= k < |all| && PageLinks(next, all)
    ensures Linked(next, all[k], all[k..]) && DescOf(all[k]) == all[k]
    decreases |all| - k
  {
    Untag(all[k]);
    if k < |all| - 1 {
      ChainLinked(next, all, k + 1);
      assert all[k..][1..] == all[k + 1..];
    } else {
      Untag(0);
      assert all[k..] == [all[k]] && all[k..][1..] == [];
      assert NextWord(next, all[k]) == 0 && Linked(next, 0, all[k..][1..]);
    }
  }
}
