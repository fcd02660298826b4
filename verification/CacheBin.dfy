/**
  The thread cache bin: a stack of free blocks threaded through the blocks themselves.  With
  a known block size and without `no_met_stack`, a link of 0 means "the next contiguous
  block" and a link of all ones means "no more blocks", so a freshly mapped, zeroed
  superblock is a stack of all its blocks once its last word is set.
  */
module CacheBin {
  import opened Options

  const ALL_ONES := 0xFFFF_FFFF_FFFF_FFFF
  const CACHE_LINE := 64

  type Words = map<nat, nat>

  /** How the links of a bin are read: the block size if known, and the feature switch. */
  datatype Mode = Mode(size: Option<nat>, noMet: bool) {
    predicate Raw() {
      size.None? || noMet
    }
  }

  function Word(words: Words, a: nat): nat {
    if a in words then words[a] else 0
  }

  function Follow(words: Words, b: nat, mode: Mode): nat {
    var w := Word(words, b);
    if mode.Raw() then w
    else if w == 0 then b + mode.size.value
    else if w == ALL_ONES then 0
    else w
  }

  /** The stack of `n` blocks whose top is `b`. */
  function Decode(words: Words, b: nat, n: nat, mode: Mode): (s: seq<nat>)
    ensures |s| == n && (n > 0 ==> s[0] == b)
    decreases n
  {
    if n == 0 then [] else [b] + Decode(words, Follow(words, b, mode), n - 1, mode)
  }

  predicate Address(a: nat) {
    0 < a < ALL_ONES
  }

  /** Proper block addresses, none twice. */
  ghost predicate Stack(s: seq<nat>) {
    (forall i | 0 <= i < |s| :: Address(s[i])) && forall i, j | 0 <= i < j < |s| :: s[i] != s[j]
  }

  lemma {:induction false} DecodeFrame(words: Words, words': Words, b: nat, n: nat, mode: Mode)
    requires forall i | 0 <= i < n - 1 ::
               Word(words', Decode(words, b, n, mode)[i]) == Word(words, Decode(words, b, n, mode)[i])
    ensures Decode(words', b, n, mode) == Decode(words, b, n, mode)
    decreases n
  {
    if n > 1 {
      var s := Decode(words, b, n, mode);
      var q := Follow(words, b, mode);
      var v := Decode(words, q, n - 1, mode);
      assert s[0] == b && Follow(words', b, mode) == q;
      forall i | 0 <= i < n - 2 ensures Word(words', v[i]) == Word(words, v[i]) {
        assert v[i] == s[i + 1];
      }
      DecodeFrame(words, words', q, n - 1, mode);
    }
  }

  /** The first `k` blocks and the rest of a stack. */
  lemma {:induction false} DecodeSplit(words: Words, b: nat, n: nat, k: nat, mode: Mode)
    requires 1 <= k <= n
    ensures var s := Decode(words, b, n, mode);
            Decode(words, Follow(words, s[k - 1], mode), n - k, mode) == s[k..]
    decreases n
  {
    if k > 1 {
      DecodeSplit(words, Follow(words, b, mode), n - 1, k - 1, mode);
    }
  }

  /** The addresses `a`, `a + step`, `a + 2 * step`, ... of `n` contiguous blocks. */
  function Ladder(a: nat, step: nat, n: nat): (s: seq<nat>)
    ensures |s| == n
    decreases n
  {
    if n == 0 then [] else [a] + Ladder(a + step, step, n - 1)
  }

  lemma {:induction false} LadderAt(a: nat, step: nat, n: nat, i: nat)
    requires i < n
    ensures Ladder(a, step, n)[i] == a + i * step
    decreases n
  {
    if i > 0 {
      LadderAt(a + step, step, n - 1, i - 1);
      assert step + (i - 1) * step == i * step;
    }
  }

  lemma {:induction false} LadderStack(a: nat, step: nat, n: nat)
    requires step > 0 && a > 0 && a + n * step <= ALL_ONES
    ensures Stack(Ladder(a, step, n)) && forall i | 0 <= i < n :: a <= Ladder(a, step, n)[i] < a + n * step
    decreases n
  {
    if n > 0 {
      assert n * step == step + (n - 1) * step;
      assert 0 <= (n - 1) * step;
      LadderStack(a + step, step, n - 1);
      var v := Ladder(a + step, step, n - 1);
      forall i, j | 0 <= i < j < n ensures Ladder(a, step, n)[i] != Ladder(a, step, n)[j] {
        assert a + step <= v[j - 1];
      }
    }
  }

  /** A zeroed superblock whose last word is all ones decodes to its blocks in order. */
  lemma {:induction false} FreshDecodes(words: Words, a: nat, step: nat, n: nat)
    requires forall i | 0 <= i < n - 1 :: Word(words, Ladder(a, step, n)[i]) == 0
    ensures Decode(words, a, n, Mode(Some(step), false)) == Ladder(a, step, n)
    decreases n
  {
    if n > 1 {
      var s, v := Ladder(a, step, n), Ladder(a + step, step, n - 1);
      assert s[0] == a;
      forall i | 0 <= i < n - 2 ensures Word(words, v[i]) == 0 {
        assert v[i] == s[i + 1];
      }
      FreshDecodes(words, a + step, step, n - 1);
    }
  }

  /** Blocks that each hold the address of the next decode, raw, to themselves in order. */
  lemma {:induction false} LinkedDecodes(words: Words, a: nat, step: nat, n: nat, mode: Mode)
    requires mode.Raw() && forall i | 0 <= i < n - 1 :: Word(words, Ladder(a, step, n)[i]) == Ladder(a, step, n)[i + 1]
    ensures Decode(words, a, n, mode) == Ladder(a, step, n)
    decreases n
  {
    if n > 1 {
      var s, v := Ladder(a, step, n), Ladder(a + step, step, n - 1);
      assert s[0] == a && s[1] == v[0] == a + step;
      forall i | 0 <= i < n - 2 ensures Word(words, v[i]) == v[i + 1] {
        assert v[i] == s[i + 1] && v[i + 1] == s[i + 2];
      }
      LinkedDecodes(words, a + step, step, n - 1, mode);
    }
  }

  /** The words of the mapped memory. */
  class Memory {
    var words: Words

    constructor ()
      ensures words == map[]
    {
      words := map[];
    }
  }

  class ThreadCacheBin {
    const mem: Memory
    const noMet: bool
    var block: nat
    var blockNum: nat
    var blockSize: Option<nat>

    ghost function Contents(): seq<nat>
      reads this, mem
    {
      Decode(mem.words, block, blockNum, Mode(blockSize, noMet))
    }

    /** An empty bin may keep any stale top pointer and any block size. */
    ghost predicate Valid()
      reads this, mem
    {
      Stack(Contents()) && (blockSize.Some? ==> blockSize.value > 0)
    }

    constructor (mem: Memory, noMet: bool)
      ensures Valid() && Contents() == [] && this.mem == mem && this.noMet == noMet && blockSize == None
    {
      this.mem, this.noMet := mem, noMet;
      block, blockNum, blockSize := 0, 0, None;
    }

    /** Pushes a block the caller owns and the bin does not hold. */
    method PushBlock(b: nat)
      requires Valid() && Address(b) && b !in Contents()
      modifies this`block, this`blockNum, mem
      ensures Valid() && Contents() == [b] + old(Contents())
      ensures forall a | a != b :: Word(mem.words, a) == old(Word(mem.words, a))
    {
      ghost var mode := Mode(blockSize, noMet);
      ghost var words, s := mem.words, Contents();
      if blockSize.Some? && blockSize.value < CACHE_LINE && !noMet {
        if block - b == blockSize.value {
          mem.words := mem.words[b := 0];
        } else {
          mem.words := mem.words[b := block];
        }
      } else {
        mem.words := mem.words[b := block];
      }
      assert blockNum > 0 ==> s[0] == block;
      DecodeFrame(words, mem.words, block, blockNum, mode);
      assert blockNum > 0 ==> Follow(mem.words, b, mode) == block;
      assert Decode(mem.words, b, blockNum + 1, mode) == [b] + s;
      block := b;
      blockNum := blockNum + 1;
    }

    /** Pops the top block; the source panics on an empty bin. */
    method PopBlock() returns (ret: nat)
      requires Valid() && blockNum > 0
      modifies this`block, this`blockNum
      ensures Valid() && [ret] + Contents() == old(Contents())
    {
      ret := block;
      ghost var s := Contents();
      assert s[0] == block && Address(block);
      DecodeSplit(mem.words, block, blockNum, 1, Mode(blockSize, noMet));
      if blockSize.None? || noMet {
        block := Word(mem.words, block);
      } else {
        var read := Word(mem.words, block);
        if read == 0 {
          block := block + blockSize.value;
        } else if read == ALL_ONES {
          block := 0;
        } else {
          block := read;
        }
      }
      blockNum := blockNum - 1;
      assert Contents() == s[1..];
    }

    /** Takes `count` blocks off the bin, as the tuner asks; the source asserts that the bin has
        them and drops the pointers, so the blocks reach no other holder. */
    method Ret(count: nat)
      requires Valid() && count <= blockNum
      modifies this`block, this`blockNum
      ensures Valid() && Contents() == old(Contents())[count..]
    {
      for i := 0 to count
        invariant Valid() && Contents() == old(Contents())[i..]
      {
        ghost var s := Contents();
        var _ := PopBlock();
        assert Contents() == s[1..];
      }
    }

    /** `push_list` and the change of block size around it: a bin switches size only when it
        is empty, and then takes over a chain laid out for the new size. */
    method Fill(b: nat, length: nat, size: nat)
      requires blockNum == 0 && size > 0 && Stack(Decode(mem.words, b, length, Mode(Some(size), noMet)))
      modifies this
      ensures Valid() && blockSize == Some(size)
      ensures Contents() == Decode(mem.words, b, length, Mode(Some(size), noMet))
    {
      block := b;
      blockNum := length;
      blockSize := Some(size);
    }

    /** `malloc_from_new_sb`: lays out a fresh, zeroed superblock of `max` blocks and fills the
        empty bin with all of them, lowest address on top. */
    method FillFromNewSuperBlock(sb: nat, size: nat, max: nat)
      requires blockNum == 0 && size > 0 && max > 0 && sb > 0 && sb + max * size <= ALL_ONES
      requires forall i | 0 <= i < max :: Word(mem.words, Ladder(sb, size, max)[i]) == 0
      modifies this, mem
      ensures Valid() && Contents() == Ladder(sb, size, max)
    {
      ghost var s := Ladder(sb, size, max);
      LadderStack(sb, size, max);
      LadderAt(sb, size, max, max - 1);
      if !noMet {
        var last := sb + (max - 1) * size;
        mem.words := mem.words[last := ALL_ONES];
        FreshDecodes(mem.words, sb, size, max);
      } else {
        var last, n := 0, max;
        while n > 0
          modifies mem
          invariant 0 <= n <= max && last == (if n == max then 0 else s[n])
          invariant forall i | n <= i < max - 1 :: Word(mem.words, s[i]) == s[i + 1]
        {
          n := n - 1;
          LadderAt(sb, size, max, n);
          var current := sb + n * size;
          mem.words := mem.words[current := last];
          last := current;
        }
        LinkedDecodes(mem.words, sb, size, max, Mode(Some(size), noMet));
      }
      Fill(sb, max, size);
    }

    /** The inner loop of `flush_cache` with raw links: takes the longest run of blocks from
        the top that lies in the superblock [`lo`, `hi`), as top block, last block and
        length, off the bin. */
    method TakeRun(lo: nat, hi: nat) returns (head: nat, tail: nat, count: nat)
      requires Valid() && noMet && blockNum > 0 && lo <= block < hi
      modifies this`block, this`blockNum
      ensures Valid() && 1 <= count <= |old(Contents())|
      ensures var s := old(Contents());
              && head == s[0] && tail == s[count - 1] && Contents() == s[count..]
              && (forall i | 0 <= i < count :: lo <= s[i] < hi)
              && (count < |s| ==> !(lo <= s[count] < hi))
    {
      ghost var s, mode := Contents(), Mode(blockSize, noMet);
      head, tail, count := block, block, 1;
      while blockNum > count
        modifies {}
        invariant 1 <= count <= blockNum && tail == s[count - 1]
        invariant forall i | 0 <= i < count :: lo <= s[i] < hi
      {
        DecodeSplit(mem.words, block, blockNum, count, mode);
        assert s[count..][0] == s[count];
        var ptr := Word(mem.words, tail);
        if ptr < lo || ptr >= hi {
          break;
        }
        count := count + 1;
        tail := ptr;
      }
      DecodeSplit(mem.words, block, blockNum, count, mode);
      block := Word(mem.words, tail);
      blockNum := blockNum - count;
    }

    /** The outer loop of `flush_cache`: the whole bin leaves it in runs, each the longest that
        stays in the superblock of its first block, and the bin forgets its block size.
        `bounds` gives the superblock of a block. */
    method Flush(bounds: nat -> (nat, nat)) returns (runs: seq<Run>)
      requires Valid() && noMet && Homed(bounds, Contents())
      modifies this
      ensures Valid() && Contents() == [] && blockSize == None && Cut(bounds, runs, old(Contents()), [])
    {
      runs := [];
      ghost var s := Contents();
      while blockNum > 0
        invariant Valid() && Cut(bounds, runs, s, Contents()) && Homed(bounds, Contents())
        decreases blockNum
      {
        ghost var left := Contents();
        assert left[0] == block;
        var (lo, hi) := bounds(block);
        var head, tail, count := TakeRun(lo, hi);
        HomedRest(bounds, left, count);
        CutNext(bounds, runs, s, left, Run(head, tail, count));
        runs := runs + [Run(head, tail, count)];
      }
      blockSize := None;
    }
  }

  /** A run handed to a superblock: first block, last block and length. */
  datatype Run = Run(head: nat, tail: nat, count: nat)

  /** Block `b` lies in the superblock of block `a`. */
  predicate Within(bounds: nat -> (nat, nat), a: nat, b: nat) {
    bounds(a).0 <= b < bounds(a).1
  }

  /** Every block lies in its own superblock. */
  ghost predicate Homed(bounds: nat -> (nat, nat), s: seq<nat>) {
    forall i | 0 <= i < |s| :: Within(bounds, s[i], s[i])
  }

  lemma HomedRest(bounds: nat -> (nat, nat), s: seq<nat>, k: nat)
    requires Homed(bounds, s) && k <= |s|
    ensures Homed(bounds, s[k..])
  {}

  /** `run` is the longest leading run of `s` in the superblock of its first block. */
  ghost predicate Leading(bounds: nat -> (nat, nat), run: Run, s: seq<nat>) {
    && 1 <= run.count <= |s| && run.head == s[0] && run.tail == s[run.count - 1]
    && (forall i | 0 <= i < run.count :: Within(bounds, s[0], s[i]))
    && (run.count < |s| ==> !Within(bounds, s[0], s[run.count]))
  }

  /** The runs, one after the other, are what `s` has more than `left`. */
  ghost predicate Cut(bounds: nat -> (nat, nat), runs: seq<Run>, s: seq<nat>, left: seq<nat>)
    decreases |runs|
  {
    if runs == [] then s == left
    else Leading(bounds, runs[0], s) && Cut(bounds, runs[1..], s[runs[0].count..], left)
  }

  lemma {:induction false} CutNext(bounds: nat -> (nat, nat), runs: seq<Run>, s: seq<nat>, left: seq<nat>, run: Run)
    requires Cut(bounds, runs, s, left) && Leading(bounds, run, left)
    ensures Cut(bounds, runs + [run], s, left[run.count..])
    decreases |runs|
  {
    if runs == [] {
      assert (runs + [run])[1..] == [];
    } else {
      assert (runs + [run])[1..] == runs[1..] + [run];
      CutNext(bounds, runs[1..], s[runs[0].count..], left, run);
    }
  }
}
