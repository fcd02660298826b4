/**
  The size-class table and its set-up: superblock sizes grown to the APF target, block
  counts, and the lookup from a request size to its class.
  */
module SizeClasses {
  import opened Bits

  const MAX_SZ_IDX := 40
  const MAX_SZ := 14336
  const PAGE := 4096
  const U32 := 0x1_0000_0000

  /** Block size of each class; class 0 is reserved for large allocations. */
  function BlockSize(c: nat): nat {
    match c
    case 0 => 0 case 1 => 8 case 2 => 16 case 3 => 24 case 4 => 32
    case 5 => 40 case 6 => 48 case 7 => 56 case 8 => 64 case 9 => 80
    case 10 => 96 case 11 => 112 case 12 => 128 case 13 => 160 case 14 => 192
    case 15 => 224 case 16 => 256 case 17 => 320 case 18 => 384 case 19 => 448
    case 20 => 512 case 21 => 640 case 22 => 768 case 23 => 896 case 24 => 1024
    case 25 => 1280 case 26 => 1536 case 27 => 1792 case 28 => 2048 case 29 => 2560
    case 30 => 3072 case 31 => 3584 case 32 => 4096 case 33 => 5120 case 34 => 6144
    case 35 => 7168 case 36 => 8192 case 37 => 10240 case 38 => 12288 case 39 => 14336
    case _ => 0
  }

  /** Pages of each class's superblock before set-up. */
  function Pages(c: nat): nat {
    match c
    case 0 => 0 case 1 => 1 case 2 => 1 case 3 => 3 case 4 => 1
    case 5 => 5 case 6 => 3 case 7 => 7 case 8 => 1 case 9 => 5
    case 10 => 3 case 11 => 7 case 12 => 1 case 13 => 5 case 14 => 3
    case 15 => 7 case 16 => 1 case 17 => 5 case 18 => 3 case 19 => 7
    case 20 => 1 case 21 => 5 case 22 => 3 case 23 => 7 case 24 => 1
    case 25 => 5 case 26 => 3 case 27 => 7 case 28 => 1 case 29 => 5
    case 30 => 3 case 31 => 7 case 32 => 1 case 33 => 5 case 34 => 3
    case 35 => 7 case 36 => 2 case 37 => 5 case 38 => 3 case 39 => 7
    case _ => 0
  }

  lemma RowOk(c: nat)
    requires 1 <= c < MAX_SZ_IDX
    ensures BlockSize(c - 1) < BlockSize(c) <= MAX_SZ
    ensures 1 <= Pages(c) <= 7 && (Pages(c) * PAGE) % BlockSize(c) == 0
  {}

  /** The table is the usual geometric one: multiples of 8 up to 32, then four equally spaced
      sizes between each power of two and the next. */
  lemma BlockSizeForm(c: nat)
    requires 1 <= c < MAX_SZ_IDX
    ensures BlockSize(c) == if c <= 4 then 8 * c else (5 + (c - 5) % 4) * Pow2(3 + (c - 5) / 4)
    ensures BlockSize(MAX_SZ_IDX - 1) == MAX_SZ
  {
    var g := if c <= 4 then 0 else (c - 5) / 4;
    SmallPowersOf8(g);
  }

  lemma SmallPowersOf8(g: nat)
    requires g <= 8
    ensures Pow2(3 + g) == match g
                           case 0 => 8 case 1 => 16 case 2 => 32 case 3 => 64 case 4 => 128
                           case 5 => 256 case 6 => 512 case 7 => 1024 case _ => 2048
    decreases g
  {
    if g == 0 {
      assert Pow2(3) == 8;
    } else {
      SmallPowersOf8(g - 1);
    }
  }

  /** Each superblock starts as the fewest pages that its blocks fill without rest. */
  lemma PagesLeast(c: nat, q: nat)
    requires 1 <= c < MAX_SZ_IDX && 1 <= q < Pages(c)
    ensures (q * PAGE) % BlockSize(c) != 0
  {}

  /** If a multiple of a power of two up to a page falls into class `c`, the block size of
      `c` is a multiple of it too. */
  lemma RowAligned(c: nat, align: nat)
    requires 1 <= c <= 32
    requires align in {1, 2, 4, 8, 16, 32, 64, 128, 256, 512, 1024, 2048, 4096}
    ensures BlockSize(c) % align == 0 || BlockSize(c) - BlockSize(c) % align <= BlockSize(c - 1)
  {}

  lemma {:induction false} BlockSizeIncreases(a: nat, b: nat)
    requires a < b < MAX_SZ_IDX
    ensures BlockSize(a) < BlockSize(b)
    decreases b
  {
    RowOk(b);
    if a < b - 1 {
      BlockSizeIncreases(a, b - 1);
    }
  }

  // Arithmetic of multiples

  lemma ModAdd(a: nat, b: nat, d: nat)
    requires d > 0 && a % d == 0 && b % d == 0
    ensures (a + b) % d == 0
  {
    assert a == d * (a / d) && b == d * (b / d);
    assert a + b == d * (a / d + b / d);
    ModUnique(a + b, d, a / d + b / d, 0);
  }

  /** `page_ceiling!`: adds a page less one and masks the low bits away. */
  function PageCeiling(s: nat): nat
    requires s + PAGE <= WORD
  {
    And(s + PAGE - 1, Not(PAGE - 1))
  }

  lemma PageCeilingOk(s: nat)
    requires s + PAGE <= WORD
    ensures s <= PageCeiling(s) < s + PAGE && PageCeiling(s) % PAGE == 0
  {
    PowersUsed();
    AndMask(s + PAGE - 1, 64, 12);
    RoundDown(s + PAGE - 1, PAGE);
  }

  lemma CeilingIsWholePages(s: nat)
    requires s + PAGE <= WORD
    ensures PageCeiling(s) == WholePages(s)
  {
    PageCeilingOk(s);
  }

  lemma PowersUsed()
    ensures Pow2(12) == PAGE && Pow2(64) == WORD
  {
    Pow2Word();
    assert Pow2(4) == 16;
    Pow2Add(4, 4);
    Pow2Add(8, 4);
  }

  // Set-up

  datatype SizeClass = SizeClass(blockSize: nat, sbSize: nat, blockNum: nat, cacheBlockNum: nat)

  /** What set-up promises about class `c`. */
  ghost predicate Ready(sc: SizeClass, c: nat, target: nat) {
    && sc.blockSize == BlockSize(c) > 0
    && sc.sbSize % PAGE == 0 && sc.sbSize < U32
    && sc.sbSize == sc.blockNum * sc.blockSize
    && sc.blockNum >= target && sc.blockNum >= 2 && sc.cacheBlockNum == sc.blockNum
  }

  /** Ready, and no larger than it has to be. */
  ghost predicate Fitted(sc: SizeClass, c: nat, target: nat) {
    Ready(sc, c, target) && Grown(sc.sbSize, c, target)
  }

  /** The size of a superblock after the first loop: the table's, or two blocks where that is
      only one. */
  function StartSize(c: nat): nat {
    if Pages(c) * PAGE > BlockSize(c) then Pages(c) * PAGE else 2 * BlockSize(c)
  }

  function WholePages(s: nat): nat {
    (s + PAGE - 1) / PAGE * PAGE
  }

  /** The final size is the least multiple of the start size that holds the target in whole
      pages. */
  ghost predicate Grown(sb: nat, c: nat, target: nat) {
    var start, goal := StartSize(c), WholePages(target * BlockSize(c));
    && start > 0 && sb >= start && sb % start == 0
    && sb >= goal && (sb == start || sb - start < goal)
  }

  /** So set-up has only one possible outcome. */
  lemma FittedOnce(a: SizeClass, b: SizeClass, c: nat, target: nat)
    requires Fitted(a, c, target) && Fitted(b, c, target)
    ensures a == b
  {
    LeastMultiple(a.sbSize, b.sbSize, StartSize(c), WholePages(target * BlockSize(c)));
    SameCount(a.blockNum, b.blockNum, BlockSize(c));
  }

  lemma SameCount(m: nat, n: nat, block: nat)
    requires block > 0 && m * block == n * block
    ensures m == n
  {
    if m > n {
      Apart(block, m, n);
    } else if n > m {
      Apart(block, n, m);
    }
  }

  lemma LeastMultiple(a: nat, b: nat, start: nat, goal: nat)
    requires start > 0 && a % start == 0 && b % start == 0 && a >= start && b >= start
    requires a >= goal && (a == start || a - start < goal) && b >= goal && (b == start || b - start < goal)
    ensures a == b
  {
    if a < b {
      MultipleGap(a, b, start);
    } else if b < a {
      MultipleGap(b, a, start);
    }
  }

  lemma MultipleGap(a: nat, b: nat, d: nat)
    requires d > 0 && a % d == 0 && b % d == 0 && a < b
    ensures a + d <= b
  {
    var p, q := a / d, b / d;
    assert a == d * p && b == d * q;
    if q > p {
      Apart(d, q, p);
    } else if q < p {
      Apart(d, p, q);
    }
  }

  /** With 2500 blocks as target, 8-byte blocks get superblocks of 20480 bytes and 2560 blocks. */
  lemma SmallestClass()
    ensures Grown(20480, 1, 2500) && 20480 / BlockSize(1) == 2560
  {}

  /** First loop: a superblock no larger than its block grows until it is. */
  method GrowPastBlock(c: nat) returns (sb: nat)
    requires 1 <= c < MAX_SZ_IDX
    ensures BlockSize(c) < sb <= 2 * 7 * PAGE && sb % BlockSize(c) == 0 && sb % PAGE == 0
    ensures sb == StartSize(c)
  {
    RowOk(c);
    var block := BlockSize(c);
    sb := Pages(c) * PAGE;
    if sb > block && sb % block == 0 {
      return;
    }
    while block >= sb
      invariant sb > 0
      invariant sb % block == 0 && sb % PAGE == 0 && sb <= 2 * 7 * PAGE
      invariant block >= sb ==> sb == block == Pages(c) * PAGE && sb <= 7 * PAGE
      invariant block < sb ==> sb == StartSize(c)
      decreases block + 1 - sb
    {
      ModAdd(sb, block, block);
      sb := sb + block;
    }
  }

  /** Second loop: the superblock grows by its own size until it holds the APF target. */
  method GrowToTarget(c: nat, sb0: nat, target: nat) returns (sb: nat)
    requires 1 <= c < MAX_SZ_IDX && target * MAX_SZ + 16 * PAGE < U32
    requires BlockSize(c) < sb0 <= 2 * 7 * PAGE && sb0 % BlockSize(c) == 0 && sb0 % PAGE == 0
    requires sb0 == StartSize(c)
    ensures sb0 <= sb < U32 && sb >= target * BlockSize(c) && sb % BlockSize(c) == 0 && sb % PAGE == 0
    ensures Grown(sb, c, target)
  {
    RowOk(c);
    var block := BlockSize(c);
    assert target * block <= target * MAX_SZ;
    PageCeilingOk(target * block);
    var max := PageCeiling(target * block);
    CeilingIsWholePages(target * block);
    sb := sb0;
    ModUnique(sb0, sb0, 1, 0);
    while sb < max
      invariant sb0 <= sb && (sb == sb0 || sb - sb0 < max)
      invariant sb % block == 0 && sb % PAGE == 0 && sb % sb0 == 0
    {
      ModAdd(sb, sb0, block);
      ModAdd(sb, sb0, PAGE);
      ModAdd(sb, sb0, sb0);
      sb := sb + sb0;
    }
  }

  lemma CountBlocks(sb: nat, block: nat, target: nat)
    requires block > 0 && sb % block == 0 && sb >= target * block && sb > block
    ensures sb / block >= target && sb / block >= 2 && sb == (sb / block) * block
  {
    var q := sb / block;
    assert sb == q * block;
    if q < target {
      Apart(block, target, q);
    }
  }

  /** `init_size_class` on the class table, for every APF target whose superblocks fit in 32
      bits. */
  method InitClasses(target: nat) returns (classes: seq<SizeClass>)
    requires target * MAX_SZ + 16 * PAGE < U32
    ensures |classes| == MAX_SZ_IDX && forall c | 1 <= c < MAX_SZ_IDX :: Fitted(classes[c], c, target)
  {
    classes := [SizeClass(0, 0, 0, 0)];
    for c := 1 to MAX_SZ_IDX
      invariant |classes| == c && forall d | 1 <= d < c :: Fitted(classes[d], d, target)
    {
      var sc := InitClass(c, target);
      classes := classes + [sc];
    }
  }

  method InitClass(c: nat, target: nat) returns (sc: SizeClass)
    requires 1 <= c < MAX_SZ_IDX && target * MAX_SZ + 16 * PAGE < U32
    ensures Fitted(sc, c, target)
  {
    var sb0 := GrowPastBlock(c);
    var sb := GrowToTarget(c, sb0, target);
    RowOk(c);
    CountBlocks(sb, BlockSize(c), target);
    var num := sb / BlockSize(c);
    sc := SizeClass(BlockSize(c), sb, num, num);
  }

  /** `c` is the least class whose blocks hold `size` bytes. */
  ghost predicate LeastFit(size: nat, c: nat) {
    1 <= c < MAX_SZ_IDX && size <= BlockSize(c) && forall b | 1 <= b < c :: BlockSize(b) < size
  }

  /** The lookup part of `init_size_class`: every size up to `MAX_SZ` gets its least class. */
  method InitLookup() returns (lookup: seq<nat>)
    ensures |lookup| == MAX_SZ + 1 && forall size | 0 <= size <= MAX_SZ :: LeastFit(size, lookup[size])
  {
    lookup := [];
    for c := 1 to MAX_SZ_IDX
      invariant |lookup| == if c == 1 then 0 else BlockSize(c - 1) + 1
      invariant forall size | 0 <= size < |lookup| :: LeastFit(size, lookup[size])
    {
      RowOk(c);
      forall b | 1 <= b < c ensures BlockSize(b) <= BlockSize(c - 1) {
        if b < c - 1 {
          BlockSizeIncreases(b, c - 1);
        }
      }
      while |lookup| <= BlockSize(c)
        invariant |lookup| <= BlockSize(c) + 1 && (c > 1 ==> |lookup| > BlockSize(c - 1))
        invariant forall size | 0 <= size < |lookup| :: LeastFit(size, lookup[size])
        decreases BlockSize(c) + 1 - |lookup|
      {
        lookup := lookup + [c];
      }
    }
  }

  /** A class finds itself: the lookup of a block size is the class with that block size. */
  lemma LookupOwnClass(c: nat, found: nat)
    requires 1 <= c < MAX_SZ_IDX && LeastFit(BlockSize(c), found)
    ensures found == c
  {
    if found < c {
      BlockSizeIncreases(found, c);
    }
  }

  ghost predicate PowerOfTwo(x: nat) {
    exists j :: x == Pow2(j)
  }

  lemma {:induction false} SmallPowers(j: nat)
    requires Pow2(j) <= PAGE
    ensures Pow2(j) in {1, 2, 4, 8, 16, 32, 64, 128, 256, 512, 1024, 2048, 4096}
    decreases j
  {
    if j > 0 {
      SmallPowers(j - 1);
    }
  }

  /** The class chosen for a multiple of a power of two, up to a page, has a block size that
      is a multiple of it. */
  lemma ClassKeepsAlignment(size: nat, align: nat, c: nat)
    requires PowerOfTwo(align) && align <= PAGE && 0 < size <= PAGE && size % align == 0 && LeastFit(size, c)
    ensures BlockSize(c) % align == 0
  {
    var j :| align == Pow2(j);
    SmallPowers(j);
    assert BlockSize(32) == PAGE;
    assert c <= 32;
    RowAligned(c, align);
    MultipleBelow(size, BlockSize(c), align);
  }

  lemma MultipleBelow(a: nat, b: nat, d: nat)
    requires d > 0 && a % d == 0 && a <= b
    ensures a <= b - b % d
  {
    var qa, qb := a / d, b / d;
    assert a == d * qa && b == d * qb + b % d;
    if qa > qb {
      Apart(d, qa, qb);
    } else {
      assert d * qa <= d * qb;
    }
  }
}
