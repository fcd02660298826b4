/**
  The page map from addresses to descriptors, and the way from a pointer back to its
  superblock, size class and block index.
  */
module PageMap {
  import opened Options
  import opened Bits
  import opened SizeClasses

  /** Addresses have 50 bits: 12 within a page and 38 of page number. */
  const PM_SB := 38
  const PAGE_NUMBERS := 0x40_0000_0000
  const SC_MASK := 63

  function AddrToKey(addr: nat): nat {
    And(addr / PAGE, Pow2(PM_SB) - 1)
  }

  /** Below 2^50 the key is the page number. */
  lemma KeyIsPage(addr: nat)
    requires addr / PAGE < PAGE_NUMBERS
    ensures AddrToKey(addr) == addr / PAGE
  {
    AndLow(addr / PAGE, PM_SB);
    Pow2Of38();
    ModUnique(addr / PAGE, Pow2(PM_SB), 0, addr / PAGE);
  }

  /** `PageInfo::set_ptr`: a descriptor address with its low six bits free, and a class. */
  function InfoWord(desc: nat, scIdx: nat): nat {
    if And(desc, SC_MASK) != 0 || scIdx >= MAX_SZ_IDX then 0 else desc + scIdx
  }

  /** `count` whole pages from page number `first`. */
  datatype Region = Region(first: nat, count: nat) {
    predicate HasPage(p: nat) {
      first <= p < first + count
    }

    predicate Has(addr: nat) {
      HasPage(addr / PAGE)
    }

    predicate Apart(other: Region) {
      first + count <= other.first || other.first + other.count <= first
    }

    /** Below 2^50. */
    predicate Addressable() {
      first + count <= PAGE_NUMBERS
    }
  }

  /** Regions do not overlap, and the map holds a descriptor on exactly its own pages. */
  ghost predicate Consistent(pages: map<nat, nat>, regions: map<nat, Region>) {
    && (forall d | d in regions :: d > 0 && regions[d].Addressable())
    && (forall d, e | d in regions && e in regions && d != e :: regions[d].Apart(regions[e]))
    && (forall d, p: nat | d in regions && regions[d].HasPage(p) :: p in pages && pages[p] == d)
    && (forall p | p in pages && pages[p] != 0 :: pages[p] in regions && regions[pages[p]].HasPage(p))
  }

  /** `pages'` is `pages` with `word` on the pages of `r`. */
  ghost predicate Painted(pages: map<nat, nat>, pages': map<nat, nat>, r: Region, word: nat) {
    forall p: nat :: if r.HasPage(p) then p in pages' && pages'[p] == word
                     else (p in pages' <==> p in pages) && (p in pages' ==> pages'[p] == pages[p])
  }

  lemma RegisterKeeps(pages: map<nat, nat>, pages': map<nat, nat>, regions: map<nat, Region>, d: nat, r: Region)
    requires Consistent(pages, regions) && Painted(pages, pages', r, d) && d > 0 && d !in regions && r.Addressable()
    requires forall e | e in regions :: regions[e].Apart(r)
    ensures Consistent(pages', regions[d := r])
  {
    var regions' := regions[d := r];
    forall e, p: nat | e in regions' && regions'[e].HasPage(p) ensures p in pages' && pages'[p] == e {
      if e != d {
        OtherPage(pages, pages', r, d, regions[e], p);
      }
    }
    forall p | p in pages' && pages'[p] != 0 ensures pages'[p] in regions' && regions'[pages'[p]].HasPage(p) {
      if !r.HasPage(p) {
        assert p in pages && pages[p] in regions;
      }
    }
  }

  lemma OtherPage(pages: map<nat, nat>, pages': map<nat, nat>, r: Region, word: nat, other: Region, p: nat)
    requires Painted(pages, pages', r, word) && other.Apart(r) && other.HasPage(p) && p in pages
    ensures p in pages' && pages'[p] == pages[p]
  {}

  lemma UnregisterKeeps(pages: map<nat, nat>, pages': map<nat, nat>, regions: map<nat, Region>, d: nat)
    requires Consistent(pages, regions) && d in regions && Painted(pages, pages', regions[d], 0)
    ensures Consistent(pages', regions - {d})
  {
    var regions' := regions - {d};
    forall e, p: nat | e in regions' && regions'[e].HasPage(p) ensures p in pages' && pages'[p] == e {
      assert regions[e].HasPage(p) && !regions[d].HasPage(p);
    }
    forall p | p in pages' && pages'[p] != 0 ensures pages'[p] in regions' && regions'[pages'[p]].HasPage(p) {
      assert !regions[d].HasPage(p) && p in pages;
    }
  }

  // From a pointer back to its block

  /** `get_size_class_index` of a descriptor with this block size. */
  function ClassOf(blockSize: nat, lookup: seq<nat>): nat
    requires |lookup| == MAX_SZ + 1
  {
    if blockSize > MAX_SZ then 0 else lookup[blockSize]
  }

  /** `compute_index` with 32-bit wrap-around subtraction. */
  function ComputeIndex(superBlock: nat, block: nat, c: nat): nat
    requires BlockSize(c) > 0
  {
    (block % U32 - superBlock % U32) % U32 / BlockSize(c)
  }

  lemma WrappedDifference(superBlock: nat, block: nat)
    requires superBlock <= block < superBlock + U32
    ensures (block % U32 - superBlock % U32) % U32 == block - superBlock
    ensures block % U32 < superBlock % U32 <==> block / U32 != superBlock / U32
  {}

  lemma WholeBlocks(offset: nat, block: nat, num: nat)
    requires block > 0 && offset < num * block
    ensures var i := offset / block; i < num && i * block <= offset < (i + 1) * block
  {
    var i := offset / block;
    assert offset == block * i + offset % block;
    assert (i + 1) * block == i * block + block;
    if num < i {
      Apart(block, i, num);
    }
  }

  /** Every address inside the superblock of a ready class finds its own class and the index
      of the block it lies in; the subtraction goes below zero, which a checked build
      reports, exactly when a 4 GiB boundary lies between them. */
  lemma FindBlock(addr: nat, base: nat, c: nat, sc: SizeClass, target: nat, lookup: seq<nat>)
    requires 1 <= c < MAX_SZ_IDX && Ready(sc, c, target) && base <= addr < base + sc.sbSize
    requires |lookup| == MAX_SZ + 1 && forall s | 0 <= s <= MAX_SZ :: LeastFit(s, lookup[s])
    ensures ClassOf(sc.blockSize, lookup) == c
    ensures var i := ComputeIndex(base, addr, c);
            i < sc.blockNum && i * sc.blockSize <= addr - base < (i + 1) * sc.blockSize
    ensures addr % U32 < base % U32 <==> addr / U32 != base / U32
  {
    RowOk(c);
    LookupOwnClass(c, lookup[BlockSize(c)]);
    WrappedDifference(base, addr);
    WholeBlocks(addr - base, sc.blockSize, sc.blockNum);
  }

  /** A superblock of 64-byte blocks that crosses the first 4 GiB boundary after one page: the
      subtraction at the boundary goes below zero, and the index is 64 all the same. */
  lemma IndexAcrossBoundary()
    ensures var base, addr := U32 - PAGE, U32;
            && BlockSize(8) == 64 && base % PAGE == 0
            && addr % U32 < base % U32 && ComputeIndex(base, addr, 8) == (addr - base) / BlockSize(8) == 64
  {
    WrappedDifference(U32 - PAGE, U32);
  }

  // The map and the descriptors it leads to

  /** A superblock of size class `c` at address `base`. */
  datatype SuperBlock = SuperBlock(base: nat, c: nat)

  /** The fields of a descriptor that a look-up reads. */
  datatype Fields = Fields(superBlock: nat, blockSize: nat)

  datatype Found = Found(desc: nat, c: nat, index: nat)

  /** What set-up leaves: every class ready, and every size with its least class. */
  datatype Classes = Classes(table: seq<SizeClass>, lookup: seq<nat>, target: nat) {
    ghost predicate Valid() {
      && |table| == MAX_SZ_IDX && (forall c | 1 <= c < MAX_SZ_IDX :: Ready(table[c], c, target))
      && |lookup| == MAX_SZ + 1 && forall s | 0 <= s <= MAX_SZ :: LeastFit(s, lookup[s])
    }

    predicate Placed(sb: SuperBlock) {
      && |table| == MAX_SZ_IDX && 1 <= sb.c < MAX_SZ_IDX && sb.base % PAGE == 0
      && sb.base + table[sb.c].sbSize <= PAGE_NUMBERS * PAGE
    }

    predicate Has(sb: SuperBlock, addr: nat)
      requires Placed(sb)
    {
      sb.base <= addr < sb.base + table[sb.c].sbSize
    }

    function Pages(sb: SuperBlock): Region
      requires Placed(sb)
    {
      Region(sb.base / PAGE, table[sb.c].sbSize / PAGE)
    }
  }

  /** A superblock has exactly the addresses of its pages, all below 2^50. */
  lemma PagesOfBytes(k: Classes, sb: SuperBlock, addr: nat)
    requires k.Valid() && k.Placed(sb)
    ensures k.Pages(sb).Has(addr) <==> k.Has(sb, addr)
    ensures k.Pages(sb).Addressable()
  {
    WholePages(sb.base, k.table[sb.c].sbSize, addr);
    WholePages(sb.base, k.table[sb.c].sbSize, PAGE_NUMBERS * PAGE);
  }

  lemma WholePages(base: nat, len: nat, addr: nat)
    requires base % PAGE == 0 && len % PAGE == 0
    ensures Region(base / PAGE, len / PAGE).Has(addr) <==> base <= addr < base + len
    ensures base + len <= PAGE_NUMBERS * PAGE ==> base / PAGE + len / PAGE <= PAGE_NUMBERS
  {}

  ghost function RegionsOf(k: Classes, sbs: map<nat, SuperBlock>): map<nat, Region>
    requires forall d | d in sbs :: k.Placed(sbs[d])
  {
    map d | d in sbs :: k.Pages(sbs[d])
  }

  lemma RegionsWith(k: Classes, sbs: map<nat, SuperBlock>, d: nat, sb: SuperBlock)
    requires (forall e | e in sbs :: k.Placed(sbs[e])) && k.Placed(sb)
    ensures RegionsOf(k, sbs[d := sb]) == RegionsOf(k, sbs)[d := k.Pages(sb)]
  {}

  lemma RegionsWithout(k: Classes, sbs: map<nat, SuperBlock>, d: nat)
    requires forall e | e in sbs :: k.Placed(sbs[e])
    ensures RegionsOf(k, sbs - {d}) == RegionsOf(k, sbs) - {d}
  {}

  class PageMap {
    const classes: Classes
    var pages: map<nat, nat>
    /** The descriptors in memory. */
    var descs: map<nat, Fields>
    /** The superblocks registered now, by descriptor. */
    ghost var superBlocks: map<nat, SuperBlock>

    ghost predicate Valid()
      reads this
    {
      && classes.Valid() && (forall d | d in superBlocks :: classes.Placed(superBlocks[d]))
      && Consistent(pages, RegionsOf(classes, superBlocks))
      && forall d | d in superBlocks ::
           d in descs && descs[d] == Fields(superBlocks[d].base, BlockSize(superBlocks[d].c))
    }

    constructor (classes: Classes)
      requires classes.Valid()
      ensures Valid() && superBlocks == map[] && this.classes == classes
    {
      this.classes := classes;
      pages, descs, superBlocks := map[], map[], map[];
    }

    /** The loop of `update_page_map`: writes one word for every page of the superblock. */
    method UpdatePages(r: Region, word: nat)
      requires r.Addressable()
      modifies this`pages
      ensures Painted(old(pages), pages, r, word)
    {
      for i := 0 to r.count
        invariant forall p: nat :: if r.first <= p < r.first + i then p in pages && pages[p] == word
                                   else (p in pages <==> p in old(pages)) && (p in pages ==> pages[p] == old(pages)[p])
      {
        var addr := (r.first + i) * PAGE;
        assert addr / PAGE == r.first + i;
        KeyIsPage(addr);
        pages := pages[AddrToKey(addr) := word];
      }
    }

    /** A new superblock of class `c`: its descriptor is filled in, then `register_desc`.  Those
        registered before stay registered. */
    method Register(d: nat, sb: SuperBlock)
      requires Valid() && d > 0 && And(d, SC_MASK) == 0 && d !in superBlocks && classes.Placed(sb)
      requires forall e | e in superBlocks :: classes.Pages(superBlocks[e]).Apart(classes.Pages(sb))
      modifies this
      ensures Valid() && superBlocks == old(superBlocks)[d := sb]
    {
      ghost var before := RegionsOf(classes, superBlocks);
      descs := descs[d := Fields(sb.base, BlockSize(sb.c))];
      PagesOfBytes(classes, sb, sb.base);
      UpdatePages(classes.Pages(sb), InfoWord(d, 0));
      RegisterKeeps(old(pages), pages, before, d, classes.Pages(sb));
      RegionsWith(classes, superBlocks, d, sb);
      superBlocks := superBlocks[d := sb];
    }

    /** `unregister_desc`. */
    method Unregister(d: nat, sb: SuperBlock)
      requires Valid() && d in superBlocks && superBlocks[d] == sb
      modifies this
      ensures Valid() && superBlocks == old(superBlocks) - {d}
    {
      ghost var before := RegionsOf(classes, superBlocks);
      PagesOfBytes(classes, sb, sb.base);
      UpdatePages(classes.Pages(sb), InfoWord(0, 0));
      UnregisterKeeps(old(pages), pages, before, d);
      RegionsWithout(classes, superBlocks, d);
      superBlocks := superBlocks - {d};
    }

    /** `get_page_info` and `get_desc`: an address below 2^50 finds the descriptor of the
        superblock it lies in, if any. */
    method GetDesc(addr: nat) returns (d: Option<nat>)
      requires Valid() && addr < PAGE_NUMBERS * PAGE
      ensures d.Some? ==> d.value in superBlocks && classes.Has(superBlocks[d.value], addr)
      ensures forall e | e in superBlocks && classes.Has(superBlocks[e], addr) :: d == Some(e)
    {
      KeyIsPage(addr);
      forall e | e in superBlocks
        ensures classes.Pages(superBlocks[e]).Has(addr) <==> classes.Has(superBlocks[e], addr)
      {
        PagesOfBytes(classes, superBlocks[e], addr);
      }
      ghost var regions := RegionsOf(classes, superBlocks);
      assert forall e | e in superBlocks :: e in regions && regions[e] == classes.Pages(superBlocks[e]);
      var key := AddrToKey(addr);
      if key !in pages || pages[key] == 0 {
        return None;
      }
      d := Some(pages[key]);
    }

    /** From an address to its descriptor, size class and block index, as `do_free` and
        `flush_cache` find them: every address below 2^50 inside a registered superblock finds
        its own, and no other address finds any. */
    method Find(addr: nat) returns (r: Option<Found>)
      requires Valid() && addr < PAGE_NUMBERS * PAGE
      ensures r.None? <==> forall d | d in superBlocks :: !classes.Has(superBlocks[d], addr)
      ensures forall d | d in superBlocks && classes.Has(superBlocks[d], addr) ::
                var sb := superBlocks[d];
                && r.Some? && r.value.desc == d && r.value.c == sb.c
                && r.value.index < classes.table[sb.c].blockNum
                && r.value.index * BlockSize(sb.c) <= addr - sb.base < (r.value.index + 1) * BlockSize(sb.c)
    {
      var d := GetDesc(addr);
      if d == None {
        return None;
      }
      var found := Locate(d.value, addr);
      r := Some(found);
    }

    /** Class and index from the fields of the descriptor. */
    method Locate(d: nat, addr: nat) returns (r: Found)
      requires Valid() && d in superBlocks && classes.Has(superBlocks[d], addr)
      ensures var sb := superBlocks[d];
              && r.desc == d && r.c == sb.c && r.index < classes.table[sb.c].blockNum
              && r.index * BlockSize(sb.c) <= addr - sb.base < (r.index + 1) * BlockSize(sb.c)
    {
      var fields := descs[d];
      ghost var sb := superBlocks[d];
      FindBlock(addr, sb.base, sb.c, classes.table[sb.c], classes.target, classes.lookup);
      var c := ClassOf(fields.blockSize, classes.lookup);
      r := Found(d, c, ComputeIndex(fields.superBlock, addr, c));
    }
  }
}
