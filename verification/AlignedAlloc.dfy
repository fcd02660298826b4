/**
  Aligned allocation: the rounding done with bit masks, the choice between a cached block and
  a segment of its own, and the address guarantees.
  */
module AlignedAlloc {
  import opened Options
  import opened Bits
  import opened SizeClasses

  /** `align_val` and `align_addr`: add the alignment less one and mask. */
  function AlignVal(val: nat, align: nat): nat
    requires 0 < align < WORD && val + align <= WORD
  {
    And(val + align - 1, Not(align) + 1)
  }

  function AlignSize(size: nat, align: nat): nat
    requires 0 < align < WORD && size + align <= WORD
  {
    if align < size then AlignVal(size, align) else align
  }

  /** For a power of two the mask rounds up to the next multiple. */
  lemma AlignValOk(val: nat, j: nat)
    requires j < 64 && Pow2(j) < WORD && val + Pow2(j) <= WORD
    ensures var r := AlignVal(val, Pow2(j));
            val <= r < val + Pow2(j) && r % Pow2(j) == 0
  {
    var align := Pow2(j);
    Masked(val + align - 1, j);
    RoundedUp(val, align, AlignVal(val, align));
  }

  lemma Masked(x: nat, j: nat)
    requires x < WORD && j < 64 && Pow2(j) < WORD
    ensures And(x, Not(Pow2(j)) + 1) == x - x % Pow2(j)
  {
    Pow2Word();
    AndMask(x, 64, j);
  }

  lemma RoundedUp(val: nat, align: nat, r: nat)
    requires align > 0 && r == (val + align - 1) - (val + align - 1) % align
    ensures val <= r < val + align && r % align == 0
  {
    RoundDown(val + align - 1, align);
  }

  // ---- exactly the powers of two ----------------------------------------------------------

  /** The mask gives a multiple of `align` for every value that does not wrap around. */
  ghost predicate Rounds(align: nat)
    requires 0 < align < WORD
  {
    forall v: nat | v + align <= WORD :: AlignVal(v, align) % align == 0
  }

  /** The rounding works for the powers of two and for no other alignment. */
  lemma RoundsIffPower(align: nat)
    requires 0 < align < WORD
    ensures Rounds(align) <==> PowerOfTwo(align)
  {
    if PowerOfTwo(align) {
      var j :| align == Pow2(j);
      Exponent(j);
      forall v: nat | v + align <= WORD ensures AlignVal(v, align) % align == 0 {
        AlignValOk(v, j);
      }
    } else {
      var m := TopBit();
      if align < Pow2(m) {
        BelowTop(align, m);
      } else {
        AboveTop(align, m);
      }
    }
  }

  lemma TopBit() returns (m: nat)
    ensures 2 * Pow2(m) == WORD
  {
    Pow2Word();
    m := 63;
  }

  /** Rounding to 2^63 leaves it as it is, and only powers of two divide it. */
  lemma BelowTop(align: nat, m: nat)
    requires 0 < align < Pow2(m) && 2 * Pow2(m) == WORD && !PowerOfTwo(align)
    ensures !Rounds(align)
  {
    TopKept(align, m);
    NotMultiple(align, m);
  }

  lemma TopKept(align: nat, m: nat)
    requires 0 < align < Pow2(m) && 2 * Pow2(m) == WORD
    ensures AlignVal(Pow2(m) - align + 1, align) == Pow2(m)
  {
    AndHighest(m, WORD - align);
  }

  lemma NotMultiple(align: nat, m: nat)
    requires align > 0 && !PowerOfTwo(align)
    ensures Pow2(m) % align != 0
  {
    if Pow2(m) % align == 0 {
      var j := DividesPower(align, m);
    }
  }

  /** Above 2^63 the mask is smaller than the alignment, and rounding keeps all of it. */
  lemma AboveTop(align: nat, m: nat)
    requires Pow2(m) <= align < WORD && 2 * Pow2(m) == WORD && !PowerOfTwo(align)
    ensures !Rounds(align)
  {
    assert align != Pow2(m);
    var v := WORD - align;
    MaskKept(align);
    ModUnique(v, align, 0, v);
  }

  lemma MaskKept(align: nat)
    requires 0 < align < WORD
    ensures AlignVal(WORD - align, align) == WORD - align
  {
    Pow2Word();
    AndAllOnesLeft(WORD - align, 64);
  }

  /** So a word that is not 0 passes the test and rounds wrongly exactly if it is no power of
      two. */
  lemma WronglyAccepted(align: nat)
    requires align < WORD
    ensures IsPowerOfTwo(align) && !Rounds(align) <==> align != 0 && !PowerOfTwo(align)
  {
    TestOnlyRejectsZero(align);
    if align != 0 {
      RoundsIffPower(align);
    }
  }

  lemma {:induction false} Exponent(j: nat)
    requires Pow2(j) < WORD
    ensures j < 64
  {
    if j >= 64 {
      Pow2Word();
      Pow2Monotone(64, j);
    }
  }

  /** The source's test: the complement of `x & (x - 1)` is compared with 0, which holds for
      every word but 0. */
  predicate IsPowerOfTwo(x: nat)
    requires x < WORD
  {
    x != 0 && Not(And(x, x - 1)) != 0
  }

  /** So the test only rejects 0. */
  lemma TestOnlyRejectsZero(x: nat)
    requires x < WORD
    ensures IsPowerOfTwo(x) <==> x != 0
  {}

  /** An alignment of 3 passes the test, and the rounding then keeps a size of 4. */
  lemma ThreeIsAccepted()
    ensures IsPowerOfTwo(3) && !PowerOfTwo(3) && AlignSize(4, 3) % 3 != 0
  {
    TestOnlyRejectsZero(3);
    forall j: nat ensures Pow2(j) != 3 {
      if j > 1 {
        assert Pow2(j) == 2 * Pow2(j - 1);
      }
    }
    assert Not(3) + 1 == WORD - 3;
    assert And(6, WORD - 3) == 4 by {
      assert (WORD - 3) % 2 == 1 && (WORD - 3) / 2 == WORD / 2 - 2;
      assert (WORD / 2 - 2) % 2 == 0 && (WORD / 2 - 2) / 2 == WORD / 4 - 1;
      assert (WORD / 4 - 1) % 2 == 1;
      assert And(0, (WORD / 4 - 1) / 2) == 0;
      assert And(1, WORD / 4 - 1) == 1;
      assert And(3, WORD / 2 - 2) == 2;
    }
  }

  /** A pointer together with the block or segment [`lo`, `hi`) set aside for it. */
  datatype Placement = Null | Placed(ptr: nat, lo: nat, hi: nat)

  lemma ModTrans(a: nat, b: nat, c: nat)
    requires b > 0 && c > 0 && a % b == 0 && b % c == 0
    ensures a % c == 0
  {
    ModMul(b, a / b, c);
    assert a == b * (a / b);
  }

  lemma ModMul(a: nat, k: nat, d: nat)
    requires d > 0 && a % d == 0
    ensures (a * k) % d == 0
  {
    assert a == d * (a / d);
    assert a * k == d * ((a / d) * k);
    ModUnique(a * k, d, (a / d) * k, 0);
  }

  lemma PageMultiple(j: nat)
    requires Pow2(j) <= PAGE
    ensures PAGE % Pow2(j) == 0
  {
    SmallPowers(j);
  }

  /** A block at `index` of a page-aligned superblock of the class chosen for the rounded
      size. */
  lemma BlockAligned(size: nat, j: nat, c: nat, superBlock: nat, index: nat)
    requires Pow2(j) <= PAGE && 0 < size <= PAGE && size % Pow2(j) == 0 && LeastFit(size, c)
    requires superBlock % PAGE == 0
    ensures (superBlock + index * BlockSize(c)) % Pow2(j) == 0
  {
    var align := Pow2(j);
    ClassKeepsAlignment(size, align, c);
    PageMultiple(j);
    ModTrans(superBlock, PAGE, align);
    ModMul(BlockSize(c), index, align);
    ModAdd(superBlock, index * BlockSize(c), align);
  }

  /** The least multiple of the alignment that is not 0 and holds the size. */
  lemma SizeAligned(size: nat, j: nat)
    requires j < 64 && Pow2(j) < WORD && size + Pow2(j) <= WORD
    ensures var r := AlignSize(size, Pow2(j));
            size <= r && Pow2(j) <= r && r % Pow2(j) == 0 && (r == Pow2(j) || r < size + Pow2(j))
  {
    if Pow2(j) < size {
      AlignValOk(size, j);
    }
  }

  lemma SizeBound(size: nat, align: nat)
    requires 0 < align < WORD && size + align <= WORD
    ensures AlignSize(size, align) <= size + align
  {
    assert AlignSize(size, align) <= size + align - 1 || AlignSize(size, align) == align;
  }

  /** The pointer inside a page-aligned segment long enough for the size and, above a page,
      one more alignment. */
  lemma SegmentAligned(base: nat, j: nat)
    requires j < 64 && Pow2(j) < WORD && base + Pow2(j) <= WORD && base % PAGE == 0
    ensures var align := Pow2(j);
            var ptr := if align > PAGE then AlignVal(base, align) else base;
            ptr % align == 0 && base <= ptr && ptr < base + (if align > PAGE then align else 1)
  {
    if Pow2(j) > PAGE {
      AlignValOk(base, j);
    } else {
      PageMultiple(j);
      ModTrans(base, PAGE, Pow2(j));
    }
  }

  /**
    `do_aligned_alloc`, outside bootstrap and without wrap-around.  `segment` is what the
    segment allocator answers, `superBlock` and `index` the block that the cache of the
    chosen class gives; segments and superblocks are page-aligned.  For every power-of-two
    alignment the pointer is a multiple of it and its bytes lie inside its block or segment.
    */
  method DoAlignedAlloc(align: nat, request: nat, lookup: seq<nat>, segment: Option<nat>, superBlock: nat, index: nat)
    returns (r: Placement)
    requires align < WORD && request + 2 * align + MAX_SZ + 2 * PAGE < WORD
    requires |lookup| == MAX_SZ + 1 && forall s | 0 <= s <= MAX_SZ :: LeastFit(s, lookup[s])
    requires segment.Some? ==> segment.value % PAGE == 0 && segment.value + align <= WORD
    requires superBlock % PAGE == 0
    ensures align == 0 ==> r == Null
    ensures PowerOfTwo(align) && r.Placed? ==> r.ptr % align == 0 && r.lo <= r.ptr && r.ptr + request <= r.hi
    ensures align != 0 ==> (r == Null <==> segment == None && AlignSize(request, align) > PAGE)
    ensures r.Placed? ==>
              var size := AlignSize(request, align);
              if size > PAGE then r.lo == segment.value && r.hi == r.lo + SegmentBytes(align, size)
              else r.lo == superBlock + index * BlockSize(lookup[size]) && r.hi == r.lo + BlockSize(lookup[size])
  {
    TestOnlyRejectsZero(align);
    if !IsPowerOfTwo(align) {
      return Null;
    }
    var size := AlignSize(request, align);
    SizeBound(request, align);
    if PowerOfTwo(align) {
      RoundedRequest(align, request);
    }
    if size > PAGE {
      r := FromSegment(align, size, segment);
    } else {
      r := FromCache(align, size, lookup[size], superBlock, index);
    }
  }

  lemma RoundedRequest(align: nat, request: nat)
    requires PowerOfTwo(align) && align < WORD && request + align <= WORD
    ensures var r := AlignSize(request, align);
            request <= r && align <= r && r % align == 0
  {
    var j :| align == Pow2(j);
    Exponent(j);
    SizeAligned(request, j);
  }

  /** The small path: a block of class `c`. */
  method FromCache(align: nat, size: nat, c: nat, superBlock: nat, index: nat) returns (r: Placement)
    requires superBlock % PAGE == 0 && size <= PAGE && LeastFit(size, c)
    ensures r.Placed? && r.lo == r.ptr && r.ptr + size <= r.hi
    ensures r.lo == superBlock + index * BlockSize(c) && r.hi == r.lo + BlockSize(c)
    ensures PowerOfTwo(align) && align <= size && size % align == 0 ==> r.ptr % align == 0
  {
    var ptr := superBlock + index * BlockSize(c);
    r := Placed(ptr, ptr, ptr + BlockSize(c));
    if PowerOfTwo(align) && align <= size && size % align == 0 {
      var j :| align == Pow2(j);
      BlockAligned(size, j, c, superBlock, index);
    }
  }

  /** The length of the segment asked for. */
  function SegmentBytes(align: nat, size: nat): nat
    requires size + align + MAX_SZ + 2 * PAGE < WORD
  {
    PageCeiling((if size > MAX_SZ + 1 then size else MAX_SZ + 1) + (if align > PAGE then align else 0))
  }

  /** The large path: at least `MAX_SZ + 1` bytes, one more alignment above a page, in whole
      pages. */
  method FromSegment(align: nat, size0: nat, segment: Option<nat>) returns (r: Placement)
    requires 0 < align < WORD && size0 + align + MAX_SZ + 2 * PAGE < WORD
    requires segment.Some? ==> segment.value % PAGE == 0 && segment.value + align <= WORD
    ensures r.Placed? <==> segment.Some?
    ensures r.Placed? ==> r.lo == segment.value && r.hi == r.lo + SegmentBytes(align, size0)
    ensures PowerOfTwo(align) && r.Placed? ==> r.ptr % align == 0 && r.lo <= r.ptr && r.ptr + size0 <= r.hi
  {
    var size := if size0 > MAX_SZ + 1 then size0 else MAX_SZ + 1;
    var needMorePages := align > PAGE;
    if needMorePages {
      size := size + align;
    }
    PageCeilingOk(size);
    var pages := PageCeiling(size);
    if segment == None {
      return Null;
    }
    var base := segment.value;
    var ptr := base;
    if needMorePages {
      ptr := AlignVal(base, align);
    }
    r := Placed(ptr, base, base + pages);
    if PowerOfTwo(align) {
      var j :| align == Pow2(j);
      Exponent(j);
      SegmentAligned(base, j);
    }
  }
}
