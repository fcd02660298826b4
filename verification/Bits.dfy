/** Bit masks on 64-bit words, as arithmetic on naturals. */
module Bits {

  const WORD := 0x1_0000_0000_0000_0000

  function Pow2(n: nat): (p: nat)
    ensures p > 0
  {
    if n == 0 then 1 else 2 * Pow2(n - 1)
  }

  /** Bitwise and. */
  function And(x: nat, y: nat): (r: nat)
    ensures r <= x && r <= y
    decreases x
  {
    if x == 0 || y == 0 then 0 else (if x % 2 == 1 && y % 2 == 1 then 1 else 0) + 2 * And(x / 2, y / 2)
  }

  /** Bitwise complement of a 64-bit word. */
  function Not(x: nat): nat
    requires x < WORD
  {
    WORD - 1 - x
  }

  lemma Pow2Word()
    ensures Pow2(64) == WORD
  {
    var four, eight, sixteen := Pow2(4), Pow2(8), Pow2(16);
    assert four == 16;
    Pow2Add(4, 4);
    assert eight == 0x100;
    Pow2Add(8, 8);
    assert sixteen == 0x1_0000;
    Pow2Add(16, 16);
    assert Pow2(32) == 0x1_0000_0000;
    Pow2Add(32, 32);
  }

  lemma {:induction false} Pow2Add(a: nat, b: nat)
    ensures Pow2(a + b) == Pow2(a) * Pow2(b)
    decreases b
  {
    if b > 0 {
      Pow2Add(a, b - 1);
      assert Pow2(a + b) == 2 * Pow2(a + (b - 1));
    }
  }

  lemma {:induction false} Pow2Monotone(a: nat, b: nat)
    requires a <= b
    ensures Pow2(a) <= Pow2(b)
    decreases b
  {
    if a < b {
      Pow2Monotone(a, b - 1);
    }
  }

  lemma {:induction false} AndAllOnes(x: nat, w: nat)
    requires x < Pow2(w)
    ensures And(x, Pow2(w) - 1) == x
    decreases w
  {
    if x != 0 {
      var y := Pow2(w) - 1;
      assert y == 2 * (Pow2(w - 1) - 1) + 1;
      AndAllOnes(x / 2, w - 1);
    }
  }

  lemma {:induction false} AndAllOnesLeft(x: nat, w: nat)
    requires x < Pow2(w)
    ensures And(Pow2(w) - 1, x) == x
    decreases w
  {
    if x != 0 {
      var y := Pow2(w) - 1;
      assert y == 2 * (Pow2(w - 1) - 1) + 1;
      AndAllOnesLeft(x / 2, w - 1);
    }
  }

  lemma ModDouble(x: nat, m: nat)
    requires m > 0
    ensures x % (2 * m) == 2 * ((x / 2) % m) + x % 2
  {
    var q, u := (x / 2) / m, (x / 2) % m;
    var r := 2 * u + x % 2;
    assert x / 2 == m * q + u;
    assert x == 2 * (x / 2) + x % 2 == (2 * m) * q + r;
    assert 0 <= r < 2 * m;
    ModUnique(x, 2 * m, q, r);
  }

  lemma {:induction false} Apart(d: nat, a: nat, b: nat)
    requires a > b
    ensures d * a >= d * b + d
    decreases a
  {
    assert d * a == d * (a - 1) + d;
    if a - 1 > b {
      Apart(d, a - 1, b);
    }
  }

  lemma ModUnique(x: nat, d: nat, q: nat, r: nat)
    requires d > 0 && x == d * q + r && r < d
    ensures x % d == r && x / d == q
  {
    var q', r' := x / d, x % d;
    if q > q' {
      Apart(d, q, q');
      assert false;
    } else if q < q' {
      Apart(d, q', q);
      assert false;
    }
  }

  lemma RoundDown(x: nat, d: nat)
    requires d > 0
    ensures (x - x % d) % d == 0
  {
    assert x - x % d == d * (x / d);
    ModUnique(x - x % d, d, x / d, 0);
  }

  /** The low `j` bits. */
  function Low(x: nat, j: nat): (r: nat)
    ensures r <= x
    decreases j
  {
    if j == 0 then 0 else 2 * Low(x / 2, j - 1) + x % 2
  }

  lemma {:induction false} LowIsMod(x: nat, j: nat)
    ensures Low(x, j) == x % Pow2(j)
    decreases j
  {
    if j > 0 {
      LowIsMod(x / 2, j - 1);
      ModDouble(x, Pow2(j - 1));
    }
  }

  lemma {:induction false} LowAll(x: nat, w: nat)
    requires x < Pow2(w)
    ensures Low(x, w) == x
    decreases w
  {
    if w > 0 {
      LowAll(x / 2, w - 1);
    }
  }

  lemma {:induction false} MaskLow(x: nat, w: nat, j: nat)
    requires x < Pow2(w) && j <= w
    ensures Pow2(j) <= Pow2(w)
    ensures And(x, Pow2(w) - Pow2(j)) == x - Low(x, j)
    decreases j
  {
    Pow2Monotone(j, w);
    if j == 0 {
      AndAllOnes(x, w);
    } else if j == w {
      LowAll(x, w);
    } else {
      HalfBelow(x, w);
      MaskLow(x / 2, w - 1, j - 1);
      var mask := Pow2(w - 1) - Pow2(j - 1);
      MaskStep(x, mask, Low(x / 2, j - 1));
      assert 2 * mask == Pow2(w) - Pow2(j);
    }
  }

  lemma HalfBelow(x: nat, w: nat)
    requires w > 0 && x < Pow2(w)
    ensures x / 2 < Pow2(w - 1)
  {}

  lemma MaskStep(x: nat, mask: nat, low: nat)
    requires low <= x / 2 && And(x / 2, mask) == x / 2 - low
    ensures And(x, 2 * mask) == x - (2 * low + x % 2)
  {
    AndEven(x, mask);
  }

  /** Anding with the complement of `2^j - 1` rounds down to a multiple of `2^j`. */
  lemma AndMask(x: nat, w: nat, j: nat)
    requires x < Pow2(w) && j <= w
    ensures Pow2(j) <= Pow2(w)
    ensures And(x, Pow2(w) - Pow2(j)) == x - x % Pow2(j)
  {
    MaskLow(x, w, j);
    LowIsMod(x, j);
  }

  lemma AndEven(x: nat, y: nat)
    ensures And(x, 2 * y) == 2 * And(x / 2, y)
  {
    if x != 0 && y != 0 {
      assert (2 * y) % 2 == 0 && (2 * y) / 2 == y;
    }
  }

  lemma AndOdd(x: nat, y: nat)
    ensures And(x, 2 * y + 1) == x % 2 + 2 * And(x / 2, y)
  {
    assert (2 * y + 1) % 2 == 1 && (2 * y + 1) / 2 == y;
  }

  lemma {:induction false} AndIsLow(x: nat, k: nat)
    ensures And(x, Pow2(k) - 1) == Low(x, k)
    decreases k
  {
    if k > 0 {
      AndIsLow(x / 2, k - 1);
      AndOdd(x, Pow2(k - 1) - 1);
    }
  }

  /** Anding with `2^k - 1` keeps the low `k` bits. */
  lemma AndLow(x: nat, k: nat)
    ensures And(x, Pow2(k) - 1) == x % Pow2(k)
  {
    AndIsLow(x, k);
    LowIsMod(x, k);
  }

  lemma Pow2Of38()
    ensures Pow2(38) == 0x40_0000_0000
  {
    assert Pow2(4) == 16;
    Pow2Add(4, 4);
    Pow2Add(8, 8);
    Pow2Add(16, 16);
    Pow2Add(32, 4);
    Pow2Add(36, 2);
    assert Pow2(2) == 4;
  }

  lemma AndEvenLeft(x: nat, y: nat)
    ensures And(2 * x, y) == 2 * And(x, y / 2)
  {
    if x != 0 && y != 0 {
      assert (2 * x) % 2 == 0 && (2 * x) / 2 == x;
    }
  }

  /** The highest bit of a word. */
  lemma {:induction false} AndHighest(m: nat, y: nat)
    requires Pow2(m) <= y < 2 * Pow2(m)
    ensures And(Pow2(m), y) == Pow2(m)
    decreases m
  {
    if m == 0 {
      assert And(1, 1) == 1 + 2 * And(0, 0);
    } else {
      AndHighest(m - 1, y / 2);
      AndEvenLeft(Pow2(m - 1), y);
    }
  }

  /** Only powers of two divide a power of two. */
  lemma {:induction false} DividesPower(a: nat, m: nat) returns (j: nat)
    requires a > 0 && Pow2(m) % a == 0
    ensures a == Pow2(j)
    decreases m
  {
    var k := Pow2(m) / a;
    assert Pow2(m) == a * k;
    if a == 1 {
      j := 0;
    } else {
      PowerEven(a, k, m);
      var p := Pow2(m - 1);
      if a % 2 == 0 {
        assert p == (a / 2) * k by { assert a == 2 * (a / 2); }
        ModUnique(p, a / 2, k, 0);
        j := DividesPower(a / 2, m - 1);
        j := j + 1;
      } else {
        OddFactor(a, k, p);
        ModUnique(p, a, k / 2, 0);
        j := DividesPower(a, m - 1);
      }
    }
  }

  lemma PowerEven(a: nat, k: nat, m: nat)
    requires a > 1 && Pow2(m) == a * k
    ensures m > 0
  {
    if k > 0 {
      Apart(a, k, 0);
    }
  }

  lemma OddFactor(a: nat, k: nat, p: nat)
    requires a % 2 == 1 && a * k == 2 * p
    ensures p == a * (k / 2)
  {
    var h := a / 2;
    assert a * k == 2 * (h * k) + k;
    assert k % 2 == 0;
    assert a * k == a * (2 * (k / 2)) == 2 * (a * (k / 2));
  }
}
