/**
 The unsigned 64-bit arithmetic the queue relies on: rounding up to a power of two by smearing bits,
 and wrapping an index with a mask.
 */
module BitTricks {

  function Pow2(k: nat): (r: nat)
    ensures 0 < r
  {
    if k == 0 then 1 else 2 * Pow2(k - 1)
  }

  const WORD: nat := 0x1_0000_0000_0000_0000

  lemma {:induction false} WordIsPow2()
    ensures Pow2(64) == WORD && 2 * Pow2(63) == WORD
  {
    assert Pow2(8) == 256;
    Pow2Sum(8, 8);
    Pow2Sum(16, 16);
    Pow2Sum(32, 32);
  }

  lemma {:induction false} Pow2Sum(a: nat, b: nat)
    ensures Pow2(a + b) == Pow2(a) * Pow2(b)
  {
    if a > 0 {
      Pow2Sum(a - 1, b);
      assert Pow2(a + b) == 2 * Pow2(a - 1 + b) == 2 * (Pow2(a - 1) * Pow2(b));
    }
  }

  lemma {:induction false} Pow2Monotone(a: nat, b: nat)
    requires a <= b
    ensures Pow2(a) <= Pow2(b)
  {
    if a < b {
      Pow2Monotone(a, b - 1);
    }
  }

  ghost predicate IsPow2(x: nat) {
    exists k: nat :: x == Pow2(k)
  }

  /** Bitwise `|`. */
  function Or(a: nat, b: nat): nat {
    if a == 0 && b == 0 then 0
    else 2 * Or(a / 2, b / 2) + (if a % 2 == 1 || b % 2 == 1 then 1 else 0)
  }

  /** Bitwise `&`. */
  function And(a: nat, b: nat): nat {
    if a == 0 || b == 0 then 0
    else 2 * And(a / 2, b / 2) + (if a % 2 == 1 && b % 2 == 1 then 1 else 0)
  }

  /** `x >> k`. */
  function Shr(x: nat, k: nat): nat
    decreases k
  {
    if k == 0 then x else Shr(x / 2, k - 1)
  }

  predicate Bit(x: nat, i: nat)
    decreases i
  {
    if i == 0 then x % 2 == 1 else Bit(x / 2, i - 1)
  }

  lemma {:induction false} BitOr(a: nat, b: nat, i: nat)
    ensures Bit(Or(a, b), i) <==> Bit(a, i) || Bit(b, i)
    decreases i
  {
    if a == 0 && b == 0 {
      BitZero(i);
    } else if i > 0 {
      OrHalves(a, b);
      hide Or;
      BitOr(a / 2, b / 2, i - 1);
    } else {
      OrHalves(a, b);
      hide Or;
    }
  }

  lemma {:induction false} OrHalves(a: nat, b: nat)
    requires a != 0 || b != 0
    ensures Or(a, b) / 2 == Or(a / 2, b / 2)
    ensures Or(a, b) % 2 == 1 <==> a % 2 == 1 || b % 2 == 1
  {}

  lemma {:induction false} BitZero(i: nat)
    ensures !Bit(0, i)
  {
    if i > 0 { BitZero(i - 1); }
  }

  lemma {:induction false} BitShr(x: nat, k: nat, i: nat)
    ensures Bit(Shr(x, k), i) == Bit(x, i + k)
    decreases k
  {
    if k > 0 { BitShr(x / 2, k - 1, i); }
  }

  /** No bit from `m` on is set in a number below `2^m`. */
  lemma {:induction false} HighBits(x: nat, m: nat, i: nat)
    requires x < Pow2(m) && m <= i
    ensures !Bit(x, i)
    decreases m
  {
    if m == 0 {
      BitZero(i);
    } else {
      HighBits(x / 2, m - 1, i - 1);
    }
  }

  /** A number in `[2^(m-1), 2^m)` has its bit `m - 1` set. */
  lemma {:induction false} TopBit(x: nat, m: nat)
    requires 0 < m && Pow2(m - 1) <= x < Pow2(m)
    ensures Bit(x, m - 1)
    decreases m
  {
    if m > 1 { TopBit(x / 2, m - 1); }
  }

  lemma {:induction false} OnesBit(m: nat, i: nat)
    ensures Bit(Pow2(m) - 1, i) <==> i < m
    decreases m
  {
    if m == 0 {
      BitZero(i);
    } else if i > 0 {
      assert (Pow2(m) - 1) / 2 == Pow2(m - 1) - 1;
      OnesBit(m - 1, i - 1);
    }
  }

  /** Numbers with the same bits are equal. */
  lemma {:induction false} SameBits(a: nat, b: nat)
    requires forall i: nat :: Bit(a, i) == Bit(b, i)
    ensures a == b
    decreases a + b
  {
    assert Bit(a, 0) == Bit(b, 0);
    if a + b > 0 {
      forall i: nat ensures Bit(a / 2, i) == Bit(b / 2, i) {
        assert Bit(a, i + 1) == Bit(b, i + 1);
      }
      SameBits(a / 2, b / 2);
    }
  }

  /** Whether `x` has a bit in the `w` places from `i` up. */
  ghost predicate HasBit(x: nat, i: nat, w: nat) {
    exists j: nat :: i <= j < i + w && Bit(x, j)
  }

  /** Every bit of `y` tells whether `x` has a bit in the `w` places from there up. */
  ghost predicate Smeared(x: nat, y: nat, w: nat) {
    forall i: nat :: Bit(y, i) == HasBit(x, i, w)
  }

  lemma {:induction false} SmearStart(x: nat)
    ensures Smeared(x, x, 1)
  {
    forall i: nat ensures Bit(x, i) == HasBit(x, i, 1) {
      if HasBit(x, i, 1) {
        var j: nat :| i <= j < i + 1 && Bit(x, j);
        assert j == i;
      }
    }
  }

  /** `y |= y >> w` doubles the window. */
  lemma {:induction false} SmearDouble(x: nat, y: nat, w: nat)
    requires Smeared(x, y, w)
    ensures Smeared(x, Or(y, Shr(y, w)), 2 * w)
  {
    forall i: nat ensures Bit(Or(y, Shr(y, w)), i) == HasBit(x, i, 2 * w) {
      BitOr(y, Shr(y, w), i);
      BitShr(y, w, i);
      assert Bit(y, i) == HasBit(x, i, w);
      assert Bit(y, i + w) == HasBit(x, i + w, w);
      HasBitSplit(x, i, w);
    }
  }

  lemma {:induction false} HasBitSplit(x: nat, i: nat, w: nat)
    ensures HasBit(x, i, 2 * w) <==> HasBit(x, i, w) || HasBit(x, i + w, w)
  {
    if HasBit(x, i, 2 * w) {
      var j: nat :| i <= j < i + 2 * w && Bit(x, j);
      assert i <= j < i + w || i + w <= j < i + w + w;
    }
  }

  /** The number of bits of a positive number. */
  lemma {:induction false} BitLength(x: nat) returns (m: nat)
    requires 0 < x
    ensures 0 < m && Pow2(m - 1) <= x < Pow2(m)
  {
    if x == 1 {
      assert Pow2(1) == 2;
      return 1;
    }
    var k := BitLength(x / 2);
    assert Pow2(k + 1) == 2 * Pow2(k);
    return k + 1;
  }

  /** Smearing over the whole word turns on every bit below the top one. */
  lemma {:induction false} SmearEnd(x: nat, y: nat, m: nat)
    requires Smeared(x, y, 64) && x < WORD
    requires if x == 0 then m == 0 else 0 < m && Pow2(m - 1) <= x < Pow2(m)
    ensures y == Pow2(m) - 1
  {
    WordIsPow2();
    forall i: nat ensures Bit(y, i) == Bit(Pow2(m) - 1, i) {
      OnesBit(m, i);
      if i < m {
        TopBit(x, m);
        if m > 64 {
          Pow2Monotone(64, m - 1);
        }
        assert i <= m - 1 < i + 64;
        assert HasBit(x, i, 64);
      } else {
        forall j: nat | i <= j ensures !Bit(x, j) {
          if x == 0 { BitZero(j); } else { HighBits(x, m, j); }
        }
      }
    }
    SameBits(y, Pow2(m) - 1);
  }

  /**
   `ceilToPow2` on a 64-bit word: the least power of two that is not smaller, or 0 when that does
   not fit (and for 0, where the decrement wraps around).
   */
  method CeilToPow2(size: nat) returns (r: nat)
    requires size < WORD
    ensures 1 <= size <= Pow2(63) ==> IsPow2(r) && size <= r < WORD && forall k: nat :: size <= Pow2(k) ==> r <= Pow2(k)
    ensures size == 0 || Pow2(63) < size ==> r == 0
  {
    hide Or, Shr, Smeared, Pow2, IsPow2;
    var x: nat := (size + WORD - 1) % WORD;
    ghost var x0 := x;
    SmearStart(x0);
    x := Or(x, Shr(x, 1));
    SmearDouble(x0, x0, 1);
    ghost var y := x;
    x := Or(x, Shr(x, 2));
    SmearDouble(x0, y, 2);
    y := x;
    x := Or(x, Shr(x, 4));
    SmearDouble(x0, y, 4);
    var i := 1;
    while i < 8
      invariant i == 1 || i == 2 || i == 4 || i == 8
      invariant Smeared(x0, x, 8 * i)
    {
      SmearDouble(x0, x, 8 * i);
      x := Or(x, Shr(x, 8 * i));
      i := 2 * i;
    }
    Rounded(size, x0, x);
    r := (x + 1) % WORD;
  }

  lemma {:induction false} Rounded(size: nat, x0: nat, x: nat)
    requires size < WORD && x0 == (size + WORD - 1) % WORD && Smeared(x0, x, 64)
    ensures var r := (x + 1) % WORD;
            && (1 <= size <= Pow2(63) ==>
                  IsPow2(r) && size <= r < WORD && forall k: nat :: size <= Pow2(k) ==> r <= Pow2(k))
            && (size == 0 || Pow2(63) < size ==> r == 0)
  {
    hide Pow2, IsPow2, Smeared;
    WordIsPow2();
    Wraps(size);
    var m: nat := 0;
    if x0 > 0 { m := BitLength(x0); }
    SmearEnd(x0, x, m);
    if m < 64 { Pow2Monotone(m, 63); }
    if m > 64 { Pow2Monotone(64, m - 1); }
    if size > 1 {
      LeastPow2(size, m);
    } else if size == 1 {
      LeastOne();
    }
  }

  /** The decrement wraps at zero only. */
  lemma {:induction false} Wraps(size: nat)
    requires size < WORD
    ensures (size + WORD - 1) % WORD == if size == 0 then WORD - 1 else size - 1
  {}

  lemma {:induction false} LeastOne()
    ensures Pow2(0) == 1 && IsPow2(1) && forall k: nat :: 1 <= Pow2(k)
  {
    assert Pow2(0) == 1;
  }

  lemma {:induction false} LeastPow2(size: nat, m: nat)
    requires 0 < m && Pow2(m - 1) < size <= Pow2(m)
    ensures IsPow2(Pow2(m)) && forall k: nat :: size <= Pow2(k) ==> Pow2(m) <= Pow2(k)
  {
    hide Pow2;
    forall k: nat | size <= Pow2(k) ensures Pow2(m) <= Pow2(k) {
      if k < m { Pow2Monotone(k, m - 1); } else { Pow2Monotone(m, k); }
    }
  }

  /** Masking with `2^k - 1` is taking the remainder. */
  lemma {:induction false} MaskIsMod(x: nat, k: nat)
    ensures And(x, Pow2(k) - 1) == x % Pow2(k)
  {
    if k > 0 {
      MaskIsMod(x / 2, k - 1);
      assert (Pow2(k) - 1) / 2 == Pow2(k - 1) - 1;
      ModHalf(x, Pow2(k - 1));
    }
  }

  lemma {:induction false} ModHalf(x: nat, p: nat)
    requires 0 < p
    ensures x % (2 * p) == 2 * ((x / 2) % p) + x % 2
  {
    var q := (x / 2) / p;
    assert x / 2 == q * p + (x / 2) % p;
    assert x == 2 * (x / 2) + x % 2;
    assert x == q * (2 * p) + (2 * ((x / 2) % p) + x % 2);
    ModUnique(x, 2 * p, q, 2 * ((x / 2) % p) + x % 2);
  }

  lemma {:induction false} ModUnique(x: int, d: int, q: int, r: int)
    requires 0 < d && 0 <= r < d && x == q * d + r
    ensures x % d == r
  {
    var e := x / d - q;
    assert x == d * (x / d) + x % d;
    assert d * e == r - x % d;
    MulSign(d, e);
  }

  lemma {:induction false} MulSign(d: int, e: int)
    requires 0 < d
    ensures 0 < e ==> d <= d * e
    ensures e < 0 ==> d * e <= -d
  {}

  /** The queue's index increment: `(i + 1) & sizeMask` wraps at the block size. */
  lemma {:induction false} MaskIsWrap(i: nat, k: nat)
    requires i < Pow2(k)
    ensures And(i + 1, Pow2(k) - 1) == if i + 1 == Pow2(k) then 0 else i + 1
  {
    MaskIsMod(i + 1, k);
    if i + 1 == Pow2(k) { ModUnique(i + 1, Pow2(k), 1, 0); } else { ModUnique(i + 1, Pow2(k), 0, i + 1); }
  }
}
