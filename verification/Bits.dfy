/** Arithmetic on unsigned words: powers of two, $clog2, and the bitwise operators on naturals. */
module Bits {

  function Pow2(n: nat): (r: nat)
    ensures r >= 1
  {
    if n == 0 then 1 else 2 * Pow2(n - 1)
  }

  lemma {:induction false} Pow2Add(m: nat, n: nat)
    ensures Pow2(m + n) == Pow2(m) * Pow2(n)
  {
    if m == 0 {
    } else {
      Pow2Add(m - 1, n);
      assert Pow2(m + n) == 2 * Pow2(m - 1 + n);
    }
  }

  lemma {:induction false} Pow2Monotone(m: nat, n: nat)
    requires m <= n
    ensures Pow2(m) <= Pow2(n)
  {
    if m == n {
    } else {
      Pow2Monotone(m, n - 1);
    }
  }

  /** The system function $clog2. */
  function Clog2(n: nat): nat {
    if n <= 1 then 0 else 1 + Clog2((n + 1) / 2)
  }

  /** Clog2(n) is the least exponent whose power of two reaches n. */
  lemma {:induction false} Clog2IsLeast(n: nat)
    ensures n <= Pow2(Clog2(n))
    ensures n > 1 ==> Clog2(n) > 0 && Pow2(Clog2(n) - 1) < n
  {
    if n <= 1 {
    } else {
      Clog2IsLeast((n + 1) / 2);
    }
  }

  lemma {:induction false} Clog2OfPow2(k: nat)
    ensures Clog2(Pow2(k)) == k
  {
    if k == 0 {
    } else {
      Clog2OfPow2(k - 1);
    }
  }

  function Xor(x: nat, y: nat): nat
    decreases x + y
  {
    if x == 0 && y == 0 then 0
    else (x % 2 + y % 2) % 2 + 2 * Xor(x / 2, y / 2)
  }

  lemma {:induction false} XorBound(k: nat, x: nat, y: nat)
    requires x < Pow2(k) && y < Pow2(k)
    ensures Xor(x, y) < Pow2(k)
  {
    if k == 0 || x + y == 0 {
    } else {
      XorBound(k - 1, x / 2, y / 2);
    }
  }

  lemma {:induction false} XorCommutes(x: nat, y: nat)
    ensures Xor(x, y) == Xor(y, x)
    decreases x + y
  {
    if x + y == 0 {
    } else {
      XorCommutes(x / 2, y / 2);
    }
  }

  lemma {:induction false} XorAssociates(x: nat, y: nat, z: nat)
    ensures Xor(Xor(x, y), z) == Xor(x, Xor(y, z))
    decreases x + y + z
  {
    if x + y + z == 0 {
    } else {
      XorAssociates(x / 2, y / 2, z / 2);
      LeftDigits(x, y, z);
      LeftDigits(y, z, x);
      XorCommutes(x, Xor(y, z));
      XorCommutes(x / 2, Xor(y / 2, z / 2));
    }
  }

  lemma LeftDigits(x: nat, y: nat, z: nat)
    ensures Xor(Xor(x, y), z) % 2 == (x % 2 + y % 2 + z % 2) % 2
    ensures Xor(Xor(x, y), z) / 2 == Xor(Xor(x / 2, y / 2), z / 2)
  {
    hide Xor;
    XorDigits(x, y);
    XorDigits(Xor(x, y), z);
    Parity(x % 2, y % 2, z % 2);
  }

  lemma Parity(p: nat, q: nat, r: nat)
    requires p < 2 && q < 2 && r < 2
    ensures ((p + q) % 2 + r) % 2 == (p + q + r) % 2
  {
    if p == 0 {} else if q == 0 {} else {}
  }

  lemma {:induction false} XorInjective(x: nat, y: nat, z: nat)
    requires Xor(x, y) == Xor(x, z)
    ensures y == z
    decreases x + y + z
  {
    if x + y + z == 0 {
    } else {
      XorDigits(x, y);
      XorDigits(x, z);
      XorInjective(x / 2, y / 2, z / 2);
    }
  }

  lemma XorDigits(x: nat, y: nat)
    ensures Xor(x, y) % 2 == (x % 2 + y % 2) % 2
    ensures Xor(x, y) / 2 == Xor(x / 2, y / 2)
  {}

  function Or(x: nat, y: nat): nat
    decreases x + y
  {
    if x == 0 && y == 0 then 0
    else (if x % 2 == 1 || y % 2 == 1 then 1 else 0) + 2 * Or(x / 2, y / 2)
  }

  function Shl(x: nat, k: nat): nat {
    x * Pow2(k)
  }

  /** Or-ing a shifted field onto bits below it is addition. */
  lemma {:induction false} OrDisjoint(k: nat, x: nat, y: nat)
    requires y < Pow2(k)
    ensures Or(Shl(x, k), y) == Shl(x, k) + y
  {
    if k == 0 {
      OrZero(x);
    } else {
      var half := x * Pow2(k - 1);
      assert Shl(x, k) == 2 * half;
      OrDisjoint(k - 1, x, y / 2);
    }
  }

  lemma {:induction false} OrZero(x: nat)
    ensures Or(x, 0) == x
  {
    if x == 0 {
    } else {
      OrZero(x / 2);
    }
  }

  /** Bit k of x. */
  predicate Bit(x: nat, k: nat) {
    if k == 0 then x % 2 == 1 else Bit(x / 2, k - 1)
  }

  lemma {:induction false} BitOr(x: nat, y: nat, k: nat)
    ensures Bit(Or(x, y), k) == (Bit(x, k) || Bit(y, k))
  {
    if x == 0 && y == 0 {
    } else if k > 0 {
      assert Or(x, y) / 2 == Or(x / 2, y / 2);
      BitOr(x / 2, y / 2, k - 1);
    }
  }

  lemma {:induction false} BitXor(x: nat, y: nat, k: nat)
    ensures Bit(Xor(x, y), k) == (Bit(x, k) != Bit(y, k))
  {
    XorDigits(x, y);
    if k > 0 { BitXor(x / 2, y / 2, k - 1); }
  }

  /** Bits above a field of n bits. */
  lemma {:induction false} BitShift(x: nat, q: nat, r: nat, n: nat, k: nat)
    requires r < Pow2(n) && x == Pow2(n) * q + r
    ensures Bit(x, n + k) == Bit(q, k)
  {
    if n == 0 {
    } else {
      var h := Pow2(n - 1) * q;
      assert x == 2 * h + r;
      BitShift(x / 2, q, r / 2, n - 1, k);
    }
  }

  lemma {:induction false} BitPow2(c: nat, k: nat)
    ensures Bit(Pow2(c), k) == (c == k)
  {
    if k > 0 && c > 0 {
      assert Pow2(c) / 2 == Pow2(c - 1);
      BitPow2(c - 1, k - 1);
    } else if c == 0 && k > 0 {
      assert Pow2(0) / 2 == 0;
      BitOfZero(k - 1);
    }
  }

  lemma {:induction false} BitOfZero(k: nat)
    ensures !Bit(0, k)
  {
    if k == 0 {
    } else {
      BitOfZero(k - 1);
    }
  }

  /** Truncating to n bits keeps the bits below n and clears the others. */
  lemma {:induction false} BitTruncate(x: nat, n: nat, k: nat)
    ensures Bit(x % Pow2(n), k) == (k < n && Bit(x, k))
  {
    if n == 0 {
      assert x % 1 == 0;
      BitOfZero(k);
    } else {
      var h := Pow2(n - 1);
      ModHalf(x, h);
      if k > 0 { BitTruncate(x / 2, n - 1, k - 1); }
    }
  }

  lemma ModHalf(x: nat, h: nat)
    requires h > 0
    ensures (x % (2 * h)) % 2 == x % 2 && (x % (2 * h)) / 2 == (x / 2) % h
  {
    var q, r := (x / 2) / h, (x / 2) % h;
    assert x / 2 == h * q + r;
    assert x == 2 * (h * q + r) + x % 2;
    var y := 2 * r + x % 2;
    assert x == (2 * h) * q + y by { assert 2 * (h * q) == (2 * h) * q; }
    ModUnique(x, 2 * h, q, y);
  }

  lemma ModUnique(x: int, d: int, q: int, r: int)
    requires 0 <= r < d && x == d * q + r
    ensures x % d == r && x / d == q
  {
    MultipleInRange(d, x / d - q, r - x % d);
  }

  lemma MultipleInRange(d: int, k: int, r: int)
    requires d > 0 && d * k == r && -d < r < d
    ensures k == 0
  {
    if k > 0 { MulAtLeast(d, k); }
    if k < 0 { MulAtLeast(d, -k); }
  }

  lemma MulAtLeast(d: int, k: int)
    requires d > 0 && k >= 1
    ensures d * k >= d
  {}

  lemma ModStep(x: nat, b: nat)
    requires b > 0
    ensures (x + 1) % b == if x % b + 1 == b then 0 else x % b + 1
    ensures (x + b) % b == x % b
  {
    var q, r := x / b, x % b;
    MulStep(b, q);
    if r + 1 == b { ModUnique(x + 1, b, q + 1, 0); } else { ModUnique(x + 1, b, q, r + 1); }
    ModUnique(x + b, b, q + 1, r);
  }

  lemma MulStep(d: int, q: int)
    ensures d * (q + 1) == d * q + d
  {}

  /** Every residue is reached from h within one period. */
  lemma ModReach(h: nat, b: nat, i: nat) returns (p: nat)
    requires i < b
    ensures p < b && (h + p) % b == i
  {
    var q, r := h / b, h % b;
    MulStep(b, q);
    if r <= i {
      p := i - r;
      ModUnique(h + p, b, q, i);
    } else {
      p := i + b - r;
      ModUnique(h + p, b, q + 1, i);
    }
  }

  /** Truncation splits into an upper field and the bits below it. */
  lemma ModSplit(w: nat, a: nat, b: nat)
    requires a > 0 && b > 0
    ensures a * b > 0 && w % (a * b) == (w / a % b) * a + w % a
  {
    var q, r, l := w / a / b, w / a % b, w % a;
    assert w / a == b * q + r;
    Distribute(a, b, q, r);
    MulAtMost(a, r, b - 1);
    MulAtLeast(a, b);
    ModUnique(w, a * b, q, r * a + l);
  }

  lemma Distribute(a: int, b: int, q: int, r: int)
    ensures a * (b * q + r) == (a * b) * q + r * a
  {}

  lemma MulAtMost(a: nat, r: nat, k: nat)
    requires r <= k
    ensures r * a + a <= a * (k + 1)
  {}

  /** Or-ing the next lower field of k bits onto a word above it. */
  lemma OrField(k: nat, j: nat, hi: nat, x: nat)
    requires x < Pow2(k)
    ensures Or(Shl(hi, k + j), Shl(x, j)) == Shl(hi * Pow2(k) + x, j)
  {
    Pow2Add(k, j);
    ShlBelow(x, Pow2(k), Pow2(j));
    OrDisjoint(k + j, hi, Shl(x, j));
    FieldSum(hi, x, Pow2(k), Pow2(j));
  }

  lemma FieldSum(hi: nat, x: nat, a: nat, b: nat)
    ensures hi * (a * b) + x * b == (hi * a + x) * b
  {
    assert hi * (a * b) == (hi * a) * b;
  }

  lemma ShlBelow(x: nat, a: nat, b: nat)
    requires x < a && b > 0
    ensures x * b < a * b
  {}

  /** The next address below b, as an address register that wraps. */
  function Inc(b: nat, i: nat): nat {
    if i + 1 == b then 0 else i + 1
  }
}
