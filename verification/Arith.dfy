/** Facts about products, remainders, powers of two and bitwise or that the other modules share. */
module Arith {

  lemma Product(q: nat, k: nat)
    ensures q * k >= 0 && q * (k + 1) == q * k + q
  {}

  lemma NoMultiple(q: nat, e: int)
    requires 0 - q < q * e < q
    ensures e == 0
  {
    assert q * -e == 0 - q * e;
    if e > 0 { Product(q, e - 1); }
    if e < 0 { Product(q, -e - 1); }
  }

  lemma ModUnique(q: nat, k: int, m: int, x: int)
    requires 0 <= m < q && x == q * k + m
    ensures x % q == m && x / q == k
  {
    var j := x / q;
    assert q * (j - k) == q * j - q * k;
    NoMultiple(q, j - k);
  }

  function Pow2(n: nat): (p: nat)
    ensures p > 0
  { if n == 0 then 1 else 2 * Pow2(n - 1) }

  lemma Pow2Eight(k: nat)
    ensures Pow2(k + 8) == 256 * Pow2(k)
  {
    assert Pow2(k + 4) == 16 * Pow2(k) by { assert Pow2(k + 2) == 4 * Pow2(k); assert Pow2(k + 4) == 4 * Pow2(k + 2); }
    assert Pow2(k + 6) == 4 * Pow2(k + 4);
    assert Pow2(k + 8) == 4 * Pow2(k + 6);
  }

  lemma Powers()
    ensures Pow2(12) == 0x1000 && Pow2(56) == 0x100_0000_0000_0000
    ensures Pow2(63) == 0x8000_0000_0000_0000 && Pow2(64) == 0x1_0000_0000_0000_0000
    ensures Pow2(65) == 0x2_0000_0000_0000_0000
  {
    Pow2Eight(0);
    Pow2Eight(8);
    Pow2Eight(16);
    Pow2Eight(24);
    Pow2Eight(32);
    Pow2Eight(40);
    Pow2Eight(48);
    Pow2Eight(56);
  }

  /** Bitwise or. */
  function Or(a: nat, b: nat): nat
    decreases a + b
  {
    if a == 0 then b
    else if b == 0 then a
    else 2 * Or(a / 2, b / 2) + if a % 2 == 1 || b % 2 == 1 then 1 else 0
  }

  /** Numbers without common bits add up. */
  lemma {:induction false} OrApart(a: nat, b: nat, n: nat)
    requires b < Pow2(n)
    ensures Or(a * Pow2(n), b) == a * Pow2(n) + b
  {
    if n == 0 || b == 0 || a * Pow2(n) == 0 {
    } else {
      assert a * Pow2(n) == 2 * (a * Pow2(n - 1));
      OrApart(a, b / 2, n - 1);
    }
  }

  lemma {:induction false} OrBounds(a: nat, b: nat, n: nat)
    requires a < Pow2(n) && b < Pow2(n)
    ensures a <= Or(a, b) < Pow2(n)
  {
    if n == 0 || a == 0 || b == 0 {
    } else {
      OrBounds(a / 2, b / 2, n - 1);
    }
  }

  lemma {:induction false} OrSwap(a: nat, b: nat)
    ensures Or(a, b) == Or(b, a)
    decreases a + b
  {
    if a == 0 || b == 0 {
    } else {
      OrSwap(a / 2, b / 2);
    }
  }

  lemma Divided(c: nat, p: nat) returns (q: nat, m: nat)
    requires p > 0
    ensures q == c / p && m == c % p && c == p * q + m && m < p
  {
    q, m := c / p, c % p;
  }

  lemma Joined(c: nat, p: nat, q: nat, m: nat)
    requires m < p && c == p * q + m
    ensures c % (2 * p) == q % 2 * p + m
  {
    var r, b := q / 2, q % 2;
    assert p * (2 * r + b) == 2 * p * r + p * b;
    assert b * p == if b == 1 then p else 0;
    ModUnique(2 * p, r, b * p + m, c);
  }

  /** The next bit of a number goes before its lower bits. */
  lemma NextBit(c: nat, p: nat)
    requires p > 0
    ensures c % (2 * p) == c / p % 2 * p + c % p
  {
    var q, m := Divided(c, p);
    Joined(c, p, q, m);
  }

  /** Bits above the word do not come back by shifting and adding. */
  lemma DropTop(q: nat, m: nat, b: nat)
    ensures (q % 0x1_0000_0000_0000_0000 * m + b) % 0x1_0000_0000_0000_0000 == (q * m + b) % 0x1_0000_0000_0000_0000
  {
    var w := 0x1_0000_0000_0000_0000;
    var j, x := q / w, q % w * m + b;
    assert q * m + b == w * (j * m + x / w) + x % w by {
      assert q * m == (w * j + q % w) * m;
      assert (w * j + q % w) * m == w * (j * m) + q % w * m;
    }
    ModUnique(w, j * m + x / w, x % w, q * m + b);
  }

  lemma Shrinks(v: nat, base: nat)
    requires base >= 2
    ensures v > 0 ==> v / base < v
    ensures v < base ==> v / base == 0 && v % base == v
  {
    var q, m := Divided(v, base);
    Twice(q, base);
    if v < base { ModUnique(base, 0, v, v); }
  }

  lemma Twice(q: nat, base: nat)
    requires base >= 2
    ensures base * q >= 2 * q
  {
    Product(q, base - 2);
    assert base * q == q * (base - 2) + 2 * q;
  }
}
