/** 32-bit words: what the arithmetic of the engine comes to, on bits, quotients and remainders. */
module Words {
  import opened Arith

  // ----- two's complement -----

  /** Bit k of the two's complement form of x, without end on the left. */
  predicate BitAt(x: int, k: nat)
    decreases k
  {
    if k == 0 then x % 2 == 1 else BitAt(x / 2, k - 1)
  }

  /** x and y have the same low 32 bits. */
  predicate SameWord(x: int, y: int) { (x - y) % TWO32 == 0 }

  lemma WrapIsSameWord(x: int)
    ensures SameWord(Wrap(x), x) && IsInt32(Wrap(x))
  {}

  lemma OneWord(x: int, y: int)
    requires IsInt32(x) && IsInt32(y) && SameWord(x, y)
    ensures x == y
  {}

  lemma SameWordTrans(x: int, y: int, z: int)
    requires SameWord(x, y) && SameWord(z, y)
    ensures SameWord(x, z)
  {
    assert x - z == (x - y) - (z - y);
  }

  /** Pow2 is what a bit is worth. */
  lemma {:induction false} BitIsDigit(x: int, k: nat)
    ensures BitAt(x, k) <==> x / Pow2(k) % 2 == 1
    decreases k
  {
    if k > 0 {
      BitIsDigit(x / 2, k - 1);
      HalfFirst(x, k - 1);
    }
  }

  lemma HalfFirst(x: int, k: nat)
    ensures x / 2 / Pow2(k) == x / Pow2(k + 1)
  {
    var p, h := Pow2(k), x / 2;
    var q, r := h / p, h % p;
    assert x == 2 * (p * q + r) + x % 2;
    assert 2 * (p * q) == Pow2(k + 1) * q by { assert Pow2(k + 1) == 2 * p; }
    QuotientIs(x, Pow2(k + 1), q, 2 * r + x % 2);
  }

  lemma QuotientIs(x: int, d: int, q: int, r: int)
    requires x == d * q + r && 0 <= r < d
    ensures x / d == q
  {
    var e := x / d - q;
    assert d * e == r - x % d;
    ProductGrows(d, e);
  }

  lemma ProductGrows(d: int, e: int)
    requires d > 0
    ensures (e >= 1 ==> d * e >= d && d * e >= e) && (e <= -1 ==> d * e <= -d && d * e <= e)
  {
    if e >= 1 {
      assert d * e >= d * 1 && d * e >= 1 * e;
    } else if e <= -1 {
      assert d * e <= d * -1 && d * e <= 1 * e;
    }
  }

  /** Shifting right by n puts bit k + n at k. */
  lemma {:induction false} BitsDown(x: int, n: nat, k: nat)
    ensures BitAt(x / Pow2(n), k) <==> BitAt(x, k + n)
    decreases n
  {
    if n > 0 {
      HalfFirst(x, n - 1);
      BitsDown(x / 2, n - 1, k);
    } else {
      assert x / 1 == x;
    }
  }

  /** Shifting left by n puts bit k at k + n, and 0 below. */
  lemma {:induction false} BitsUp(x: int, n: nat, k: nat)
    ensures BitAt(x * Pow2(n), k) <==> k >= n && BitAt(x, k - n)
  {
    if n > 0 {
      var y := x * Pow2(n - 1);
      assert x * Pow2(n) == 2 * y;
      if k > 0 {
        assert 2 * y / 2 == y;
        BitsUp(x, n - 1, k - 1);
      }
    }
  }

  /** The low n bits are all that matters to them. */
  lemma {:induction false} BitsOfWord(x: int, y: int, n: nat, k: nat)
    requires k < n && (x - y) % Pow2(n) == 0
    ensures BitAt(x, k) == BitAt(y, k)
    decreases k
  {
    var q := (x - y) / Pow2(n);
    var half := Pow2(n - 1) * q;
    assert x == y + 2 * half;
    if k > 0 {
      assert x / 2 == y / 2 + half;
      MultipleMod(Pow2(n - 1), q);
      BitsOfWord(x / 2, y / 2, n - 1, k - 1);
    }
  }

  lemma MultipleMod(d: nat, q: int)
    requires d > 0
    ensures d * q % d == 0
  {
    var e := d * q % d;
    assert d * (q - d * q / d) == e;
    QuotientIs(d * q, d, q, 0);
  }

  lemma WordBits(x: int, y: int, k: nat)
    requires SameWord(x, y) && k < 32
    ensures BitAt(x, k) == BitAt(y, k)
  {
    assert Pow2(32) == TWO32 by { Pow32(); }
    BitsOfWord(x, y, 32, k);
  }

  lemma Pow32()
    ensures Pow2(32) == TWO32
  {
    assert Pow2(4) == 16;
    assert Pow2(8) == 256;
    assert Pow2(12) == 4096;
    assert Pow2(16) == 65536;
    assert Pow2(20) == 16 * 65536;
    assert Pow2(24) == 256 * 65536;
    assert Pow2(28) == 4096 * 65536;
  }

  /** The bits of the combination are the combinations of the bits. */
  lemma {:induction false} BitsCombine(f: BitFun, a: nat, b: nat, n: nat, k: nat)
    requires k < n
    ensures BitAt(Bits(f, a, b, n), k) == OnBits(f, BitAt(a, k), BitAt(b, k))
    decreases n
  {
    var rest := Bits(f, a / 2, b / 2, n - 1);
    assert Bits(f, a, b, n) / 2 == rest;
    if k > 0 {
      BitsCombine(f, a / 2, b / 2, n - 1, k - 1);
    }
  }

  lemma BitwiseBits(f: BitFun, a: int, b: int, k: nat)
    requires k < 32
    ensures BitAt(Bitwise(f, a, b), k) == OnBits(f, BitAt(a, k), BitAt(b, k))
  {
    hide Bits, BitAt, Pow2, Wrap;
    var x := Bits(f, a % TWO32, b % TWO32, 32);
    WrapIsSameWord(x);
    WordBits(Wrap(x), x, k);
    BitsCombine(f, a % TWO32, b % TWO32, 32, k);
    WordBits(a % TWO32, a, k);
    WordBits(b % TWO32, b, k);
  }

  // ----- division -----

  /** q and r are the quotient and remainder of C: the quotient cut off toward zero, the remainder with the sign of the
      dividend (section 5.6 of ISO/IEC 14882:1998 leaves that sign to the implementation; on this machine it is so). */
  predicate Truncates(a: int, b: int, q: int, r: int) {
    a == b * q + r && Size(r) < Size(b) && (r != 0 ==> (r < 0 <==> a < 0))
  }

  function Size(x: int): nat { if x < 0 then -x else x }

  lemma TruncDivTruncates(a: int, b: int)
    requires b != 0
    ensures Truncates(a, b, TruncDiv(a, b), a - b * TruncDiv(a, b))
  {
    var m, n := Size(a), Size(b);
    var q: int := m / n;
    assert m == n * q + m % n;
    if (a < 0) == (b < 0) {
      assert b * q == if b < 0 then -(n * q) else n * q;
    } else {
      assert b * (-q) == if b < 0 then n * q else -(n * q);
    }
  }

  /** There is one such pair. */
  lemma TruncatesOnce(a: int, b: int, q: int, r: int, q': int, r': int)
    requires b != 0 && Truncates(a, b, q, r) && Truncates(a, b, q', r')
    ensures q == q' && r == r'
  {
    assert b * (q - q') == r' - r;
    assert Size(r' - r) < Size(b) by {
      assert r == 0 || r' == 0 || (r < 0 <==> r' < 0);
    }
    if q != q' {
      SizeOfProduct(b, q - q');
    }
  }

  lemma SizeOfProduct(b: int, d: int)
    requires d != 0
    ensures Size(b * d) >= Size(b)
  {
    if b > 0 {
      ProductGrows(b, d);
    } else if b < 0 {
      ProductGrows(-b, -d);
    }
  }

  /** Division traps exactly when there is no quotient, or none of 32 bits. */
  lemma TrapsExactly(a: int, b: int)
    requires IsInt32(a) && IsInt32(b)
    ensures DivideError(a, b) <==> !exists q, r :: Truncates(a, b, q, r) && IsInt32(q)
  {
    if b != 0 {
      var q := TruncDiv(a, b);
      TruncDivTruncates(a, b);
      QuotientFits(a, b);
      if exists q', r' :: Truncates(a, b, q', r') && IsInt32(q') {
        var q', r' :| Truncates(a, b, q', r') && IsInt32(q');
        TruncatesOnce(a, b, q, a - b * q, q', r');
      }
    }
  }

  lemma QuotientFits(a: int, b: int)
    requires IsInt32(a) && IsInt32(b) && b != 0
    ensures IsInt32(TruncDiv(a, b)) <==> !(a == -TWO31 && b == -1)
  {
    var m, n := Size(a), Size(b);
    QuotientSmall(m, n);
  }

  lemma QuotientSmall(m: nat, n: nat)
    requires n > 0
    ensures 0 <= m / n <= m && (n >= 2 ==> 2 * (m / n) <= m) && (n == 1 ==> m / n == m)
  {
    var q := m / n;
    assert m == n * q + m % n;
    ProductGrows(n, q);
    if n >= 2 {
      ProductGrows(n - 1, q);
      assert n * q == (n - 1) * q + q;
    }
  }

  /** Words with the same 32 bits are the same. */
  lemma {:induction false} BitsDecide(x: int, y: int, n: nat)
    requires forall k: nat :: k < n ==> BitAt(x, k) == BitAt(y, k)
    ensures (x - y) % Pow2(n) == 0
    decreases n
  {
    if n == 0 {
      assert Pow2(0) == 1;
    } else {
      assert BitAt(x, 0) == BitAt(y, 0);
      forall k: nat | k < n - 1
        ensures BitAt(x / 2, k) == BitAt(y / 2, k)
      {
        assert BitAt(x, k + 1) == BitAt(y, k + 1);
      }
      BitsDecide(x / 2, y / 2, n - 1);
        var q := (x / 2 - y / 2) / Pow2(n - 1);
      assert x - y == 2 * (x / 2 - y / 2);
      assert x - y == Pow2(n) * q by { assert x / 2 - y / 2 == Pow2(n - 1) * q; }
      MultipleMod(Pow2(n), q);
    }
  }

  lemma WordsDecide(x: int, y: int)
    requires IsInt32(x) && IsInt32(y) && forall k: nat :: k < 32 ==> BitAt(x, k) == BitAt(y, k)
    ensures x == y
  {
    BitsDecide(x, y, 32);
    Pow32();
    OneWord(x, y);
  }

  lemma DownFits(a: int, n: nat)
    requires IsInt32(a)
    ensures IsInt32(a / Pow2(n))
  {
    var p := Pow2(n);
    var q := a / p;
    assert a == p * q + a % p && p * (q + 1) == p * q + p;
    ProductGrows(p, q);
    ProductGrows(p, q + 1);
  }
}
