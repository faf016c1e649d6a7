/** 64-bit sequence numbers: unsigned subtraction, the signed reading of a
    difference, and the slot a number selects in a power-of-two buffer.

    The protocols elsewhere in the project count in unbounded integers. The
    lemmas here say when the machine words agree with them, across wrap-around
    and from the first number on, which is the word for -1. */
module Words {

  const TWO63: int := 0x8000_0000_0000_0000
  const TWO64: int := 0x1_0000_0000_0000_0000

  type word = x: int | 0 <= x < TWO64

  /** The 64-bit word that stands for an unbounded number. */
  function Wrap(x: int): word { x % TWO64 }

  function AddWords(a: word, b: word): word { Wrap(a + b) }

  function SubWords(a: word, b: word): word { Wrap(a - b) }

  /** Two's complement reading of a word. */
  function Signed(w: word): int { if w < TWO63 then w else w - TWO64 }

  function Difference(a: word, b: word): int { Signed(SubWords(a, b)) }

  predicate Precedes(a: word, b: word) { Difference(a, b) < 0 }

  const INITIAL_SEQUENCE: word := TWO64 - 1

  lemma InitialSequenceIsMinusOne()
    ensures INITIAL_SEQUENCE == Wrap(-1)
    ensures AddWords(INITIAL_SEQUENCE, 1) == 0
    ensures Precedes(INITIAL_SEQUENCE, 0)
  {
  }

  /** Word arithmetic commutes with wrapping. */
  lemma WrapIsHomomorphic(a: int, b: int)
    ensures AddWords(Wrap(a), Wrap(b)) == Wrap(a + b)
    ensures SubWords(Wrap(a), Wrap(b)) == Wrap(a - b)
  {
    var qa, qb := a / TWO64, b / TWO64;
    WrapShift(Wrap(a) + Wrap(b), qa + qb);
    WrapShift(Wrap(a) - Wrap(b), qa - qb);
  }

  lemma WrapSmall(x: int)
    requires 0 <= x < TWO64
    ensures Wrap(x) == x
  {
  }

  lemma WrapShift(x: int, q: int)
    ensures Wrap(x + TWO64 * q) == Wrap(x)
  {
    ModIs(x + TWO64 * q, TWO64, x / TWO64 + q, x % TWO64);
  }

  /** The signed difference of two words is the true difference exactly when
      that difference fits a signed 64-bit number. */
  lemma DifferenceRefines(a: int, b: int)
    ensures Difference(Wrap(a), Wrap(b)) == a - b <==> -TWO63 <= a - b < TWO63
  {
    WrapIsHomomorphic(a, b);
    SignedRefines(a - b);
  }

  lemma SignedRefines(d: int)
    ensures Signed(Wrap(d)) == d <==> -TWO63 <= d < TWO63
  {
    var q := d / TWO64;
    assert d == TWO64 * q + Wrap(d);
  }

  lemma PrecedesRefines(a: int, b: int)
    requires -TWO63 <= a - b < TWO63
    ensures Precedes(Wrap(a), Wrap(b)) <==> a < b
    ensures Wrap(a) == Wrap(b) <==> a == b
  {
    DifferenceRefines(a, b);
  }

  /** Without the distance bound `Precedes` is not an order on the counted
      numbers: a number 2^63 ahead looks as if it came before. */
  lemma PrecedesFailsFarAhead(b: int)
    ensures Precedes(Wrap(b + TWO63), Wrap(b))
    ensures b < b + TWO63
  {
    WrapIsHomomorphic(b + TWO63, b);
  }

  // ---------- slots of a power-of-two buffer ----------

  function Pow2(k: nat): (p: nat)
    ensures p > 0
  {
    if k == 0 then 1 else 2 * Pow2(k - 1)
  }

  /** Bitwise conjunction of two naturals, bit by bit. */
  function BitAnd(x: nat, y: nat): nat
    decreases x
  {
    if x == 0 then 0 else 2 * BitAnd(x / 2, y / 2) + if x % 2 == 1 && y % 2 == 1 then 1 else 0
  }

  lemma {:induction false} MaskIsModulo(x: nat, k: nat)
    ensures BitAnd(x, Pow2(k) - 1) == x % Pow2(k)
    decreases k
  {
    if k == 0 {
      AndWithZero(x);
    } else if x == 0 {
      ModIs(0, Pow2(k), 0, 0);
    } else {
      var p := Pow2(k - 1);
      MaskIsModulo(x / 2, k - 1);
      MaskDoubles(x, p, 2 * p - 1, (x / 2) % p);
    }
  }

  lemma LastBit(x: nat, m: nat)
    requires x > 0
    ensures BitAnd(x, m) == 2 * BitAnd(x / 2, m / 2) + if x % 2 == 1 && m % 2 == 1 then 1 else 0
  {
  }

  lemma MaskDoubles(x: nat, p: nat, m: nat, r: nat)
    requires x > 0 && p > 0 && m == 2 * p - 1 && r == (x / 2) % p && BitAnd(x / 2, p - 1) == r
    ensures BitAnd(x, m) == x % (2 * p)
  {
    HalfMask(p);
    LastBit(x, m);
    ModOfDouble(x, p);
  }

  lemma HalfMask(p: nat)
    requires p > 0
    ensures (2 * p - 1) / 2 == p - 1 && (2 * p - 1) % 2 == 1
  {
  }

  lemma ModOfDouble(x: nat, p: nat)
    requires p > 0
    ensures x % (2 * p) == 2 * ((x / 2) % p) + x % 2
  {
    var q, r := (x / 2) / p, (x / 2) % p;
    var h := p * q;
    assert x / 2 == h + r;
    assert (2 * p) * q == 2 * h;
    ModIs(x, 2 * p, q, 2 * r + x % 2);
  }

  lemma AndWithZero(x: nat)
    ensures BitAnd(x, 0) == 0
  {
  }

  lemma ModIs(x: int, n: int, q: int, r: int)
    requires n > 0 && x == n * q + r && 0 <= r < n
    ensures x % n == r && x / n == q
  {
    var d := q - x / n;
    assert n * d == x % n - r by {
      assert n * d == n * q - n * (x / n);
    }
    MultipleIsFar(n, d);
  }

  lemma {:induction false} MultipleIsFar(n: int, d: int)
    requires n > 0
    ensures d > 0 ==> n * d >= n
    ensures d < 0 ==> n * d <= -n
    decreases if d < 0 then -d else d
  {
    if d > 1 {
      MultipleIsFar(n, d - 1);
      assert n * d == n * (d - 1) + n;
    } else if d < -1 {
      MultipleIsFar(n, d + 1);
      assert n * d == n * (d + 1) - n;
    }
  }

  lemma Pow2Sum(a: nat, b: nat)
    ensures Pow2(a + b) == Pow2(a) * Pow2(b)
  {
    if a > 0 {
      Pow2Sum(a - 1, b);
      assert 2 * (Pow2(a - 1) * Pow2(b)) == Pow2(a) * Pow2(b);
    }
  }

  lemma Pow2Of64()
    ensures Pow2(64) == TWO64
  {
    assert Pow2(8) == 256;
    Pow2Sum(8, 8);
    Pow2Sum(16, 16);
    Pow2Sum(32, 32);
  }

  lemma ModOfMod(x: int, n: int, m: int)
    requires n > 0 && m > 0 && n * m > 0
    ensures (x % (n * m)) % n == x % n
  {
    var q, r := x / (n * m), x % (n * m);
    var q', r' := r / n, r % n;
    assert x == n * (m * q + q') + r' by {
      assert x == (n * m) * q + r;
      assert (n * m) * q == n * (m * q);
      assert n * (m * q + q') == n * (m * q) + n * q';
    }
    ModIs(x, n, m * q + q', r');
  }

  /** Masking the word of any number, negative or far beyond 2^64, selects the
      slot the unbounded number selects. */
  lemma SlotRefines(s: int, k: nat)
    requires k <= 64
    ensures BitAnd(Wrap(s), Pow2(k) - 1) == s % Pow2(k)
  {
    MaskIsModulo(Wrap(s), k);
    Pow2Sum(k, 64 - k);
    Pow2Of64();
    ModOfMod(s, Pow2(k), Pow2(64 - k));
  }

  /** Two numbers of one window of `n` share a slot only if they are equal. */
  lemma WindowSlotsDistinct(n: int, x: int, y: int)
    requires n > 0 && -n < x - y < n
    ensures x % n == y % n <==> x == y
  {
    if x % n == y % n {
      var d := x / n - y / n;
      assert n * d == x - y by {
        assert n * d == n * (x / n) - n * (y / n);
      }
      MultipleIsFar(n, d);
    }
  }

  /** Numbers one or several whole buffers apart share a slot. */
  lemma SlotPeriod(n: int, x: int, q: int)
    requires n > 0
    ensures (x + n * q) % n == x % n
  {
    assert x + n * q == n * (x / n + q) + x % n by {
      assert n * (x / n + q) == n * (x / n) + n * q;
    }
    ModIs(x + n * q, n, x / n + q, x % n);
  }

  /** Every window of `n` numbers has one that shares the slot of `x`. */
  lemma WindowRepresentative(n: int, base: int, x: int) returns (y: int)
    requires n > 0
    ensures base <= y < base + n && y % n == x % n
  {
    y := base + (x - base) % n;
    SlotPeriod(n, y, (x - base) / n);
  }
}
