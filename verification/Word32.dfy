/** Unsigned 32-bit arithmetic: every operation wraps modulo 2^32, as the kernel's `unsigned` does. */
module Word32 {
  const W: int := 0x1_0000_0000

  type Word = x: int | 0 <= x < 0x1_0000_0000

  type Byte = x: int | 0 <= x < 256

  function Add(a: Word, b: Word): Word {
    if a + b < W then a + b else a + b - W
  }

  function Sub(a: Word, b: Word): Word {
    if b <= a then a - b else a - b + W
  }

  /** Product, by repeated wrapping addition; `MulIsProduct` gives the closed form. */
  function Mul(a: Word, b: Word): Word
    decreases b
  {
    if b == 0 then 0 else Add(Mul(a, b - 1), a)
  }

  /** Quotient, by repeated subtraction; `DivIsQuotient` gives the closed form. */
  function Div(a: Word, b: Word): Word
    requires b > 0
    decreases a
  {
    if a < b then 0 else Increment(Div(a - b, b), a)
  }

  // One more than `q`, which is below `bound` whenever `q` is a quotient of something smaller.
  function Increment(q: Word, bound: Word): Word {
    if q < bound then q + 1 else bound
  }

  lemma ModAdd(x: int, a: Word)
    requires x >= 0
    ensures (x + a) % W == Add(x % W, a)
  {
    var q, r := x / W, x % W;
    assert x == q * W + r;
    if r + a < W {
      assert (x + a) / W == q;
    } else {
      assert (x + a) / W == q + 1;
    }
  }

  lemma {:induction false} MulIsProduct(a: Word, b: Word)
    ensures Mul(a, b) == (a * b) % W
    decreases b
  {
    if b != 0 {
      MulIsProduct(a, b - 1);
      assert a * b == a * (b - 1) + a;
      assert a * (b - 1) >= 0;
      ModAdd(a * (b - 1), a);
    }
  }

  lemma {:induction false} ProductGrows(b: nat, d: nat)
    requires d >= 1
    ensures b * d >= b
  {
    if d > 1 {
      ProductGrows(b, d - 1);
      assert b * d == b * (d - 1) + b;
    }
  }

  lemma NonNegative(a: nat, b: nat)
    ensures a * b >= 0
  {
  }

  lemma Distribute(b: int, x: int, y: int)
    ensures b * (x - y) == b * x - b * y
  {
  }

  lemma DivisionUnique(b: int, k: int, r: int, k': int, r': int)
    requires b > 0 && b * k + r == b * k' + r' && 0 <= r < b && 0 <= r' < b
    ensures k == k' && r == r'
  {
    if k > k' {
      ProductGrows(b, k - k');
      Distribute(b, k, k');
    } else if k < k' {
      ProductGrows(b, k' - k);
      Distribute(b, k', k);
    }
  }

  /** Division by a positive number is determined by its defining equation. */
  lemma QuotientUnique(a: int, b: int, k: int, r: int)
    requires b > 0 && a == b * k + r && 0 <= r < b
    ensures a / b == k && a % b == r
  {
    DivisionUnique(b, k, r, a / b, a % b);
  }

  lemma {:induction false} DivIsQuotient(a: Word, b: Word)
    requires b > 0
    ensures Div(a, b) == a / b && Div(a, b) <= a
    decreases a
  {
    if a < b {
      QuotientUnique(a, b, 0, a);
    } else {
      DivIsQuotient(a - b, b);
      QuotientUnique(a, b, Div(a - b, b) + 1, (a - b) % b);
    }
  }

  function Min(a: int, b: int): int {
    if a < b then a else b
  }
}
