/**
 * Bitwise arithmetic on unbounded naturals: the `1 << q`, `|`, `&` and
 * "clear these bits" operations the state-vector simulator performs on its
 * `size_t` amplitude indices. Each operation is defined bit by bit, and the
 * lemmas reduce every identity about them to a statement about single bits.
 */
module Bits {

  /** 2^n, i.e. `1 << n`. */
  function Pow2(n: nat): (r: nat)
    ensures r >= 1
  {
    if n == 0 then 1 else 2 * Pow2(n - 1)
  }

  /** Bit j of x (bit 0 is the least significant one). */
  predicate Bit(x: nat, j: nat)
  {
    if j == 0 then x % 2 == 1 else Bit(x / 2, j - 1)
  }

  /** Bitwise or, `a | b`. */
  function Or(a: nat, b: nat): nat
    decreases a + b
  {
    if a == 0 && b == 0 then 0
    else 2 * Or(a / 2, b / 2) + (if a % 2 == 1 || b % 2 == 1 then 1 else 0)
  }

  /** Bitwise and, `a & b`. */
  function And(a: nat, b: nat): nat
    decreases a + b
  {
    if a == 0 || b == 0 then 0
    else 2 * And(a / 2, b / 2) + (if a % 2 == 1 && b % 2 == 1 then 1 else 0)
  }

  /** The bits of a that are not bits of b, `a & ~b`. */
  function AndNot(a: nat, b: nat): nat
    decreases a + b
  {
    if a == 0 then 0
    else 2 * AndNot(a / 2, b / 2) + (if a % 2 == 1 && b % 2 == 0 then 1 else 0)
  }

  lemma {:induction false} BitOr(a: nat, b: nat, j: nat)
    ensures Bit(Or(a, b), j) == (Bit(a, j) || Bit(b, j))
    decreases a + b
  {
    if a == 0 && b == 0 {
      BitZero(j);
    } else if j > 0 {
      BitOr(a / 2, b / 2, j - 1);
    }
  }

  lemma {:induction false} BitAnd(a: nat, b: nat, j: nat)
    ensures Bit(And(a, b), j) == (Bit(a, j) && Bit(b, j))
    decreases a + b
  {
    if a == 0 || b == 0 {
      BitZero(j);
    } else if j > 0 {
      BitAnd(a / 2, b / 2, j - 1);
    }
  }

  lemma {:induction false} BitAndNot(a: nat, b: nat, j: nat)
    ensures Bit(AndNot(a, b), j) == (Bit(a, j) && !Bit(b, j))
    decreases a + b
  {
    if a == 0 {
      BitZero(j);
    } else if j > 0 {
      BitAndNot(a / 2, b / 2, j - 1);
    }
  }

  lemma {:induction false} BitZero(j: nat)
    ensures !Bit(0, j)
  {
    if j > 0 {
      BitZero(j - 1);
    }
  }

  /** Two naturals with the same bits are equal. */
  lemma {:induction false} BitsEqual(a: nat, b: nat)
    requires forall j: nat :: Bit(a, j) == Bit(b, j)
    ensures a == b
    decreases a + b
  {
    if a != b {
      assert Bit(a, 0) == Bit(b, 0);
      forall j: nat
        ensures Bit(a / 2, j) == Bit(b / 2, j)
      {
        assert Bit(a, j + 1) == Bit(b, j + 1);
      }
      BitsEqual(a / 2, b / 2);
    }
  }

  /** `1 << q` has exactly bit q set. */
  lemma {:induction false} BitPow2(q: nat, j: nat)
    ensures Bit(Pow2(q), j) <==> j == q
  {
    if q == 0 {
      if j > 0 {
        BitZero(j - 1);
      }
    } else if j > 0 {
      BitPow2(q - 1, j - 1);
    }
  }

  /** An n-bit number has no bit at position n or above. */
  lemma {:induction false} NoHighBits(x: nat, n: nat, j: nat)
    requires x < Pow2(n) && n <= j
    ensures !Bit(x, j)
  {
    if n == 0 {
      assert x == 0;
      BitZero(j);
    } else {
      assert x / 2 < Pow2(n - 1);
      NoHighBits(x / 2, n - 1, j - 1);
    }
  }

  /** A number of at least 2^n has a bit at position n or above. */
  lemma {:induction false} SomeHighBit(x: nat, n: nat) returns (j: nat)
    requires x >= Pow2(n)
    ensures n <= j && Bit(x, j)
  {
    if x % 2 == 1 && n == 0 {
      j := 0;
    } else {
      var m := if n == 0 then 0 else n - 1;
      assert x / 2 >= Pow2(m);
      var i := SomeHighBit(x / 2, m);
      j := i + 1;
    }
  }

  /** x fits in n bits exactly when it has no bit at position n or above. */
  lemma BelowPow2(x: nat, n: nat)
    ensures x < Pow2(n) ==> forall j: nat :: n <= j ==> !Bit(x, j)
    ensures (forall j: nat :: n <= j ==> !Bit(x, j)) ==> x < Pow2(n)
  {
    if x < Pow2(n) {
      forall j: nat | n <= j ensures !Bit(x, j) {
        NoHighBits(x, n, j);
      }
    } else {
      var w := SomeHighBit(x, n);
    }
  }

  /** Or of two n-bit numbers is an n-bit number. */
  lemma OrBelow(a: nat, b: nat, n: nat)
    requires a < Pow2(n) && b < Pow2(n)
    ensures Or(a, b) < Pow2(n)
  {
    BelowPow2(a, n);
    BelowPow2(b, n);
    forall j: nat | n <= j ensures !Bit(Or(a, b), j) {
      BitOr(a, b, j);
    }
    BelowPow2(Or(a, b), n);
  }

  /** A number whose bits are among those of an n-bit number is an n-bit number. */
  lemma BitsBelow(a: nat, b: nat, n: nat)
    requires b < Pow2(n)
    requires forall j: nat :: Bit(a, j) ==> Bit(b, j)
    ensures a < Pow2(n)
  {
    BelowPow2(b, n);
    forall j: nat | n <= j ensures !Bit(a, j) {
      assert !Bit(b, j);
    }
    BelowPow2(a, n);
  }
}
