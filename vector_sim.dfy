/**
 * The dense state-vector simulator of vector_sim.cc: a buffer of 2^n
 * amplitudes, a gate applied to chosen qubits by gathering each group of
 * amplitudes that differ only in the target bits, multiplying the group by the
 * gate's matrix and scattering the results back in place, and a Pauli string
 * applied as a sign flip followed by one X, Y or Z per qubit.
 *
 * Amplitudes are exact: the real and imaginary parts are numbers a + b*sqrt(2)
 * with rational a and b, which is enough to write every entry of the gate table
 * exactly (its 0.7071... constant is 1/sqrt(2)).
 */
module VectorSimulator {
  import opened Bits
  import opened Wrappers

  /** a + b*sqrt(2). */
  datatype Surd = Surd(a: real, b: real)

  function SAdd(x: Surd, y: Surd): Surd { Surd(x.a + y.a, x.b + y.b) }
  function SNeg(x: Surd): Surd { Surd(-x.a, -x.b) }
  function SMul(x: Surd, y: Surd): Surd
  {
    Surd(x.a * y.a + 2.0 * x.b * y.b, x.a * y.b + x.b * y.a)
  }

  datatype Complex = Complex(re: Surd, im: Surd)

  const SZero := Surd(0.0, 0.0)
  const Zero := Complex(SZero, SZero)
  const One := Complex(Surd(1.0, 0.0), SZero)

  function Add(x: Complex, y: Complex): Complex
  {
    Complex(SAdd(x.re, y.re), SAdd(x.im, y.im))
  }

  function Neg(x: Complex): Complex
  {
    Complex(SNeg(x.re), SNeg(x.im))
  }

  function Mul(x: Complex, y: Complex): Complex
  {
    Complex(SAdd(SMul(x.re, y.re), SNeg(SMul(x.im, y.im))),
            SAdd(SMul(x.re, y.im), SMul(x.im, y.re)))
  }

  /** A square gate matrix, row by row. */
  type Matrix = seq<seq<Complex>>

  // ---------------------------------------------------------------------------
  // mat_vec_mul
  // ---------------------------------------------------------------------------

  /** sum over col < n of row[col] * v[col], accumulated left to right from 0. */
  function Dot(row: seq<Complex>, v: seq<Complex>, n: nat): Complex
    requires n <= |row| && n <= |v|
  {
    if n == 0 then Zero else Add(Dot(row, v, n - 1), Mul(row[n - 1], v[n - 1]))
  }

  /** The rows mat_vec_mul reads exist and are long enough. */
  predicate FitsVector(matrix: Matrix, size: nat)
  {
    size <= |matrix| && forall row :: 0 <= row < size ==> size <= |matrix[row]|
  }

  /** The matrix-vector product: one output per input entry, each the dot product
    * of the matching matrix row with the input. */
  method MatVecMul(matrix: Matrix, vec: seq<Complex>) returns (result: seq<Complex>)
    requires FitsVector(matrix, |vec|)
    ensures |result| == |vec|
    ensures forall row :: 0 <= row < |vec| ==> result[row] == Dot(matrix[row], vec, |vec|)
  {
    result := [];
    for row := 0 to |vec|
      invariant |result| == row
      invariant forall r :: 0 <= r < row ==> result[r] == Dot(matrix[r], vec, |vec|)
    {
      var v := Zero;
      for col := 0 to |vec|
        invariant v == Dot(matrix[row], vec, col)
      {
        v := Add(v, Mul(matrix[row][col], vec[col]));
      }
      result := result + [v];
    }
  }

  lemma SMulZero(y: Surd)
    ensures SMul(SZero, y) == SZero
  {
    assert SZero.a * y.a == 0.0 && SZero.b * y.b == 0.0;
    assert SZero.a * y.b == 0.0 && SZero.b * y.a == 0.0;
  }

  lemma SMulOne(y: Surd)
    ensures SMul(Surd(1.0, 0.0), y) == y
  {
    var x := Surd(1.0, 0.0);
    assert x.a * y.a == y.a && x.b * y.b == 0.0;
    assert x.a * y.b == y.b && x.b * y.a == 0.0;
  }

  lemma MulZero(x: Complex)
    ensures Mul(Zero, x) == Zero
  {
    SMulZero(x.re);
    SMulZero(x.im);
  }

  lemma MulOne(x: Complex)
    ensures Mul(One, x) == x
  {
    SMulZero(x.re);
    SMulZero(x.im);
    SMulOne(x.re);
    SMulOne(x.im);
    assert SAdd(x.re, SNeg(SZero)) == x.re;
    assert SAdd(x.im, SZero) == x.im;
  }

  lemma AddZero(x: Complex)
    ensures Add(x, Zero) == x && Add(Zero, x) == x
  {
    assert SAdd(x.re, SZero) == x.re && SAdd(SZero, x.re) == x.re;
    assert SAdd(x.im, SZero) == x.im && SAdd(SZero, x.im) == x.im;
  }

  /** A row that is zero except for a 1 in column c picks out entry c. */
  lemma {:induction false} DotUnit(row: seq<Complex>, v: seq<Complex>, n: nat, c: nat)
    requires n <= |row| && n <= |v| && c < n
    requires row[c] == One
    requires forall j :: 0 <= j < n && j != c ==> row[j] == Zero
    ensures Dot(row, v, n) == v[c]
  {
    MulOne(v[c]);
    if n - 1 == c {
      DotZeroRow(row, v, n - 1);
      AddZero(v[c]);
    } else {
      DotUnit(row, v, n - 1, c);
      MulZero(v[n - 1]);
      AddZero(v[c]);
    }
  }

  lemma {:induction false} DotZeroRow(row: seq<Complex>, v: seq<Complex>, n: nat)
    requires n <= |row| && n <= |v|
    requires forall j :: 0 <= j < n ==> row[j] == Zero
    ensures Dot(row, v, n) == Zero
  {
    if n > 0 {
      DotZeroRow(row, v, n - 1);
      var p := Mul(row[n - 1], v[n - 1]);
      assert Dot(row, v, n) == Add(Zero, p);
      assert p == Zero by { MulZero(v[n - 1]); }
    }
  }

  /** The identity matrix of size n. */
  function Identity(n: nat): (m: Matrix)
    ensures |m| == n && forall r :: 0 <= r < n ==> |m[r]| == n
  {
    seq(n, r => seq(n, c => if r == c then One else Zero))
  }

  /** Multiplying by the identity returns the input. */
  lemma IdentityMatVec(v: seq<Complex>, row: nat)
    requires row < |v|
    ensures Dot(Identity(|v|)[row], v, |v|) == v[row]
  {
    DotUnit(Identity(|v|)[row], v, |v|, row);
  }

  // ---------------------------------------------------------------------------
  // The mask table of apply(matrix, qubits)
  // ---------------------------------------------------------------------------

  /** The bits of a are among the bits of b. */
  ghost predicate Within(a: nat, b: nat)
  {
    forall j: nat :: Bit(a, j) ==> Bit(b, j)
  }

  /** The mask the inner loop builds for k after looking at qubits[..upto]:
    * the or of `1 << qubits[q]` over the q < upto whose bit is set in k. */
  function MaskOf(k: nat, qubits: seq<nat>, upto: nat): nat
    requires upto <= |qubits|
  {
    if upto == 0 then 0
    else
      var m := MaskOf(k, qubits, upto - 1);
      if Bit(k, upto - 1) then Or(m, Pow2(qubits[upto - 1])) else m
  }

  /** masks[k] for every k < 2^|qubits|. */
  function MaskTable(qubits: seq<nat>): (masks: seq<nat>)
    ensures |masks| == Pow2(|qubits|)
    ensures forall k :: 0 <= k < |masks| ==> masks[k] == MaskOf(k, qubits, |qubits|)
  {
    seq(Pow2(|qubits|), k requires 0 <= k => MaskOf(k, qubits, |qubits|))
  }

  /** masks.back(): the mask of the all-ones index. */
  function FullMask(qubits: seq<nat>): nat
  {
    MaskOf(Pow2(|qubits|) - 1, qubits, |qubits|)
  }

  /** `k & (1 << q)` is non-zero exactly when bit q of k is set. */
  lemma AndPow2(k: nat, q: nat)
    ensures And(k, Pow2(q)) != 0 <==> Bit(k, q)
  {
    BitAnd(k, Pow2(q), q);
    BitPow2(q, q);
    if Bit(k, q) {
      BitZero(q);
    } else if And(k, Pow2(q)) != 0 {
      var j := SomeHighBit(And(k, Pow2(q)), 0);
      BitAnd(k, Pow2(q), j);
      BitPow2(q, j);
    }
  }

  /** Builds the mask table with the two nested loops of apply. */
  method Masks(qubits: seq<nat>) returns (masks: seq<nat>)
    ensures masks == MaskTable(qubits)
  {
    var n := Pow2(|qubits|);
    masks := [];
    for k := 0 to n
      invariant |masks| == k
      invariant forall j :: 0 <= j < k ==> masks[j] == MaskOf(j, qubits, |qubits|)
    {
      var m := 0;
      for q := 0 to |qubits|
        invariant m == MaskOf(k, qubits, q)
      {
        AndPow2(k, q);
        if And(k, Pow2(q)) != 0 {
          m := Or(m, Pow2(qubits[q]));
        }
      }
      masks := masks + [m];
    }
  }

  /** Bit j of a mask is set exactly when some examined qubit q has bit q set in k
    * and targets bit j. */
  lemma {:induction false} MaskBits(k: nat, qubits: seq<nat>, upto: nat, j: nat)
    requires upto <= |qubits|
    ensures Bit(MaskOf(k, qubits, upto), j) <==>
      exists q :: 0 <= q < upto && Bit(k, q) && qubits[q] == j
  {
    if upto == 0 {
      BitZero(j);
    } else {
      MaskBits(k, qubits, upto - 1, j);
      if Bit(k, upto - 1) {
        BitOr(MaskOf(k, qubits, upto - 1), Pow2(qubits[upto - 1]), j);
        BitPow2(qubits[upto - 1], j);
      }
    }
  }

  /** 2^u - 1 has exactly the bits below u. */
  lemma {:induction false} AllOnes(u: nat, q: nat)
    ensures Bit(Pow2(u) - 1, q) <==> q < u
  {
    if u == 0 {
      BitZero(q);
    } else {
      assert (Pow2(u) - 1) / 2 == Pow2(u - 1) - 1;
      assert (Pow2(u) - 1) % 2 == 1;
      if q > 0 {
        AllOnes(u - 1, q - 1);
      }
    }
  }

  /** masks.back() has exactly the bits of the target qubits. */
  lemma FullMaskBits(qubits: seq<nat>, j: nat)
    ensures Bit(FullMask(qubits), j) <==> exists q :: 0 <= q < |qubits| && qubits[q] == j
  {
    MaskBits(Pow2(|qubits|) - 1, qubits, |qubits|, j);
    if exists q :: 0 <= q < |qubits| && qubits[q] == j {
      var q :| 0 <= q < |qubits| && qubits[q] == j;
      AllOnes(|qubits|, q);
    }
  }

  /** The mask table starts with 0, and every mask lies within masks.back(). */
  lemma MaskTableShape(qubits: seq<nat>, k: nat)
    requires k < Pow2(|qubits|)
    ensures MaskTable(qubits)[0] == 0
    ensures Within(MaskTable(qubits)[k], FullMask(qubits))
    ensures MaskTable(qubits)[|MaskTable(qubits)| - 1] == FullMask(qubits)
  {
    forall j: nat ensures !Bit(MaskOf(0, qubits, |qubits|), j) {
      MaskBits(0, qubits, |qubits|, j);
      forall q | 0 <= q < |qubits| ensures !Bit(0, q) {
        BitZero(q);
      }
    }
    forall j: nat ensures !Bit(0, j) {
      BitZero(j);
    }
    BitsEqual(MaskOf(0, qubits, |qubits|), 0);
    forall j: nat | Bit(MaskOf(k, qubits, |qubits|), j)
      ensures Bit(FullMask(qubits), j)
    {
      MaskBits(k, qubits, |qubits|, j);
      FullMaskBits(qubits, j);
    }
  }

  /** masks.back() < 2^n exactly when every target qubit is below n, so the
    * bounds assert of apply is the check that the targets exist. */
  lemma FullMaskBound(qubits: seq<nat>, n: nat)
    ensures FullMask(qubits) < Pow2(n) <==> forall q :: 0 <= q < |qubits| ==> qubits[q] < n
  {
    if FullMask(qubits) < Pow2(n) {
      forall q | 0 <= q < |qubits| ensures qubits[q] < n {
        FullMaskBits(qubits, qubits[q]);
        BelowPow2(FullMask(qubits), n);
      }
    } else {
      var j := SomeHighBit(FullMask(qubits), n);
      FullMaskBits(qubits, j);
    }
  }

  // ---------------------------------------------------------------------------
  // Facts about the groups {base | masks[k]}
  // ---------------------------------------------------------------------------

  lemma AndZeroBits(a: nat, b: nat)
    ensures And(a, b) == 0 <==> forall j: nat :: !(Bit(a, j) && Bit(b, j))
  {
    if And(a, b) == 0 {
      forall j: nat ensures !(Bit(a, j) && Bit(b, j)) {
        BitAnd(a, b, j);
        BitZero(j);
      }
    } else {
      var j := SomeHighBit(And(a, b), 0);
      BitAnd(a, b, j);
    }
  }

  /** A number whose bits are among those of another is no larger. */
  lemma {:induction false} WithinLe(a: nat, b: nat)
    requires Within(a, b)
    ensures a <= b
    decreases b
  {
    if b == 0 {
      forall j: nat ensures !Bit(a, j) {
        BitZero(j);
      }
      BitZero(0);
      forall j: nat ensures Bit(a, j) == Bit(0, j) {
        BitZero(j);
      }
      BitsEqual(a, 0);
    } else {
      forall j: nat | Bit(a / 2, j) ensures Bit(b / 2, j) {
        assert Bit(a, j + 1);
      }
      assert Bit(a, 0) ==> Bit(b, 0);
      WithinLe(a / 2, b / 2);
    }
  }

  /** An index splits into its group base `i & ~full` and its in-group part
    * `i & full`. */
  lemma Split(i: nat, full: nat)
    ensures And(AndNot(i, full), full) == 0
    ensures Within(And(i, full), full)
    ensures AndNot(i, full) <= i
    ensures Or(AndNot(i, full), And(i, full)) == i
  {
    forall j: nat ensures !(Bit(AndNot(i, full), j) && Bit(full, j)) {
      BitAndNot(i, full, j);
    }
    AndZeroBits(AndNot(i, full), full);
    forall j: nat | Bit(And(i, full), j) ensures Bit(full, j) {
      BitAnd(i, full, j);
    }
    forall j: nat | Bit(AndNot(i, full), j) ensures Bit(i, j) {
      BitAndNot(i, full, j);
    }
    WithinLe(AndNot(i, full), i);
    forall j: nat ensures Bit(Or(AndNot(i, full), And(i, full)), j) == Bit(i, j) {
      BitOr(AndNot(i, full), And(i, full), j);
      BitAndNot(i, full, j);
      BitAnd(i, full, j);
    }
    BitsEqual(Or(AndNot(i, full), And(i, full)), i);
  }

  /** The member `base | m` of the group of base recovers base and m. */
  lemma Join(base: nat, m: nat, full: nat, n: nat)
    requires And(base, full) == 0 && Within(m, full)
    requires base < Pow2(n) && full < Pow2(n)
    ensures Or(base, m) < Pow2(n)
    ensures And(Or(base, m), full) == m
    ensures AndNot(Or(base, m), full) == base
  {
    BitsBelow(m, full, n);
    OrBelow(base, m, n);
    AndZeroBits(base, full);
    forall j: nat ensures Bit(And(Or(base, m), full), j) == Bit(m, j) {
      BitAnd(Or(base, m), full, j);
      BitOr(base, m, j);
    }
    BitsEqual(And(Or(base, m), full), m);
    forall j: nat ensures Bit(AndNot(Or(base, m), full), j) == Bit(base, j) {
      BitAndNot(Or(base, m), full, j);
      BitOr(base, m, j);
    }
    BitsEqual(AndNot(Or(base, m), full), base);
  }

  // ---------------------------------------------------------------------------
  // What apply(matrix, qubits) computes
  // ---------------------------------------------------------------------------

  /** The index of the last occurrence of x in s, or -1. */
  function LastIndex(s: seq<nat>, x: nat): (r: int)
    ensures -1 <= r < |s|
    ensures r >= 0 ==> s[r] == x && forall k :: r < k < |s| ==> s[k] != x
    ensures r < 0 ==> forall k :: 0 <= k < |s| ==> s[k] != x
  {
    if |s| == 0 then -1
    else if s[|s| - 1] == x then |s| - 1
    else LastIndex(s[..|s| - 1], x)
  }

  lemma LastIndexSnoc(s: seq<nat>, x: nat, y: nat)
    ensures LastIndex(s + [y], x) == if y == x then |s| else LastIndex(s, x)
  {
    assert (s + [y])[..|s|] == s;
  }

  /** The preconditions apply checks by assert, on a buffer of 2^n amplitudes. */
  predicate Applicable(size: nat, matrix: Matrix, qubits: seq<nat>)
  {
    && |matrix| == Pow2(|qubits|)
    && FitsVector(matrix, |matrix|)
    && FullMask(qubits) < size
  }

  /** The amplitudes of the group of base, in mask-table order. */
  function Gather(s: seq<Complex>, base: nat, masks: seq<nat>): seq<Complex>
    requires forall k :: 0 <= k < |masks| ==> Or(base, masks[k]) < |s|
  {
    seq(|masks|, k requires 0 <= k < |masks| => s[Or(base, masks[k])])
  }

  /** The new amplitude at index i: row k of the product of the matrix with the
    * group of i, where k is the last mask-table entry equal to the in-group part
    * of i (it is the last write to i that survives); i keeps its amplitude if no
    * entry matches. */
  ghost function NewAmp(s: seq<Complex>, matrix: Matrix, qubits: seq<nat>, n: nat, i: nat): Complex
    requires |s| == Pow2(n) && Applicable(|s|, matrix, qubits) && i < |s|
  {
    var masks := MaskTable(qubits);
    var full := FullMask(qubits);
    var k := LastIndex(masks, And(i, full));
    Split(i, full);
    GroupInRange(AndNot(i, full), qubits, n);
    if k < 0 then s[i] else Dot(matrix[k], Gather(s, AndNot(i, full), masks), |masks|)
  }

  lemma GroupInRange(base: nat, qubits: seq<nat>, n: nat)
    requires base < Pow2(n) && FullMask(qubits) < Pow2(n) && And(base, FullMask(qubits)) == 0
    ensures forall k :: 0 <= k < |MaskTable(qubits)| ==> Or(base, MaskTable(qubits)[k]) < Pow2(n)
  {
    forall k | 0 <= k < |MaskTable(qubits)| ensures Or(base, MaskTable(qubits)[k]) < Pow2(n) {
      MaskTableShape(qubits, k);
      Join(base, MaskTable(qubits)[k], FullMask(qubits), n);
    }
  }

  /** The group of i, multiplied by the matrix, holds the new amplitude of i. */
  lemma GroupAmp(s: seq<Complex>, matrix: Matrix, qubits: seq<nat>, n: nat, i: nat, out: seq<Complex>)
    requires |s| == Pow2(n) && Applicable(|s|, matrix, qubits) && i < |s|
    requires forall k :: 0 <= k < |MaskTable(qubits)| ==> Or(AndNot(i, FullMask(qubits)), MaskTable(qubits)[k]) < |s|
    requires |out| == |MaskTable(qubits)|
    requires forall r :: 0 <= r < |out| ==>
      out[r] == Dot(matrix[r], Gather(s, AndNot(i, FullMask(qubits)), MaskTable(qubits)), |out|)
    ensures LastIndex(MaskTable(qubits), And(i, FullMask(qubits))) >= 0
    ensures NewAmp(s, matrix, qubits, n, i) == out[LastIndex(MaskTable(qubits), And(i, FullMask(qubits)))]
  {
    EveryIndexRewritten(qubits, i);
  }

  /** The whole buffer after apply(matrix, qubits). */
  ghost function Applied(s: seq<Complex>, matrix: Matrix, qubits: seq<nat>, n: nat): (r: seq<Complex>)
    requires |s| == Pow2(n) && Applicable(|s|, matrix, qubits)
    ensures |r| == |s|
  {
    seq(|s|, i requires 0 <= i < |s| => NewAmp(s, matrix, qubits, n, i))
  }

  // ---------------------------------------------------------------------------
  // Coverage and uniqueness of the groups
  // ---------------------------------------------------------------------------

  /** The or of `1 << qubits[q]` over q < upto. */
  function PrefixFull(qubits: seq<nat>, upto: nat): nat
    requires upto <= |qubits|
  {
    if upto == 0 then 0 else Or(PrefixFull(qubits, upto - 1), Pow2(qubits[upto - 1]))
  }

  lemma {:induction false} PrefixFullBits(qubits: seq<nat>, upto: nat, j: nat)
    requires upto <= |qubits|
    ensures Bit(PrefixFull(qubits, upto), j) <==> exists q :: 0 <= q < upto && qubits[q] == j
  {
    if upto == 0 {
      BitZero(j);
    } else {
      PrefixFullBits(qubits, upto - 1, j);
      BitOr(PrefixFull(qubits, upto - 1), Pow2(qubits[upto - 1]), j);
      BitPow2(qubits[upto - 1], j);
    }
  }

  /** A mask depends only on the bits of k below upto. */
  lemma {:induction false} MaskLowBits(k: nat, k': nat, qubits: seq<nat>, upto: nat)
    requires upto <= |qubits|
    requires forall q :: 0 <= q < upto ==> Bit(k, q) == Bit(k', q)
    ensures MaskOf(k, qubits, upto) == MaskOf(k', qubits, upto)
  {
    if upto > 0 {
      MaskLowBits(k, k', qubits, upto - 1);
    }
  }

  /** Every subset of the first upto target bits is the mask of some k < 2^upto. */
  lemma {:induction false} Cover(qubits: seq<nat>, upto: nat, m: nat) returns (k: nat)
    requires upto <= |qubits|
    requires Within(m, PrefixFull(qubits, upto))
    ensures k < Pow2(upto) && MaskOf(k, qubits, upto) == m
  {
    if upto == 0 {
      assert PrefixFull(qubits, 0) == 0;
      forall j: nat ensures Bit(m, j) == Bit(0, j) {
        BitZero(j);
      }
      BitsEqual(m, 0);
      k := 0;
    } else {
      var top := qubits[upto - 1];
      var low := AndNot(m, Pow2(top));
      forall j: nat | Bit(low, j) ensures Bit(PrefixFull(qubits, upto - 1), j) {
        BitAndNot(m, Pow2(top), j);
        BitPow2(top, j);
        BitOr(PrefixFull(qubits, upto - 1), Pow2(top), j);
      }
      var k0 := Cover(qubits, upto - 1, low);
      assert Pow2(upto) == 2 * Pow2(upto - 1);
      if Bit(m, top) {
        k := Or(k0, Pow2(upto - 1));
        OrBelow(k0, Pow2(upto - 1), upto);
        forall q | 0 <= q < upto - 1 ensures Bit(k, q) == Bit(k0, q) {
          BitOr(k0, Pow2(upto - 1), q);
          BitPow2(upto - 1, q);
        }
        MaskLowBits(k, k0, qubits, upto - 1);
        BitOr(k0, Pow2(upto - 1), upto - 1);
        BitPow2(upto - 1, upto - 1);
        forall j: nat ensures Bit(Or(low, Pow2(top)), j) == Bit(m, j) {
          BitOr(low, Pow2(top), j);
          BitAndNot(m, Pow2(top), j);
          BitPow2(top, j);
        }
        BitsEqual(Or(low, Pow2(top)), m);
      } else {
        k := k0;
        NoHighBits(k0, upto - 1, upto - 1);
        forall j: nat ensures Bit(low, j) == Bit(m, j) {
          BitAndNot(m, Pow2(top), j);
          BitPow2(top, j);
        }
        BitsEqual(low, m);
      }
    }
  }

  /** Every in-group part of every index occurs in the mask table, so apply
    * rewrites every amplitude of the buffer (with or without repeated qubits). */
  lemma EveryIndexRewritten(qubits: seq<nat>, i: nat)
    ensures LastIndex(MaskTable(qubits), And(i, FullMask(qubits))) >= 0
  {
    var full := FullMask(qubits);
    Split(i, full);
    forall j: nat | Bit(And(i, full), j) ensures Bit(PrefixFull(qubits, |qubits|), j) {
      FullMaskBits(qubits, j);
      PrefixFullBits(qubits, |qubits|, j);
    }
    var k := Cover(qubits, |qubits|, And(i, full));
    assert MaskTable(qubits)[k] == And(i, full);
  }

  predicate Distinct(qubits: seq<nat>)
  {
    forall p, q :: 0 <= p < q < |qubits| ==> qubits[p] != qubits[q]
  }

  /** With distinct target qubits, distinct k give distinct masks. */
  lemma MasksInjective(qubits: seq<nat>, k: nat, k': nat)
    requires Distinct(qubits)
    requires k < Pow2(|qubits|) && k' < Pow2(|qubits|)
    requires MaskOf(k, qubits, |qubits|) == MaskOf(k', qubits, |qubits|)
    ensures k == k'
  {
    forall q: nat ensures Bit(k, q) == Bit(k', q) {
      if q < |qubits| {
        MaskBits(k, qubits, |qubits|, qubits[q]);
        MaskBits(k', qubits, |qubits|, qubits[q]);
      } else {
        NoHighBits(k, |qubits|, q);
        NoHighBits(k', |qubits|, q);
      }
    }
    BitsEqual(k, k');
  }

  /** With distinct target qubits the groups partition the buffer: every index i
    * is `base | masks[k]` for exactly one base with `base & masks.back() == 0`
    * and exactly one k, so apply reads and rewrites each amplitude exactly once. */
  lemma GroupsPartition(qubits: seq<nat>, n: nat, i: nat)
    requires Distinct(qubits) && FullMask(qubits) < Pow2(n) && i < Pow2(n)
    ensures exists base: nat, k: nat ::
      && And(base, FullMask(qubits)) == 0 && k < Pow2(|qubits|)
      && Or(base, MaskOf(k, qubits, |qubits|)) == i
    ensures forall base: nat, k: nat ::
      && And(base, FullMask(qubits)) == 0 && k < Pow2(|qubits|)
      && Or(base, MaskOf(k, qubits, |qubits|)) == i
      ==> base == AndNot(i, FullMask(qubits)) && k == LastIndex(MaskTable(qubits), And(i, FullMask(qubits)))
  {
    var full := FullMask(qubits);
    var masks := MaskTable(qubits);
    Split(i, full);
    EveryIndexRewritten(qubits, i);
    var k0 := LastIndex(masks, And(i, full));
    assert Or(AndNot(i, full), MaskOf(k0, qubits, |qubits|)) == i;
    forall base: nat, k: nat |
      && And(base, full) == 0 && k < Pow2(|qubits|)
      && Or(base, MaskOf(k, qubits, |qubits|)) == i
      ensures base == AndNot(i, full) && k == k0
    {
      MaskTableShape(qubits, k);
      assert base <= i by {
        forall j: nat | Bit(base, j) ensures Bit(i, j) {
          BitOr(base, MaskOf(k, qubits, |qubits|), j);
        }
        WithinLe(base, i);
      }
      Join(base, MaskOf(k, qubits, |qubits|), full, n);
      MasksInjective(qubits, k, k0);
    }
  }

  // ---------------------------------------------------------------------------
  // One target qubit
  // ---------------------------------------------------------------------------

  lemma OrZero(x: nat)
    ensures Or(0, x) == x
  {
    forall j: nat ensures Bit(Or(0, x), j) == Bit(x, j) {
      BitOr(0, x, j);
      BitZero(j);
    }
    BitsEqual(Or(0, x), x);
  }

  /** For one target qubit q the mask table is [0, 1 << q]. */
  lemma SingleMasks(q: nat)
    ensures MaskTable([q]) == [0, Pow2(q)]
    ensures FullMask([q]) == Pow2(q)
  {
    OrZero(Pow2(q));
    assert MaskOf(1, [q], 1) == Or(MaskOf(1, [q], 0), Pow2(q));
    assert MaskOf(0, [q], 1) == 0 by { BitZero(0); }
  }

  /** `i & (1 << q)` is 1 << q or 0, as bit q of i is set or not. */
  lemma AndSingle(i: nat, q: nat)
    ensures And(i, Pow2(q)) == if Bit(i, q) then Pow2(q) else 0
  {
    var r := if Bit(i, q) then Pow2(q) else 0;
    forall j: nat ensures Bit(And(i, Pow2(q)), j) == Bit(r, j) {
      BitAnd(i, Pow2(q), j);
      BitPow2(q, j);
      BitZero(j);
    }
    BitsEqual(And(i, Pow2(q)), r);
  }

  /** i with bit q toggled: `i ^ (1 << q)`. */
  function Flip(i: nat, q: nat): nat
  {
    if Bit(i, q) then AndNot(i, Pow2(q)) else Or(i, Pow2(q))
  }

  /** Toggling bit q changes bit q and no other. */
  lemma FlipBits(i: nat, q: nat, j: nat)
    ensures Bit(Flip(i, q), j) == (if j == q then !Bit(i, j) else Bit(i, j))
  {
    BitAndNot(i, Pow2(q), j);
    BitOr(i, Pow2(q), j);
    BitPow2(q, j);
  }

  /** Toggling the same bit twice gives the index back. */
  lemma FlipFlip(i: nat, q: nat)
    ensures Flip(Flip(i, q), q) == i
  {
    forall j: nat ensures Bit(Flip(Flip(i, q), q), j) == Bit(i, j) {
      FlipBits(i, q, j);
      FlipBits(Flip(i, q), q, j);
    }
    BitsEqual(Flip(Flip(i, q), q), i);
  }

  /** An index of a 2^n buffer with qubit q < n toggled stays inside the buffer. */
  lemma FlipInRange(i: nat, q: nat, n: nat)
    requires i < Pow2(n) && q < n
    ensures Flip(i, q) < Pow2(n)
  {
    BelowPow2(i, n);
    forall j: nat | n <= j ensures !Bit(Flip(i, q), j) {
      FlipBits(i, q, j);
    }
    BelowPow2(Flip(i, q), n);
  }

  /** The 2x2 matrices apply accepts for qubit q of a 2^n buffer. */
  lemma SingleApplicable(matrix: Matrix, q: nat, n: nat)
    requires |matrix| == 2 && |matrix[0]| == 2 && |matrix[1]| == 2
    ensures Applicable(Pow2(n), matrix, [q]) <==> q < n
  {
    SingleMasks(q);
    FullMaskBound([q], n);
  }

  /** With one target qubit q, the new amplitude at i is row (bit q of i) of the
    * matrix times the pair (amplitude with bit q clear, amplitude with bit q set). */
  lemma SingleAmp(s: seq<Complex>, matrix: Matrix, q: nat, n: nat, i: nat)
    requires |s| == Pow2(n) && Applicable(|s|, matrix, [q]) && i < |s|
    ensures Flip(i, q) < |s|
    ensures NewAmp(s, matrix, [q], n, i) ==
      if Bit(i, q) then Dot(matrix[1], [s[Flip(i, q)], s[i]], 2)
      else Dot(matrix[0], [s[i], s[Flip(i, q)]], 2)
  {
    SingleMasks(q);
    FullMaskBound([q], n);
    FlipInRange(i, q, n);
    AndSingle(i, q);
    Split(i, Pow2(q));
    var lo := AndNot(i, Pow2(q));
    OrZero(lo);
    OrSymmetric(lo, 0);
    if Bit(i, q) {
      assert Or(lo, Pow2(q)) == i;
      assert LastIndex([0, Pow2(q)], Pow2(q)) == 1;
    } else {
      assert lo == i by {
        forall j: nat ensures Bit(lo, j) == Bit(i, j) {
          BitAndNot(i, Pow2(q), j);
          BitPow2(q, j);
        }
        BitsEqual(lo, i);
      }
      assert LastIndex([0, Pow2(q)], 0) == 0;
    }
    assert Gather(s, lo, [0, Pow2(q)]) == [s[lo], s[Or(lo, Pow2(q))]];
  }

  lemma OrSymmetric(a: nat, b: nat)
    ensures Or(a, b) == Or(b, a)
  {
    forall j: nat ensures Bit(Or(a, b), j) == Bit(Or(b, a), j) {
      BitOr(a, b, j);
      BitOr(b, a, j);
    }
    BitsEqual(Or(a, b), Or(b, a));
  }

  // ---------------------------------------------------------------------------
  // GATE_UNITARIES
  // ---------------------------------------------------------------------------

  /** re + im*i. */
  function C(re: real, im: real): Complex
  {
    Complex(Surd(re, 0.0), Surd(im, 0.0))
  }

  /** (re + im*i) * s, where s = 1/sqrt(2) = sqrt(2)/2. */
  function CS(re: real, im: real): Complex
  {
    Complex(Surd(0.0, re / 2.0), Surd(0.0, im / 2.0))
  }

  /** The unitaries of the named-gate overloads, by gate name. */
  const GateUnitaries: map<string, Matrix> := map[
    "I" := [[C(1.0, 0.0), C(0.0, 0.0)], [C(0.0, 0.0), C(1.0, 0.0)]],
    "X" := [[C(0.0, 0.0), C(1.0, 0.0)], [C(1.0, 0.0), C(0.0, 0.0)]],
    "Y" := [[C(0.0, 0.0), C(0.0, -1.0)], [C(0.0, 1.0), C(0.0, 0.0)]],
    "Z" := [[C(1.0, 0.0), C(0.0, 0.0)], [C(0.0, 0.0), C(-1.0, 0.0)]],
    "H" := [[CS(1.0, 0.0), CS(1.0, 0.0)], [CS(1.0, 0.0), CS(-1.0, 0.0)]],
    "H_XY" := [[C(0.0, 0.0), CS(1.0, -1.0)], [CS(1.0, 1.0), C(0.0, 0.0)]],
    "H_XZ" := [[CS(1.0, 0.0), CS(1.0, 0.0)], [CS(1.0, 0.0), CS(-1.0, 0.0)]],
    "H_YZ" := [[CS(1.0, 0.0), CS(0.0, -1.0)], [CS(0.0, 1.0), CS(-1.0, 0.0)]],
    "SQRT_X" := [[C(0.5, 0.5), C(0.5, -0.5)], [C(0.5, -0.5), C(0.5, 0.5)]],
    "SQRT_X_DAG" := [[C(0.5, -0.5), C(0.5, 0.5)], [C(0.5, 0.5), C(0.5, -0.5)]],
    "SQRT_Y" := [[C(0.5, 0.5), C(-0.5, -0.5)], [C(0.5, 0.5), C(0.5, 0.5)]],
    "SQRT_Y_DAG" := [[C(0.5, -0.5), C(0.5, -0.5)], [C(-0.5, 0.5), C(0.5, -0.5)]],
    "SQRT_Z" := [[C(1.0, 0.0), C(0.0, 0.0)], [C(0.0, 0.0), C(0.0, 1.0)]],
    "SQRT_Z_DAG" := [[C(1.0, 0.0), C(0.0, 0.0)], [C(0.0, 0.0), C(0.0, -1.0)]],
    "S" := [[C(1.0, 0.0), C(0.0, 0.0)], [C(0.0, 0.0), C(0.0, 1.0)]],
    "S_DAG" := [[C(1.0, 0.0), C(0.0, 0.0)], [C(0.0, 0.0), C(0.0, -1.0)]],
    "CNOT" := [[C(1.0, 0.0), C(0.0, 0.0), C(0.0, 0.0), C(0.0, 0.0)],
               [C(0.0, 0.0), C(0.0, 0.0), C(0.0, 0.0), C(1.0, 0.0)],
               [C(0.0, 0.0), C(0.0, 0.0), C(1.0, 0.0), C(0.0, 0.0)],
               [C(0.0, 0.0), C(1.0, 0.0), C(0.0, 0.0), C(0.0, 0.0)]],
    "CZ" := [[C(1.0, 0.0), C(0.0, 0.0), C(0.0, 0.0), C(0.0, 0.0)],
             [C(0.0, 0.0), C(1.0, 0.0), C(0.0, 0.0), C(0.0, 0.0)],
             [C(0.0, 0.0), C(0.0, 0.0), C(1.0, 0.0), C(0.0, 0.0)],
             [C(0.0, 0.0), C(0.0, 0.0), C(0.0, 0.0), C(-1.0, 0.0)]],
    "SWAP" := [[C(1.0, 0.0), C(0.0, 0.0), C(0.0, 0.0), C(0.0, 0.0)],
               [C(0.0, 0.0), C(0.0, 0.0), C(1.0, 0.0), C(0.0, 0.0)],
               [C(0.0, 0.0), C(1.0, 0.0), C(0.0, 0.0), C(0.0, 0.0)],
               [C(0.0, 0.0), C(0.0, 0.0), C(0.0, 0.0), C(1.0, 0.0)]]
  ]

  /** Every table entry is a one-qubit (2x2) or, for CNOT, CZ and SWAP, a
    * two-qubit (4x4) matrix. */
  lemma TableShape(name: string)
    requires name in GateUnitaries
    ensures name in {"CNOT", "CZ", "SWAP"} ==> |GateUnitaries[name]| == 4 && FitsVector(GateUnitaries[name], 4)
    ensures name !in {"CNOT", "CZ", "SWAP"} ==> |GateUnitaries[name]| == 2 && FitsVector(GateUnitaries[name], 2)
  {
  }

  lemma MulZeroRight(x: Complex)
    ensures Mul(x, Zero) == Zero
  {
    assert x.re.a * 0.0 == 0.0 && x.re.b * 0.0 == 0.0;
    assert x.im.a * 0.0 == 0.0 && x.im.b * 0.0 == 0.0;
  }

  /** A two-entry row with one zero entry picks out the other product. */
  lemma DotPair(row: seq<Complex>, v: seq<Complex>)
    requires |row| == 2 && |v| == 2
    ensures row[0] == Zero ==> Dot(row, v, 2) == Mul(row[1], v[1])
    ensures row[1] == Zero ==> Dot(row, v, 2) == Mul(row[0], v[0])
  {
    var p0 := Mul(row[0], v[0]);
    var p1 := Mul(row[1], v[1]);
    assert Dot(row, v, 1) == Add(Zero, p0);
    assert Dot(row, v, 2) == Add(Add(Zero, p0), p1);
    AddZero(p0);
    AddZero(p1);
    if row[0] == Zero {
      assert p0 == Zero by { MulZero(v[0]); }
    }
    if row[1] == Zero {
      assert p1 == Zero by { MulZero(v[1]); }
    }
  }

  lemma MulMinusOne(x: Complex)
    ensures Mul(C(-1.0, 0.0), x) == Neg(x)
  {
    assert -1.0 * x.re.a == -x.re.a && -1.0 * x.re.b == -x.re.b;
    assert -1.0 * x.im.a == -x.im.a && -1.0 * x.im.b == -x.im.b;
    assert 0.0 * x.re.a == 0.0 && 0.0 * x.re.b == 0.0;
    assert 0.0 * x.im.a == 0.0 && 0.0 * x.im.b == 0.0;
  }

  /** The Pauli entries of the table. */
  lemma PauliUnitaries()
    ensures "I" in GateUnitaries && GateUnitaries["I"] == [[C(1.0, 0.0), C(0.0, 0.0)], [C(0.0, 0.0), C(1.0, 0.0)]]
    ensures "X" in GateUnitaries && GateUnitaries["X"] == [[C(0.0, 0.0), C(1.0, 0.0)], [C(1.0, 0.0), C(0.0, 0.0)]]
    ensures "Y" in GateUnitaries && GateUnitaries["Y"] == [[C(0.0, 0.0), C(0.0, -1.0)], [C(0.0, 1.0), C(0.0, 0.0)]]
    ensures "Z" in GateUnitaries && GateUnitaries["Z"] == [[C(1.0, 0.0), C(0.0, 0.0)], [C(0.0, 0.0), C(-1.0, 0.0)]]
  {
  }

  /** The matrix [[0, 1], [1, 0]] swaps each amplitude with the one whose index
    * differs in bit q. */
  lemma SwapAmp(s: seq<Complex>, m: Matrix, q: nat, n: nat, i: nat)
    requires |s| == Pow2(n) && q < n && i < |s|
    requires m == [[C(0.0, 0.0), C(1.0, 0.0)], [C(1.0, 0.0), C(0.0, 0.0)]]
    ensures Applicable(|s|, m, [q]) && Flip(i, q) < |s|
    ensures Applied(s, m, [q], n)[i] == s[Flip(i, q)]
  {
    SingleApplicable(m, q, n);
    SingleAmp(s, m, q, n, i);
    DotPair(m[0], [s[i], s[Flip(i, q)]]);
    DotPair(m[1], [s[Flip(i, q)], s[i]]);
    MulOne(s[Flip(i, q)]);
  }

  /** X on qubit q swaps each amplitude with the one whose index differs in bit q. */
  lemma XSwaps(s: seq<Complex>, q: nat, n: nat, i: nat)
    requires |s| == Pow2(n) && q < n && i < |s|
    ensures Applicable(|s|, GateUnitaries["X"], [q]) && Flip(i, q) < |s|
    ensures Applied(s, GateUnitaries["X"], [q], n)[i] == s[Flip(i, q)]
  {
    PauliUnitaries();
    SwapAmp(s, GateUnitaries["X"], q, n, i);
  }

  /** X applied twice to the same qubit restores the buffer. */
  lemma XTwice(s: seq<Complex>, q: nat, n: nat)
    requires |s| == Pow2(n) && q < n
    ensures Applicable(|s|, GateUnitaries["X"], [q])
    ensures Applied(Applied(s, GateUnitaries["X"], [q], n), GateUnitaries["X"], [q], n) == s
  {
    var x := GateUnitaries["X"];
    SingleApplicable(x, q, n);
    var t := Applied(s, x, [q], n);
    forall i | 0 <= i < |s| ensures Applied(t, x, [q], n)[i] == s[i] {
      XSwaps(t, q, n, i);
      XSwaps(s, q, n, Flip(i, q));
      FlipFlip(i, q);
    }
  }

  /** Y on qubit q swaps each pair of amplitudes differing in bit q, multiplying
    * the one moving to the set bit by i and the one moving to the clear bit by -i. */
  lemma YSwaps(s: seq<Complex>, q: nat, n: nat, i: nat)
    requires |s| == Pow2(n) && q < n && i < |s|
    ensures Applicable(|s|, GateUnitaries["Y"], [q]) && Flip(i, q) < |s|
    ensures Applied(s, GateUnitaries["Y"], [q], n)[i] ==
      Mul(if Bit(i, q) then C(0.0, 1.0) else C(0.0, -1.0), s[Flip(i, q)])
  {
    PauliUnitaries();
    var y := GateUnitaries["Y"];
    SingleApplicable(y, q, n);
    SingleAmp(s, y, q, n, i);
    var f := Flip(i, q);
    if Bit(i, q) {
      DotPair(y[1], [s[f], s[i]]);
    } else {
      DotPair(y[0], [s[i], s[f]]);
    }
  }

  /** Z on qubit q negates exactly the amplitudes whose index has bit q set. */
  lemma ZPhase(s: seq<Complex>, q: nat, n: nat, i: nat)
    requires |s| == Pow2(n) && q < n && i < |s|
    ensures Applicable(|s|, GateUnitaries["Z"], [q])
    ensures Applied(s, GateUnitaries["Z"], [q], n)[i] == if Bit(i, q) then Neg(s[i]) else s[i]
  {
    PauliUnitaries();
    var z := GateUnitaries["Z"];
    SingleApplicable(z, q, n);
    SingleAmp(s, z, q, n, i);
    DotPair(z[0], [s[i], s[Flip(i, q)]]);
    DotPair(z[1], [s[Flip(i, q)], s[i]]);
    MulOne(s[i]);
    MulMinusOne(s[i]);
  }

  /** The identity entry leaves the buffer as it is. */
  lemma IdentityKeeps(s: seq<Complex>, q: nat, n: nat)
    requires |s| == Pow2(n) && q < n
    ensures Applicable(|s|, GateUnitaries["I"], [q])
    ensures Applied(s, GateUnitaries["I"], [q], n) == s
  {
    PauliUnitaries();
    var id := GateUnitaries["I"];
    SingleApplicable(id, q, n);
    forall i | 0 <= i < |s| ensures Applied(s, id, [q], n)[i] == s[i] {
      SingleAmp(s, id, q, n, i);
      DotPair(id[0], [s[i], s[Flip(i, q)]]);
      DotPair(id[1], [s[Flip(i, q)], s[i]]);
      MulOne(s[i]);
    }
  }

  // ---------------------------------------------------------------------------
  // apply(PauliString, qubit_offset)
  // ---------------------------------------------------------------------------

  /** A signed Pauli product over consecutive qubits, given (as the overload reads
    * it) by an x bit and a y bit per qubit. */
  datatype PauliString = PauliString(sign: bool, xs: seq<bool>, ys: seq<bool>)

  /** The table entry the overload applies for one qubit's x and y bits. */
  function PauliGate(x: bool, y: bool): Option<string>
  {
    if x && y then Some("Z") else if x then Some("X") else if y then Some("Y") else None
  }

  /** Every amplitude times -1. */
  function Negated(s: seq<Complex>): (r: seq<Complex>)
    ensures |r| == |s|
  {
    seq(|s|, i requires 0 <= i < |s| => Neg(s[i]))
  }

  /** The qubits the string acts on exist: the overload's calls of apply meet
    * their asserts. */
  predicate PauliFits(p: PauliString, offset: nat, n: nat)
  {
    && |p.xs| == |p.ys|
    && forall k :: 0 <= k < |p.xs| && (p.xs[k] || p.ys[k]) ==> offset + k < n
  }

  /** The buffer after the sign step and the first k qubits of the string. */
  ghost function PauliPrefix(s: seq<Complex>, p: PauliString, offset: nat, n: nat, k: nat): (r: seq<Complex>)
    requires |s| == Pow2(n) && PauliFits(p, offset, n) && k <= |p.xs|
    ensures |r| == |s|
  {
    if k == 0 then (if p.sign then Negated(s) else s)
    else
      var t := PauliPrefix(s, p, offset, n, k - 1);
      match PauliGate(p.xs[k - 1], p.ys[k - 1])
      case None => t
      case Some(g) =>
        SingleApplicable(GateUnitaries[g], offset + k - 1, n);
        Applied(t, GateUnitaries[g], [offset + k - 1], n)
  }

  /** The whole buffer after apply(gate, qubit_offset). */
  ghost function PauliApplied(s: seq<Complex>, p: PauliString, offset: nat, n: nat): (r: seq<Complex>)
    requires |s| == Pow2(n) && PauliFits(p, offset, n)
    ensures |r| == |s|
  {
    PauliPrefix(s, p, offset, n, |p.xs|)
  }

  /** One more qubit of the string: Z for x and y, X for x alone, Y for y alone. */
  lemma PauliPrefixStep(s: seq<Complex>, p: PauliString, offset: nat, n: nat, k: nat)
    requires |s| == Pow2(n) && PauliFits(p, offset, n) && k < |p.xs|
    ensures p.xs[k] && p.ys[k] ==> (
      && Applicable(Pow2(n), GateUnitaries["Z"], [offset + k])
      && PauliPrefix(s, p, offset, n, k + 1) == Applied(PauliPrefix(s, p, offset, n, k), GateUnitaries["Z"], [offset + k], n))
    ensures p.xs[k] && !p.ys[k] ==> (
      && Applicable(Pow2(n), GateUnitaries["X"], [offset + k])
      && PauliPrefix(s, p, offset, n, k + 1) == Applied(PauliPrefix(s, p, offset, n, k), GateUnitaries["X"], [offset + k], n))
    ensures !p.xs[k] && p.ys[k] ==> (
      && Applicable(Pow2(n), GateUnitaries["Y"], [offset + k])
      && PauliPrefix(s, p, offset, n, k + 1) == Applied(PauliPrefix(s, p, offset, n, k), GateUnitaries["Y"], [offset + k], n))
    ensures !p.xs[k] && !p.ys[k] ==> PauliPrefix(s, p, offset, n, k + 1) == PauliPrefix(s, p, offset, n, k)
  {
    PauliUnitaries();
    if p.xs[k] || p.ys[k] {
      var g := if p.xs[k] && p.ys[k] then "Z" else if p.xs[k] then "X" else "Y";
      assert PauliGate(p.xs[k], p.ys[k]) == Some(g);
      SingleApplicable(GateUnitaries[g], offset + k, n);
    }
  }

  /** A string with no x or y bits only applies its sign. */
  lemma {:induction false} PauliSignOnly(s: seq<Complex>, p: PauliString, offset: nat, n: nat, k: nat)
    requires |s| == Pow2(n) && PauliFits(p, offset, n) && k <= |p.xs|
    requires forall j :: 0 <= j < |p.xs| ==> !p.xs[j] && !p.ys[j]
    ensures PauliPrefix(s, p, offset, n, k) == if p.sign then Negated(s) else s
  {
    if k > 0 {
      PauliSignOnly(s, p, offset, n, k - 1);
    }
  }

  lemma SMulNeg(x: Surd, y: Surd)
    ensures SMul(x, SNeg(y)) == SNeg(SMul(x, y))
  {
    assert x.a * -y.a == -(x.a * y.a) && x.b * -y.b == -(x.b * y.b);
    assert x.a * -y.b == -(x.a * y.b) && x.b * -y.a == -(x.b * y.a);
  }

  lemma MulNeg(x: Complex, y: Complex)
    ensures Mul(x, Neg(y)) == Neg(Mul(x, y))
  {
    SMulNeg(x.re, y.re);
    SMulNeg(x.im, y.im);
    SMulNeg(x.re, y.im);
    SMulNeg(x.im, y.re);
  }

  /** The dot product is linear in the vector: negating the vector negates it. */
  lemma {:induction false} DotNeg(row: seq<Complex>, v: seq<Complex>, w: seq<Complex>, n: nat)
    requires n <= |row| && n <= |v| && |w| == |v|
    requires forall j :: 0 <= j < |v| ==> w[j] == Neg(v[j])
    ensures Dot(row, w, n) == Neg(Dot(row, v, n))
  {
    if n > 0 {
      DotNeg(row, v, w, n - 1);
      var p := Mul(row[n - 1], v[n - 1]);
      assert Mul(row[n - 1], w[n - 1]) == Neg(p) by { MulNeg(row[n - 1], v[n - 1]); }
    }
  }

  /** Applying a gate to the negated buffer gives the negated result. */
  lemma AppliedNeg(s: seq<Complex>, matrix: Matrix, qubits: seq<nat>, n: nat)
    requires |s| == Pow2(n) && Applicable(|s|, matrix, qubits)
    ensures Applied(Negated(s), matrix, qubits, n) == Negated(Applied(s, matrix, qubits, n))
  {
    var masks := MaskTable(qubits);
    var full := FullMask(qubits);
    forall i | 0 <= i < |s|
      ensures NewAmp(Negated(s), matrix, qubits, n, i) == Neg(NewAmp(s, matrix, qubits, n, i))
    {
      Split(i, full);
      var base := AndNot(i, full);
      GroupInRange(base, qubits, n);
      if LastIndex(masks, And(i, full)) >= 0 {
        var k := LastIndex(masks, And(i, full));
        DotNeg(matrix[k], Gather(s, base, masks), Gather(Negated(s), base, masks), |masks|);
      }
    }
  }

  /** The sign step commutes with the qubit steps: a negative string yields the
    * negation of what the positive one yields. */
  lemma {:induction false} PauliSignNegates(s: seq<Complex>, p: PauliString, offset: nat, n: nat, k: nat)
    requires |s| == Pow2(n) && PauliFits(p, offset, n) && k <= |p.xs|
    ensures PauliPrefix(s, p.(sign := true), offset, n, k) == Negated(PauliPrefix(s, p.(sign := false), offset, n, k))
  {
    if k > 0 {
      PauliSignNegates(s, p, offset, n, k - 1);
      var t := PauliPrefix(s, p.(sign := false), offset, n, k - 1);
      match PauliGate(p.xs[k - 1], p.ys[k - 1])
      case None =>
      case Some(g) =>
        SingleApplicable(GateUnitaries[g], offset + k - 1, n);
        AppliedNeg(t, GateUnitaries[g], [offset + k - 1], n);
    }
  }

  // ---------------------------------------------------------------------------
  // The simulator object
  // ---------------------------------------------------------------------------

  class VectorSim {
    /** The amplitudes, indexed by basis state (bit q of the index is qubit q). */
    var state: array<Complex>
    ghost var numQubits: nat

    ghost predicate Valid()
      reads this
    {
      state.Length == Pow2(numQubits)
    }

    /** The all-zeros basis state on numQubits qubits. */
    constructor (numQubits: nat)
      ensures Valid() && this.numQubits == numQubits && fresh(state)
      ensures state[0] == One
      ensures forall i :: 1 <= i < state.Length ==> state[i] == Zero
    {
      state := new Complex[Pow2(numQubits)](_ => Zero);
      this.numQubits := numQubits;
      new;
      state[0] := One;
    }

    /** Collects the amplitudes of the group of base, in mask-table order. */
    method GatherGroup(masks: seq<nat>, base: nat) returns (input: seq<Complex>)
      requires forall k :: 0 <= k < |masks| ==> Or(base, masks[k]) < state.Length
      ensures input == Gather(state[..], base, masks)
    {
      input := [];
      for k := 0 to |masks|
        invariant |input| == k
        invariant forall j :: 0 <= j < k ==> input[j] == state[Or(base, masks[j])]
      {
        input := input + [state[Or(base, masks[k])]];
      }
    }

    /** Writes out[k] to index `base | masks[k]`, for k in order. */
    method ScatterGroup(masks: seq<nat>, full: nat, base: nat, out: seq<Complex>)
      requires Valid() && |out| == |masks|
      requires And(base, full) == 0 && base < state.Length && full < state.Length
      requires forall k :: 0 <= k < |masks| ==> Within(masks[k], full)
      modifies state
      ensures forall i :: 0 <= i < state.Length ==>
        state[i] == if AndNot(i, full) == base && LastIndex(masks, And(i, full)) >= 0
                    then out[LastIndex(masks, And(i, full))]
                    else old(state[i])
    {
      for k := 0 to |masks|
        invariant forall i :: 0 <= i < state.Length ==>
          state[i] == if AndNot(i, full) == base && LastIndex(masks[..k], And(i, full)) >= 0
                      then out[LastIndex(masks[..k], And(i, full))]
                      else old(state[i])
      {
        Join(base, masks[k], full, numQubits);
        var idx := Or(base, masks[k]);
        ghost var before := state[..];
        state[idx] := out[k];
        assert masks[..k + 1] == masks[..k] + [masks[k]];
        forall i | 0 <= i < state.Length
          ensures state[i] == if AndNot(i, full) == base && LastIndex(masks[..k + 1], And(i, full)) >= 0
                              then out[LastIndex(masks[..k + 1], And(i, full))]
                              else old(state[i])
        {
          LastIndexSnoc(masks[..k], And(i, full), masks[k]);
          if i != idx {
            assert state[i] == before[i];
            if AndNot(i, full) == base && And(i, full) == masks[k] {
              Split(i, full);
            }
          }
        }
      }
      assert masks[..|masks|] == masks;
    }

    /** Applies a gate matrix to the target qubits, in place: for every base with
      * no target bit set, the group {base | masks[k]} is replaced by the matrix
      * times the group. */
    method Apply(matrix: Matrix, qubits: seq<nat>)
      requires Valid() && Applicable(state.Length, matrix, qubits)
      modifies state
      ensures Valid()
      ensures state[..] == Applied(old(state[..]), matrix, qubits, numQubits)
    {
      var masks := Masks(qubits);
      MaskTableShape(qubits, 0);
      var full := masks[|masks| - 1];
      forall k | 0 <= k < |masks| ensures Within(masks[k], full) {
        MaskTableShape(qubits, k);
      }
      ghost var s := state[..];
      ghost var n := numQubits;
      var base := 0;
      while base < state.Length
        invariant 0 <= base <= state.Length
        invariant forall i :: 0 <= i < state.Length ==>
          state[i] == if AndNot(i, full) < base then NewAmp(s, matrix, qubits, n, i) else s[i]
      {
        if And(base, full) != 0 {
          forall i | 0 <= i < state.Length
            ensures AndNot(i, full) < base + 1 <==> AndNot(i, full) < base
          {
            Split(i, full);
          }
          base := base + 1;
          continue;
        }
        ApplyGroup(matrix, qubits, masks, full, base, s);
        base := base + 1;
      }
      forall i | 0 <= i < state.Length ensures state[i] == NewAmp(s, matrix, qubits, n, i) {
        Split(i, full);
      }
      assert state[..] == Applied(s, matrix, qubits, n);
    }

    /** One group of the sweep in Apply: the amplitudes whose non-target bits
      * equal base are replaced by the matrix times their old values; the
      * groups below base are already done and those above are untouched. */
    method ApplyGroup(matrix: Matrix, qubits: seq<nat>, masks: seq<nat>, full: nat, base: nat, ghost s: seq<Complex>)
      requires Valid() && Applicable(state.Length, matrix, qubits)
      requires masks == MaskTable(qubits) && full == FullMask(qubits)
      requires forall k :: 0 <= k < |masks| ==> Within(masks[k], full)
      requires |s| == state.Length && base < state.Length && And(base, full) == 0
      requires forall i :: 0 <= i < state.Length ==>
        state[i] == if AndNot(i, full) < base then NewAmp(s, matrix, qubits, numQubits, i) else s[i]
      modifies state
      ensures forall i :: 0 <= i < state.Length ==>
        state[i] == if AndNot(i, full) < base + 1 then NewAmp(s, matrix, qubits, numQubits, i) else s[i]
    {
      var n := numQubits;
      GroupInRange(base, qubits, n);
      var input := GatherGroup(masks, base);
      forall k | 0 <= k < |masks| ensures input[k] == s[Or(base, masks[k])] {
        Join(base, masks[k], full, n);
      }
      assert input == Gather(s, base, masks);
      var out := MatVecMul(matrix, input);
      ghost var mid := state[..];
      ScatterGroup(masks, full, base, out);
      forall i | 0 <= i < state.Length
        ensures state[i] == if AndNot(i, full) < base + 1 then NewAmp(s, matrix, qubits, n, i) else s[i]
      {
        if AndNot(i, full) == base {
          GroupAmp(s, matrix, qubits, n, i, out);
        } else {
          assert state[i] == mid[i];
        }
      }
    }

    /** apply(gate, qubit): looks the gate up in the table, so an unknown name
      * fails and leaves the buffer alone; a known one is applied to the qubit. */
    method ApplyNamed(gate: string, qubit: nat) returns (ok: bool)
      requires Valid()
      requires gate in GateUnitaries ==> Applicable(state.Length, GateUnitaries[gate], [qubit])
      modifies state
      ensures Valid()
      ensures ok <==> gate in GateUnitaries
      ensures ok ==> state[..] == Applied(old(state[..]), GateUnitaries[gate], [qubit], numQubits)
      ensures !ok ==> state[..] == old(state[..])
    {
      if gate !in GateUnitaries {
        return false;
      }
      Apply(GateUnitaries[gate], [qubit]);
      ok := true;
    }

    /** apply(gate, qubit1, qubit2): the same lookup, applied to two qubits. */
    method ApplyNamed2(gate: string, qubit1: nat, qubit2: nat) returns (ok: bool)
      requires Valid()
      requires gate in GateUnitaries ==> Applicable(state.Length, GateUnitaries[gate], [qubit1, qubit2])
      modifies state
      ensures Valid()
      ensures ok <==> gate in GateUnitaries
      ensures ok ==> state[..] == Applied(old(state[..]), GateUnitaries[gate], [qubit1, qubit2], numQubits)
      ensures !ok ==> state[..] == old(state[..])
    {
      if gate !in GateUnitaries {
        return false;
      }
      Apply(GateUnitaries[gate], [qubit1, qubit2]);
      ok := true;
    }

    /** apply(PauliString, qubit_offset): negates the buffer if the sign is set,
      * then applies Z, X or Y to qubit offset + k as the x and y bits of k say. */
    method ApplyPauli(gate: PauliString, offset: nat)
      requires Valid() && PauliFits(gate, offset, numQubits)
      modifies state
      ensures Valid()
      ensures state[..] == PauliApplied(old(state[..]), gate, offset, numQubits)
    {
      ghost var s := state[..];
      if gate.sign {
        for i := 0 to state.Length
          invariant forall j :: 0 <= j < i ==> state[j] == Neg(s[j])
          invariant forall j :: i <= j < state.Length ==> state[j] == s[j]
        {
          state[i] := Neg(state[i]);
        }
      }
      assert state[..] == PauliPrefix(s, gate, offset, numQubits, 0);
      for k := 0 to |gate.xs|
        invariant state[..] == PauliPrefix(s, gate, offset, numQubits, k)
      {
        var x := gate.xs[k];
        var y := gate.ys[k];
        var q := offset + k;
        PauliPrefixStep(s, gate, offset, numQubits, k);
        var ok;
        if x && y {
          ok := ApplyNamed("Z", q);
        } else if x {
          ok := ApplyNamed("X", q);
        } else if y {
          ok := ApplyNamed("Y", q);
        }
      }
    }
  }
}
