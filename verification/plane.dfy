/** A two-dimensional plane of exact sample values: one (batch, channel)
    slice of a tensor, or a filter kernel. Also the finite sums that the
    convolution is built from, and the integer facts the index arithmetic
    needs. */
module Planes {

  /** A plane of `h` rows and `w` columns. The sizes are kept explicitly so
      that a plane with no rows still has a width. */
  datatype Plane = Plane(h: nat, w: nat, rows: seq<seq<real>>)
  {
    predicate Valid() {
      |rows| == h && forall i :: 0 <= i < h ==> |rows[i]| == w
    }
  }

  /** Two well-formed planes of the same size that agree everywhere are equal. */
  lemma PlaneExt(a: Plane, b: Plane)
    requires a.Valid() && b.Valid() && a.h == b.h && a.w == b.w
    requires forall i, j :: 0 <= i < a.h && 0 <= j < a.w ==> a.rows[i][j] == b.rows[i][j]
    ensures a == b
  {
    forall i | 0 <= i < a.h
      ensures a.rows[i] == b.rows[i]
    {
      assert forall j :: 0 <= j < a.w ==> a.rows[i][j] == b.rows[i][j];
    }
  }

  /** f(0) + f(1) + ... + f(n-1). */
  function Sum(n: nat, f: nat -> real): real
  {
    if n == 0 then 0.0 else Sum(n - 1, f) + f(n - 1)
  }

  /** Sums of functions that agree on the summed range are equal. */
  lemma {:induction false} SumExt(n: nat, f: nat -> real, g: nat -> real)
    requires forall i: nat :: i < n ==> f(i) == g(i)
    ensures Sum(n, f) == Sum(n, g)
  {
    if n > 0 {
      SumExt(n - 1, f, g);
    }
  }

  /** Peeling off the first term instead of the last. */
  lemma {:induction false} SumFirst(n: nat, f: nat -> real, g: nat -> real)
    requires n > 0
    requires forall i: nat :: i < n - 1 ==> g(i) == f(i + 1)
    ensures Sum(n, f) == f(0) + Sum(n - 1, g)
  {
    if n > 1 {
      SumFirst(n - 1, f, g);
    }
  }

  /** Summing in reverse order gives the same total. */
  lemma {:induction false} SumReverse(n: nat, f: nat -> real, g: nat -> real)
    requires forall i: nat :: i < n ==> g(i) == f(n - 1 - i)
    ensures Sum(n, f) == Sum(n, g)
  {
    if n > 0 {
      var f' := (i: nat) => f(i + 1);
      SumFirst(n, f, f');
      SumReverse(n - 1, f', g);
    }
  }

  /** A sum with a single possibly non-zero term equals that term. */
  lemma {:induction false} SumSingle(n: nat, f: nat -> real, k: nat)
    requires k < n
    requires forall i: nat :: i < n && i != k ==> f(i) == 0.0
    ensures Sum(n, f) == f(k)
  {
    if n - 1 != k {
      SumSingle(n - 1, f, k);
    } else {
      SumZero(n - 1, f);
    }
  }

  /** A sum of zeros is zero. */
  lemma {:induction false} SumZero(n: nat, f: nat -> real)
    requires forall i: nat :: i < n ==> f(i) == 0.0
    ensures Sum(n, f) == 0.0
  {
    if n > 0 {
      SumZero(n - 1, f);
    }
  }

  /** The positive part of an integer: max(a, 0). */
  function Pos(a: int): nat
  {
    if a > 0 then a else 0
  }

  /** Multiplying by a natural number preserves order. */
  lemma {:induction false} MulMono(a: int, b: int, d: nat)
    ensures a <= b ==> a * d <= b * d
  {
    if d > 0 {
      MulMono(a, b, d - 1);
      assert a * d == a * (d - 1) + a;
      assert b * d == b * (d - 1) + b;
    }
  }

  /** Quotient and remainder are unique. */
  lemma DivUnique(n: int, d: nat, q: int, r: int)
    requires d > 0 && 0 <= r < d && n == q * d + r
    ensures n / d == q && n % d == r
  {
    var q', r' := n / d, n % d;
    assert q' * d + r' == n;
    MulMono(q + 1, q', d);
    MulMono(q' + 1, q, d);
    assert (q + 1) * d == q * d + d;
    assert (q' + 1) * d == q' * d + d;
  }

  /** Division undoes multiplication exactly. */
  lemma MulDivCancel(i: nat, d: nat)
    requires d > 0
    ensures (i * d) / d == i && (i * d) % d == 0
  {
    DivUnique(i * d, d, i, 0);
  }

  /** Adding the divisor adds one to the quotient. */
  lemma DivAddOne(m: int, d: nat)
    requires d > 0
    ensures (m + d) / d == m / d + 1
  {
    DivUnique(m + d, d, m / d + 1, m % d);
  }

  /** An index below n * d, divided by d, is below n. */
  lemma DivBelow(i: nat, n: nat, d: nat)
    requires d > 0 && i < n * d
    ensures i / d < n
  {
    var q := i / d;
    assert q * d + i % d == i;
    MulMono(n, q, d);
  }

  /** The indices 0, d, 2d, ... below n are exactly the first ceil(n / d) multiples of d. */
  lemma StrideBelow(i: nat, n: nat, d: nat)
    requires d > 0
    ensures i < (n + d - 1) / d <==> i * d < n
  {
    var c := (n + d - 1) / d;
    assert c * d + (n + d - 1) % d == n + d - 1;
    MulMono(i, c - 1, d);
    MulMono(c, i, d);
    assert (c - 1) * d == c * d - d;
  }
}
