/** Division, rounding and row-major indexing, for the layouts that are built from them. */
module Arithmetic {

  /** n / d and n % d, by repeated subtraction: division by a variable without products. */
  function Quotient(n: nat, d: nat): nat
    requires d > 0
  {
    if n < d then 0 else 1 + Quotient(n - d, d)
  }

  function Remainder(n: nat, d: nat): (r: nat)
    requires d > 0
    ensures r < d
  {
    if n < d then n else Remainder(n - d, d)
  }

  function DivRoundUp(n: nat, d: nat): nat
    requires d > 0
  {
    Quotient(n + d - 1, d)
  }

  /** n rounded up to a multiple of d. */
  function AlignUp(n: nat, d: nat): nat
    requires d > 0
  {
    Product(DivRoundUp(n, d), d)
  }

  function Min(a: nat, b: nat): nat {
    if a < b then a else b
  }

  lemma {:induction false} QuotientAndRemainder(n: nat, d: nat)
    requires d > 0
    ensures n == Quotient(n, d) * d + Remainder(n, d)
  {
    if n >= d {
      QuotientAndRemainder(n - d, d);
      assert (Quotient(n - d, d) + 1) * d == Quotient(n - d, d) * d + d;
    }
  }

  /** They are division and modulus. */
  lemma {:induction false} IsDivision(n: nat, d: nat)
    requires d > 0
    ensures Quotient(n, d) == n / d && Remainder(n, d) == n % d
  {
    QuotientAndRemainder(n, d);
    DivMod(n, d);
    SameDivision(Quotient(n, d), Remainder(n, d), n / d, n % d, d);
  }

  lemma SameDivision(q: nat, r: nat, q': nat, r': nat, d: nat)
    requires r < d && r' < d && q * d + r == q' * d + r'
    ensures q == q' && r == r'
  {
    RowMajorUnique(q, r, q', r', d);
  }

  lemma {:induction false} QuotientMonotone(a: nat, b: nat, d: nat)
    requires d > 0 && a <= b
    ensures Quotient(a, d) <= Quotient(b, d)
  {
    if a >= d {
      QuotientMonotone(a - d, b - d, d);
    }
  }

  lemma {:induction false} QuotientBelow(n: nat, size: nat, d: nat)
    requires d > 0 && n < size
    ensures Quotient(n, d) < DivRoundUp(size, d)
  {
    QuotientMonotone(n + d, size + d - 1, d);
  }

  lemma {:induction false} SameNumber(a: nat, b: nat, d: nat)
    requires d > 0 && Quotient(a, d) == Quotient(b, d) && Remainder(a, d) == Remainder(b, d)
    ensures a == b
  {
    if a >= d {
      SameNumber(a - d, b - d, d);
    }
  }

  lemma CancelLess(x: int, y: int, d: nat)
    requires d > 0 && x * d < y * d
    ensures x < y
  {
  }

  lemma DivMod(a: nat, d: nat)
    requires d > 0
    ensures a == (a / d) * d + a % d && 0 <= a % d < d && 0 <= a / d
  {
  }

  lemma AlignUpBounds(n: nat, d: nat)
    requires d > 0
    ensures n <= AlignUp(n, d) < n + d
  {
    QuotientAndRemainder(n + d - 1, d);
  }

  lemma QuotientOfMultiple(k: nat, r: nat, d: nat)
    requires r < d
    ensures Quotient(Product(k, d) + r, d) == k && Remainder(Product(k, d) + r, d) == r
  {
    QuotientAndRemainder(Product(k, d) + r, d);
    SameDivision(k, r, Quotient(Product(k, d) + r, d), Remainder(Product(k, d) + r, d), d);
  }

  /** A multiple is its own round-up. */
  lemma AlignUpMultiple(k: nat, d: nat)
    requires d > 0
    ensures AlignUp(Product(k, d), d) == Product(k, d)
  {
    QuotientOfMultiple(k, d - 1, d);
  }

  function RowMajor(row: nat, column: nat, columns: nat): nat {
    Product(row, columns) + column
  }

  function Product(a: nat, b: nat): nat {
    ProductNonNegative(a, b);
    a * b
  }

  lemma ProductNonNegative(a: nat, b: nat)
    ensures 0 <= a * b
  {
  }

  lemma RowMajorBelow(row: nat, column: nat, rows: nat, columns: nat)
    requires row < rows && column < columns
    ensures RowMajor(row, column, columns) < RowMajor(rows, 0, columns)
  {
    assert row * columns + columns == (row + 1) * columns;
    ProductMonotone(row + 1, rows, columns);
  }

  lemma ProductMonotone(a: nat, b: nat, d: nat)
    requires a <= b
    ensures a * d <= b * d
  {
  }

  lemma RowMajorUnique(row: nat, column: nat, row': nat, column': nat, columns: nat)
    requires column < columns && column' < columns
    requires RowMajor(row, column, columns) == RowMajor(row', column', columns)
    ensures row == row' && column == column'
  {
    assert (row + 1) * columns == row * columns + columns;
    assert (row' + 1) * columns == row' * columns + columns;
    CancelLess(row, row' + 1, columns);
    CancelLess(row', row + 1, columns);
  }
}
