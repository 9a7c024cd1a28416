/** Options, bounded search and finite sums, shared by the other modules. */
module Prelude {

  datatype Option<+T> = None | Some(value: T)

  /** A field of a partial update: absent, null, or a value. */
  datatype Patch<T> = Absent | Null | To(value: T)

  /** The column after the update, when it may be null. */
  function Patched<T>(patch: Patch<T>, was: Option<T>): Option<T> {
    match patch
    case Absent => was
    case Null => None
    case To(v) => Some(v)
  }

  /** The least index below n that satisfies p: a query with LIMIT 1. */
  function First(n: nat, p: nat -> bool): (r: Option<nat>)
    ensures r.Some? ==> r.value < n && p(r.value)
    ensures r.None? ==> forall i: nat | i < n :: !p(i)
  {
    if n == 0 then None
    else
      var r := First(n - 1, p);
      if r.Some? then r else if p(n - 1) then Some(n - 1) else None
  }

  lemma {:induction false} SameFirst(n: nat, p: nat -> bool, q: nat -> bool)
    requires forall i: nat | i < n :: p(i) <==> q(i)
    ensures First(n, p) == First(n, q)
  {
    if n > 0 { SameFirst(n - 1, p, q); }
  }

  /** f(0) + ... + f(n - 1): an aggregate over a table with n rows. */
  function SumTo(n: nat, f: nat -> int): int {
    if n == 0 then 0 else SumTo(n - 1, f) + f(n - 1)
  }

  lemma {:induction false} SumSame(n: nat, f: nat -> int, g: nat -> int)
    requires forall i: nat | i < n :: f(i) == g(i)
    ensures SumTo(n, f) == SumTo(n, g)
  {
    if n > 0 { SumSame(n - 1, f, g); }
  }

  /** Changing one summand changes the sum by exactly that much. */
  lemma {:induction false} SumChange(n: nat, f: nat -> int, g: nat -> int, k: nat)
    requires k < n
    requires forall i: nat | i < n && i != k :: f(i) == g(i)
    ensures SumTo(n, g) == SumTo(n, f) - f(k) + g(k)
  {
    if k == n - 1 {
      SumSame(n - 1, f, g);
    } else {
      SumChange(n - 1, f, g, k);
    }
  }

  lemma {:induction false} SumAtMost(n: nat, f: nat -> int, g: nat -> int)
    requires forall i: nat | i < n :: f(i) <= g(i)
    ensures SumTo(n, f) <= SumTo(n, g)
  {
    if n > 0 { SumAtMost(n - 1, f, g); }
  }

  lemma {:induction false} SumConstant(n: nat, f: nat -> int, c: int)
    requires forall i: nat | i < n :: f(i) == c
    ensures SumTo(n, f) == n * c
  {
    if n > 0 { SumConstant(n - 1, f, c); }
  }

  lemma {:induction false} SumPlus(n: nat, f: nat -> int, g: nat -> int, h: nat -> int)
    requires forall i: nat | i < n :: h(i) == f(i) + g(i)
    ensures SumTo(n, h) == SumTo(n, f) + SumTo(n, g)
  {
    if n > 0 { SumPlus(n - 1, f, g, h); }
  }

  /** A sum with a single summand that can differ from zero. */
  lemma SumSingle(n: nat, f: nat -> int, k: nat)
    requires k < n
    requires forall i: nat | i < n && i != k :: f(i) == 0
    ensures SumTo(n, f) == f(k)
  {
    var zero := (i: nat) => 0;
    SumConstant(n, zero, 0);
    SumChange(n, zero, f, k);
  }

  lemma OneMore(n: nat, p: nat -> bool)
    ensures |set i: nat | i < n + 1 && p(i)| == |set i: nat | i < n && p(i)| + if p(n) then 1 else 0
  {
    var few, more := set i: nat | i < n && p(i), set i: nat | i < n + 1 && p(i);
    if p(n) {
      assert more == few + {n};
    } else {
      assert more == few;
    }
  }

  /** Adding up ones counts the indices that have the property. */
  lemma {:induction false} SumIsCount(n: nat, f: nat -> int, p: nat -> bool)
    requires forall i: nat | i < n :: f(i) == if p(i) then 1 else 0
    ensures SumTo(n, f) == |set i: nat | i < n && p(i)|
  {
    if n > 0 {
      SumIsCount(n - 1, f, p);
      OneMore(n - 1, p);
    }
  }

  /** The sum of column c of a matrix with n rows. */
  function Column(n: nat, cell: (nat, nat) -> int): nat -> int {
    (c: nat) => SumTo(n, (r: nat) => cell(r, c))
  }

  /** Counting a matrix by columns or by rows gives the same total, when every
      row r holds its weight in one column only. */
  lemma {:induction false} CountByColumn(rows: nat, cols: nat, cell: (nat, nat) -> int, weight: nat -> int)
    requires forall r: nat | r < rows :: SumTo(cols, (c: nat) => cell(r, c)) == weight(r)
    ensures SumTo(cols, Column(rows, cell)) == SumTo(rows, weight)
  {
    if rows == 0 {
      SumConstant(cols, Column(0, cell), 0);
    } else {
      CountByColumn(rows - 1, cols, cell, weight);
      SumPlus(cols, Column(rows - 1, cell), (c: nat) => cell(rows - 1, c), Column(rows, cell));
    }
  }

  // ─── Multiplication and division ────────────────────────────────────────────

  lemma EuclideanDivision(a: int, n: int)
    requires n > 0
    ensures a - (a / n) * n == a % n
    ensures a - (a / n + 1) * n == a % n - n
  {
  }

  lemma {:induction false} Multiples(n: int, p: int, q: int)
    requires n > 0 && p < q
    ensures q * n - p * n >= n
    ensures q - p >= 2 ==> q * n - p * n >= 2 * n
    decreases q - p
  {
    var prev := q - 1;
    assert q * n == prev * n + n;
    if p < prev { Multiples(n, p, prev); }
  }

  /** The quotient of a division is determined by the remainder's range. */
  lemma QuotientIsUnique(a: int, n: int, q: int, rest: int)
    requires 0 <= rest < n && a == q * n + rest
    ensures a / n == q
  {
    EuclideanDivision(a, n);
    if a / n < q {
      Multiples(n, a / n, q);
    } else if q < a / n {
      Multiples(n, q, a / n);
    }
  }
}
