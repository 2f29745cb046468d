/** Exact sums of money over rows, and the comparisons the services make with Decimal.min / Decimal.max. */
module Sums {

  function Min(a: real, b: real): real { if a <= b then a else b }

  function Max(a: real, b: real): real { if a >= b then a else b }

  /** The sum of one column over a sequence of rows. */
  function Sum<T>(column: T -> real, rows: seq<T>): real {
    if rows == [] then 0.0 else column(rows[0]) + Sum(column, rows[1..])
  }

  lemma {:induction false} SumConcat<T>(column: T -> real, a: seq<T>, b: seq<T>)
    ensures Sum(column, a + b) == Sum(column, a) + Sum(column, b)
  {
    if a == [] {
      assert a + b == b;
    } else {
      assert (a + b)[1..] == a[1..] + b;
      SumConcat(column, a[1..], b);
    }
  }

  lemma SumAppend<T>(column: T -> real, rows: seq<T>, row: T)
    ensures Sum(column, rows + [row]) == Sum(column, rows) + column(row)
  {
    SumConcat(column, rows, [row]);
    assert [row][1..] == [];
  }

  lemma SumTake<T>(column: T -> real, rows: seq<T>, k: nat)
    requires k < |rows|
    ensures Sum(column, rows[..k + 1]) == Sum(column, rows[..k]) + column(rows[k])
  {
    assert rows[..k + 1] == rows[..k] + [rows[k]];
    SumAppend(column, rows[..k], rows[k]);
  }

  lemma RemoveOccurrence<T>(a: seq<T>, b: seq<T>) returns (i: nat)
    requires a != [] && multiset(a) == multiset(b)
    ensures i < |b| && b[i] == a[0]
    ensures multiset(a[1..]) == multiset(b[..i] + b[i + 1..])
  {
    assert a[0] in multiset(b);
    i :| 0 <= i < |b| && b[i] == a[0];
    assert a == [a[0]] + a[1..];
    assert b == b[..i] + [b[i]] + b[i + 1..];
    assert multiset(a) == multiset{a[0]} + multiset(a[1..]);
    assert multiset(b) == multiset{b[i]} + multiset(b[..i] + b[i + 1..]);
    assert multiset(a[1..]) == multiset(a) - multiset{a[0]};
  }

  /** The order of the rows does not change a sum. */
  lemma {:induction false} SumOfPermutation<T>(column: T -> real, a: seq<T>, b: seq<T>)
    requires multiset(a) == multiset(b)
    ensures Sum(column, a) == Sum(column, b)
    decreases |a|
  {
    if a == [] {
      assert b == [] by { assert |multiset(b)| == 0; }
    } else {
      var i := RemoveOccurrence(a, b);
      SumOfPermutation(column, a[1..], b[..i] + b[i + 1..]);
      SumSplitAt(column, b, i);
    }
  }

  lemma SumSplitAt<T>(column: T -> real, rows: seq<T>, i: nat)
    requires i < |rows|
    ensures Sum(column, rows) == column(rows[i]) + Sum(column, rows[..i] + rows[i + 1..])
  {
    assert rows == rows[..i] + rows[i..];
    assert rows[i..][1..] == rows[i + 1..];
    SumConcat(column, rows[..i], rows[i..]);
    SumConcat(column, rows[..i], rows[i + 1..]);
  }

  /** Two columns that agree on every row have equal sums. */
  lemma {:induction false} SumCongruent<T>(f: T -> real, g: T -> real, rows: seq<T>)
    requires forall r :: r in rows ==> f(r) == g(r)
    ensures Sum(f, rows) == Sum(g, rows)
  {
    if rows != [] {
      SumCongruent(f, g, rows[1..]);
    }
  }

  lemma {:induction false} SumMonotone<T>(f: T -> real, g: T -> real, rows: seq<T>)
    requires forall r :: r in rows ==> f(r) <= g(r)
    ensures Sum(f, rows) <= Sum(g, rows)
  {
    if rows != [] {
      SumMonotone(f, g, rows[1..]);
    }
  }

  lemma {:induction false} SumNonNegative<T>(f: T -> real, rows: seq<T>)
    requires forall r :: r in rows ==> f(r) >= 0.0
    ensures Sum(f, rows) >= 0.0
  {
    if rows != [] {
      SumNonNegative(f, rows[1..]);
    }
  }

  lemma {:induction false} SumOfZeros<T>(f: T -> real, rows: seq<T>)
    requires forall r :: r in rows ==> f(r) == 0.0
    ensures Sum(f, rows) == 0.0
  {
    if rows != [] {
      SumOfZeros(f, rows[1..]);
    }
  }

  /** Replacing one row changes the sum by the difference of that row alone. */
  lemma SumUpdate<T>(f: T -> real, rows: seq<T>, i: nat, row: T)
    requires i < |rows|
    ensures Sum(f, rows[i := row]) == Sum(f, rows) - f(rows[i]) + f(row)
  {
    SumSplitAt(f, rows, i);
    SumSplitAt(f, rows[i := row], i);
    assert rows[i := row][..i] + rows[i := row][i + 1..] == rows[..i] + rows[i + 1..];
  }
}
