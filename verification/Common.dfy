/** Types and sums shared by every component of the model. */
module Common {

  datatype Option<+T> = None | Some(value: T)

  /** A failure-compatible result: `:-` leaves the enclosing function on `Err`. */
  datatype Result<+T, +E> = Ok(value: T) | Err(error: E) {
    predicate IsFailure() {
      Err?
    }

    function PropagateFailure<U>(): Result<U, E>
      requires Err?
    {
      Err(error)
    }

    function Extract(): T
      requires Ok?
    {
      value
    }
  }

  // The range of Rust's i64 and of Postgres' BIGINT.
  const I64_MIN: int := -0x8000_0000_0000_0000
  const I64_MAX: int := 0x7FFF_FFFF_FFFF_FFFF

  predicate FitsI64(x: int) {
    I64_MIN <= x <= I64_MAX
  }

  function Max(a: int, b: int): int {
    if a < b then b else a
  }

  function Min(a: int, b: int): int {
    if a < b then a else b
  }
}

/** Sums of a weight over the rows of a table, in whatever order the rows are visited. */
module TableSums {

  ghost function TableSum<K, V>(table: map<K, V>, weight: (K, V) -> int): int
    decreases |table|
  {
    if table == map[] then 0 else
      var k :| k in table;
      assert |table - {k}| < |table| by { Shrinks(table, k); }
      weight(k, table[k]) + TableSum(table - {k}, weight)
  }

  lemma Shrinks<K, V>(table: map<K, V>, k: K)
    requires k in table
    ensures |table - {k}| < |table|
  {
    assert (table - {k}).Keys == table.Keys - {k};
    assert |table.Keys - {k}| < |table.Keys|;
    assert |table.Keys| == |table| && |(table - {k}).Keys| == |table - {k}|;
  }

  /** Any row may be taken out first: the choice of order does not matter. */
  lemma {:induction false} TakeOut<K, V>(table: map<K, V>, k: K, weight: (K, V) -> int)
    requires k in table
    ensures TableSum(table, weight) == weight(k, table[k]) + TableSum(table - {k}, weight)
    decreases |table|
  {
    var first :| first in table &&
      TableSum(table, weight) == weight(first, table[first]) + TableSum(table - {first}, weight);
    if first != k {
      Shrinks(table, first);
      Shrinks(table, k);
      TakeOut(table - {first}, k, weight);
      TakeOut(table - {k}, first, weight);
      assert table - {first} - {k} == table - {k} - {first};
    }
  }

  /** Writing one row moves the sum by the difference of the row's weights. */
  lemma Put<K, V>(table: map<K, V>, k: K, v: V, weight: (K, V) -> int)
    ensures TableSum(table[k := v], weight)
         == TableSum(table, weight) + weight(k, v) - (if k in table then weight(k, table[k]) else 0)
  {
    TakeOut(table[k := v], k, weight);
    if k in table {
      TakeOut(table, k, weight);
      assert table[k := v] - {k} == table - {k};
    } else {
      assert table[k := v] - {k} == table;
    }
  }

  /** One non-negative row never exceeds a sum of non-negative rows. */
  lemma RowWithinSum<K, V>(table: map<K, V>, k: K, weight: (K, V) -> int)
    requires k in table
    requires forall j | j in table :: weight(j, table[j]) >= 0
    ensures weight(k, table[k]) <= TableSum(table, weight)
  {
    TakeOut(table, k, weight);
    NonNegative(table - {k}, weight);
  }

  lemma {:induction false} NonNegative<K, V>(table: map<K, V>, weight: (K, V) -> int)
    requires forall j | j in table :: weight(j, table[j]) >= 0
    ensures TableSum(table, weight) >= 0
    decreases |table|
  {
    if table != map[] {
      var k :| k in table;
      TakeOut(table, k, weight);
      Shrinks(table, k);
      NonNegative(table - {k}, weight);
    }
  }

  lemma UnionWithout<K, V>(left: map<K, V>, right: map<K, V>, k: K)
    requires k in right && k !in left
    ensures (left + right) - {k} == left + (right - {k})
  {
    assert ((left + right) - {k}).Keys == (left + (right - {k})).Keys;
  }

  /** Two tables without a common row: the sum of the union is the sum of the sums. */
  lemma {:induction false} DisjointUnion<K, V>(left: map<K, V>, right: map<K, V>, weight: (K, V) -> int)
    requires left.Keys !! right.Keys
    ensures TableSum(left + right, weight) == TableSum(left, weight) + TableSum(right, weight)
    decreases |right|
  {
    if right == map[] {
      assert left + right == left;
    } else {
      var k :| k in right;
      var rest := right - {k};
      assert rest.Keys == right.Keys - {k};
      var both := left + right;
      assert k in both && both[k] == right[k];
      UnionWithout(left, right, k);
      TakeOut(right, k, weight);
      TakeOut(both, k, weight);
      Shrinks(right, k);
      DisjointUnion(left, rest, weight);
    }
  }
}
