/**
 * `aggregate` of the Metric card: one number (or the last field value)
 * computed from a field of every row. Field values are integers here;
 * floating point is not modelled, so an average is an exact rational.
 */
module Metric {
  import opened Common

  /** What `aggregate` returns. */
  datatype Aggregated =
    | Plain(v: Value)      // a field value passed through, or `undefined`
    | Int(n: int)
    | Quotient(r: real)    // a finite average
    | PosInfinity
    | NegInfinity
    | NaN

  /** The aggregations that read the values as numbers. */
  predicate IsNumeric(aggregation: string) {
    aggregation == "sum" || aggregation == "average" || aggregation == "min" || aggregation == "max"
  }

  predicate IsKnown(aggregation: string) {
    aggregation == "latest" || aggregation == "count" || IsNumeric(aggregation)
  }

  /** `rows.map((row) => row[field])`. */
  function FieldValues(rows: seq<Row>, field: string): (values: seq<Value>)
    ensures |values| == |rows|
    ensures forall i :: 0 <= i < |rows| ==> values[i] == Get(rows[i], field)
  {
    seq(|rows|, i requires 0 <= i < |rows| => Get(rows[i], field))
  }

  /** Every row holds an integer in the field. */
  predicate AllIntegers(rows: seq<Row>, field: string) {
    forall i :: 0 <= i < |rows| ==> Get(rows[i], field).Num?
  }

  /** The field values as integers. */
  function IntValues(rows: seq<Row>, field: string): (xs: seq<int>)
    requires AllIntegers(rows, field)
    ensures |xs| == |rows|
    ensures forall i :: 0 <= i < |rows| ==> Get(rows[i], field) == Num(xs[i])
  {
    seq(|rows|, i requires 0 <= i < |rows| && AllIntegers(rows, field) => Get(rows[i], field).n)
  }

  /** `values.reduce((acc, value) => acc + value, 0)`: a left fold of `+` from 0. */
  function FoldSum(xs: seq<int>): int
    decreases |xs|
  {
    if xs == [] then 0 else FoldSum(xs[..|xs| - 1]) + xs[|xs| - 1]
  }

  /** The sum defined the other way round, from the first element. */
  function Total(xs: seq<int>): int
    decreases |xs|
  {
    if xs == [] then 0 else xs[0] + Total(xs[1..])
  }

  lemma {:induction false} TotalOfSnoc(xs: seq<int>, x: int)
    ensures Total(xs + [x]) == Total(xs) + x
    decreases |xs|
  {
    if xs != [] {
      assert (xs + [x])[1..] == xs[1..] + [x];
      TotalOfSnoc(xs[1..], x);
    }
  }

  /** The left fold adds up the same as the sum from the front. */
  lemma {:induction false} FoldSumIsTotal(xs: seq<int>)
    ensures FoldSum(xs) == Total(xs)
    decreases |xs|
  {
    if xs != [] {
      var init := xs[..|xs| - 1];
      FoldSumIsTotal(init);
      TotalOfSnoc(init, xs[|xs| - 1]);
      assert init + [xs[|xs| - 1]] == xs;
    }
  }

  /** The sum of a concatenation is the sum of the parts. */
  lemma {:induction false} TotalOfConcat(a: seq<int>, b: seq<int>)
    ensures Total(a + b) == Total(a) + Total(b)
    decreases |a|
  {
    if a == [] {
      assert a + b == b;
    } else {
      assert (a + b)[1..] == a[1..] + b;
      TotalOfConcat(a[1..], b);
    }
  }

  /** `Math.min(...xs)` on a non-empty list: the least element, folded from the left. */
  function MinOf(xs: seq<int>): (m: int)
    requires |xs| > 0
    ensures m in xs
    ensures forall i :: 0 <= i < |xs| ==> m <= xs[i]
    decreases |xs|
  {
    if |xs| == 1 then xs[0]
    else
      var rest := MinOf(xs[..|xs| - 1]);
      assert forall i :: 0 <= i < |xs| - 1 ==> xs[..|xs| - 1][i] == xs[i];
      if xs[|xs| - 1] < rest then xs[|xs| - 1] else rest
  }

  /** `Math.max(...xs)` on a non-empty list: the greatest element. */
  function MaxOf(xs: seq<int>): (m: int)
    requires |xs| > 0
    ensures m in xs
    ensures forall i :: 0 <= i < |xs| ==> xs[i] <= m
    decreases |xs|
  {
    if |xs| == 1 then xs[0]
    else
      var rest := MaxOf(xs[..|xs| - 1]);
      assert forall i :: 0 <= i < |xs| - 1 ==> xs[..|xs| - 1][i] == xs[i];
      if xs[|xs| - 1] > rest then xs[|xs| - 1] else rest
  }

  /**
   * `aggregate(rows, field, aggregation)`: the aggregation of the field over
   * the rows, or the "Unknown aggregation" error for any other name.
   * The numeric aggregations need integer field values.
   */
  function Aggregate(rows: seq<Row>, field: string, aggregation: string): (r: Result<Aggregated>)
    requires IsNumeric(aggregation) ==> AllIntegers(rows, field)
    ensures r.Err? <==> !IsKnown(aggregation)
    ensures r.Err? ==> r.message == "Unknown aggregation: " + aggregation
    ensures aggregation == "latest" ==>
      r == Ok(Plain(if rows == [] then Undefined else Get(rows[|rows| - 1], field)))
    ensures aggregation == "count" ==> r == Ok(Int(|rows|))
    ensures aggregation == "sum" ==> r == Ok(Int(Total(IntValues(rows, field))))
    ensures aggregation == "average" ==>
      if rows == [] then r == Ok(NaN)
      else r.Ok? && r.value.Quotient? && r.value.r * |rows| as real == Total(IntValues(rows, field)) as real
    ensures aggregation == "min" ==>
      if rows == [] then r == Ok(PosInfinity)
      else (r.Ok? && r.value.Int? &&
            (exists i :: 0 <= i < |rows| && Get(rows[i], field) == Num(r.value.n)) &&
            (forall i :: 0 <= i < |rows| ==> r.value.n <= Get(rows[i], field).n))
    ensures aggregation == "max" ==>
      if rows == [] then r == Ok(NegInfinity)
      else (r.Ok? && r.value.Int? &&
            (exists i :: 0 <= i < |rows| && Get(rows[i], field) == Num(r.value.n)) &&
            (forall i :: 0 <= i < |rows| ==> Get(rows[i], field).n <= r.value.n))
  {
    var values := FieldValues(rows, field);
    if aggregation == "latest" then
      Ok(Plain(if values == [] then Undefined else values[|values| - 1]))
    else if aggregation == "sum" then
      var xs := IntValues(rows, field);
      FoldSumIsTotal(xs);
      Ok(Int(FoldSum(xs)))
    else if aggregation == "average" then
      var xs := IntValues(rows, field);
      FoldSumIsTotal(xs);
      if xs == [] then Ok(NaN) else Ok(Quotient(FoldSum(xs) as real / |xs| as real))
    else if aggregation == "count" then
      Ok(Int(|values|))
    else if aggregation == "min" then
      var xs := IntValues(rows, field);
      if xs == [] then Ok(PosInfinity)
      else
        var m := MinOf(xs);
        Ok(Int(m))
    else if aggregation == "max" then
      var xs := IntValues(rows, field);
      if xs == [] then Ok(NegInfinity)
      else
        var m := MaxOf(xs);
        Ok(Int(m))
    else
      Err("Unknown aggregation: " + aggregation)
  }

  /** The sum of the rows of two pages is the sum of the two pages' sums. */
  lemma SumOverConcatenatedRows(a: seq<Row>, b: seq<Row>, field: string)
    requires AllIntegers(a, field) && AllIntegers(b, field)
    ensures AllIntegers(a + b, field)
    ensures Aggregate(a + b, field, "sum").value.n == Aggregate(a, field, "sum").value.n + Aggregate(b, field, "sum").value.n
  {
    assert AllIntegers(a + b, field) by {
      forall i | 0 <= i < |a + b|
        ensures Get((a + b)[i], field).Num?
      {
        if i >= |a| {
          assert (a + b)[i] == b[i - |a|];
        }
      }
    }
    assert IntValues(a + b, field) == IntValues(a, field) + IntValues(b, field);
    TotalOfConcat(IntValues(a, field), IntValues(b, field));
  }

  /** On non-empty input the latest value is one of the field's values. */
  lemma LatestIsAFieldValue(rows: seq<Row>, field: string)
    requires rows != []
    ensures Aggregate(rows, field, "latest").value.v in FieldValues(rows, field)
  {
  }

  /** The minimum never exceeds the maximum, and they meet exactly when all values are equal. */
  lemma MinAtMostMax(rows: seq<Row>, field: string)
    requires AllIntegers(rows, field) && rows != []
    ensures Aggregate(rows, field, "min").value.n <= Aggregate(rows, field, "max").value.n
    ensures Aggregate(rows, field, "min").value.n == Aggregate(rows, field, "max").value.n <==>
      forall i :: 0 <= i < |rows| ==> Get(rows[i], field) == Get(rows[0], field)
  {
    var lo := Aggregate(rows, field, "min").value.n;
    var hi := Aggregate(rows, field, "max").value.n;
    if forall i :: 0 <= i < |rows| ==> Get(rows[i], field) == Get(rows[0], field) {
      var j :| 0 <= j < |rows| && Get(rows[j], field) == Num(lo);
      var k :| 0 <= k < |rows| && Get(rows[k], field) == Num(hi);
      assert Get(rows[j], field) == Get(rows[k], field);
    }
  }
}
