/**
 * The record filter of `filter`/`_condition` (app/application.js:208-214,
 * 252-254) and the sums of `_distributionFilterBySex`
 * (app/application.js:236-248).
 */
module Aggregation {
  import opened Records

  /**
   * `_condition(diseaseSelected, yearSelected, data)`: the row's disease is
   * the selected one and its `Year` text equals the selected year text. An
   * undefined selection is strictly equal to no row's disease.
   */
  predicate Condition(diseaseSelected: Option<string>, yearSelected: string, data: Record)
    ensures diseaseSelected == None ==> !Condition(diseaseSelected, yearSelected, data)
    ensures Condition(diseaseSelected, yearSelected, data) ==>
      data.disease == diseaseSelected.value && data.year == yearSelected
  {
    diseaseSelected == Some(data.disease) && data.year == yearSelected
  }

  /**
   * `infectiousDiseaseData.filter(...)` with `_condition`: the rows of the
   * selected disease and year, in data order and with their multiplicity.
   */
  function FilterRecords(data: seq<Record>, diseaseSelected: Option<string>, yearSelected: string): (filtered: seq<Record>)
    ensures Subseq(filtered, data)
    ensures forall i :: 0 <= i < |filtered| ==>
      Some(filtered[i].disease) == diseaseSelected && filtered[i].year == yearSelected
    ensures forall x :: x in data && Some(x.disease) == diseaseSelected && x.year == yearSelected ==>
      multiset(filtered)[x] == multiset(data)[x]
    ensures diseaseSelected == None ==> filtered == []
  {
    Keep(data, row => Condition(diseaseSelected, yearSelected, row))
  }

  /** The test "this row's `Sex` is `sex`". */
  function OfSex(sex: string): Record -> bool
  {
    (row: Record) => row.sex == sex
  }

  /** The `Count`s of the rows whose `Sex` is `sex`, added up; never more than all `Count`s. */
  function SexSum(rows: seq<Record>, sex: string): (sum: nat)
    ensures sum <= TotalCount(rows)
  {
    if rows == [] then 0
    else (if rows[0].sex == sex then rows[0].count else 0) + SexSum(rows[1..], sex)
  }

  /** The `Count`s of all rows, added up. */
  function TotalCount(rows: seq<Record>): nat
  {
    if rows == [] then 0 else rows[0].count + TotalCount(rows[1..])
  }

  /** The sum over two stretches of rows is the sum of their sums. */
  lemma {:induction false} SexSumAppend(a: seq<Record>, b: seq<Record>, sex: string)
    ensures SexSum(a + b, sex) == SexSum(a, sex) + SexSum(b, sex)
    decreases |a|
  {
    if a != [] {
      assert (a + b)[1..] == a[1..] + b;
      SexSumAppend(a[1..], b, sex);
    } else {
      assert a + b == b;
    }
  }

  /** The sum for `sex` is the total count of exactly the rows of that sex. */
  lemma {:induction false} SexSumIsTotalOfSex(rows: seq<Record>, sex: string)
    ensures SexSum(rows, sex) == TotalCount(Keep(rows, OfSex(sex)))
    decreases |rows|
  {
    if rows != [] {
      SexSumIsTotalOfSex(rows[1..], sex);
    }
  }

  /**
   * Rows of any other `Sex` do not matter: two tables with the same rows of
   * sex `sex`, in the same order, give the same sum.
   */
  lemma SexSumOnlySeesItsSex(rows: seq<Record>, other: seq<Record>, sex: string)
    requires Keep(rows, OfSex(sex)) == Keep(other, OfSex(sex))
    ensures SexSum(rows, sex) == SexSum(other, sex)
  {
    SexSumIsTotalOfSex(rows, sex);
    SexSumIsTotalOfSex(other, sex);
  }

  /** The male and female sums together never exceed the total count. */
  lemma {:induction false} MaleFemaleWithinTotal(rows: seq<Record>)
    ensures SexSum(rows, "Male") + SexSum(rows, "Female") <= TotalCount(rows)
    decreases |rows|
  {
    if rows != [] {
      MaleFemaleWithinTotal(rows[1..]);
    }
  }

  /** `a > b ? a : b`, as `barSize` is chosen. */
  function Larger(a: nat, b: nat): (r: nat)
    ensures r >= a && r >= b
    ensures r == a || r == b
  {
    if a > b then a else b
  }
}
