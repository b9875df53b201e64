/**
 * The disease list that `_setDiseaseList` builds (app/application.js:95-100):
 * walking the rows in load order, a row's `Disease` is pushed onto the list
 * unless the list already includes it.
 */
module DiseaseList {
  import opened Records

  /** The `Disease` column of the rows, in row order. */
  function DiseaseColumn(rows: seq<Record>): seq<string>
  {
    seq(|rows|, i requires 0 <= i < |rows| => rows[i].disease)
  }

  /**
   * The list `acc` after the rows have been walked in order, each pushing its
   * disease when it is not already there. What was in `acc` stays in place,
   * and at most one entry is added per row.
   */
  function AddDiseases(acc: seq<string>, rows: seq<Record>): (r: seq<string>)
    ensures acc <= r
    ensures |r| <= |acc| + |rows|
  {
    if rows == [] then acc
    else
      var prev := AddDiseases(acc, rows[..|rows| - 1]);
      var d := rows[|rows| - 1].disease;
      if d in prev then prev else prev + [d]
  }

  lemma DiseaseColumnAppend(rows: seq<Record>, row: Record)
    ensures DiseaseColumn(rows + [row]) == DiseaseColumn(rows) + [row.disease]
  {
  }

  /** The list holds exactly what it held before and the diseases of the rows. */
  lemma {:induction false} AddDiseasesMembers(acc: seq<string>, rows: seq<Record>, x: string)
    ensures x in AddDiseases(acc, rows) <==> x in acc || x in DiseaseColumn(rows)
    decreases |rows|
  {
    if rows != [] {
      var init := rows[..|rows| - 1];
      assert rows == init + [rows[|rows| - 1]];
      DiseaseColumnAppend(init, rows[|rows| - 1]);
      AddDiseasesMembers(acc, init, x);
    }
  }

  /** A list without duplicates stays without duplicates. */
  lemma {:induction false} AddDiseasesNoDup(acc: seq<string>, rows: seq<Record>)
    requires NoDup(acc)
    ensures NoDup(AddDiseases(acc, rows))
    decreases |rows|
  {
    if rows != [] {
      AddDiseasesNoDup(acc, rows[..|rows| - 1]);
    }
  }

  /**
   * Built from an empty list, the diseases appear in the order of their
   * first occurrence in the data.
   */
  lemma {:induction false} AddDiseasesFirstOccurrenceOrder(rows: seq<Record>)
    ensures var r := AddDiseases([], rows);
      forall i, j :: 0 <= i < j < |r| ==>
        r[i] in DiseaseColumn(rows) && r[j] in DiseaseColumn(rows) &&
        FirstIndex(DiseaseColumn(rows), r[i]) < FirstIndex(DiseaseColumn(rows), r[j])
    decreases |rows|
  {
    var r := AddDiseases([], rows);
    if rows != [] {
      var init, last := rows[..|rows| - 1], rows[|rows| - 1];
      assert rows == init + [last];
      var prev := AddDiseases([], init);
      var col, col' := DiseaseColumn(init), DiseaseColumn(rows);
      DiseaseColumnAppend(init, last);
      AddDiseasesFirstOccurrenceOrder(init);
      forall y | y in prev ensures y in col && FirstIndex(col', y) == FirstIndex(col, y) {
        AddDiseasesMembers([], init, y);
        FirstIndexAppend(col, last.disease, y);
      }
      if last.disease !in prev {
        AddDiseasesMembers([], init, last.disease);
        assert FirstIndex(col', last.disease) == |init|;
      }
    }
  }

  /** Built from an empty list, the first entry is the first row's disease. */
  lemma {:induction false} AddDiseasesHead(rows: seq<Record>)
    requires rows != []
    ensures AddDiseases([], rows) != [] && AddDiseases([], rows)[0] == rows[0].disease
    decreases |rows|
  {
    if |rows| == 1 {
    } else {
      var init := rows[..|rows| - 1];
      AddDiseasesHead(init);
      assert init[0] == rows[0];
    }
  }
}
