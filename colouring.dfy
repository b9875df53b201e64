/**
 * The `fill` style callback of `filter` (app/application.js:218-233): a
 * county takes its colour from the first filtered row of that county, by
 * threshold tests on the row's `CI.upper` text.
 */
module Colouring {
  import opened Text
  import opened Records

  /** The three thresholds, in the order they are tested. */
  const Thresholds: seq<string> := ["0.898", "2.801", "5.801"]

  /** The four fill colours, one per bucket. */
  const Palette: seq<string> := ["#cecece", "#ffcc5c", "#ff6f69", "#2db7e2"]

  /**
   * The index of the first threshold that `ciUpper` is below, with JavaScript's
   * string `<`; 3 when it is below none of them.
   */
  function Bucket(ciUpper: string): (b: nat)
    ensures b < |Palette|
  {
    if LexLess(ciUpper, Thresholds[0]) then 0
    else if LexLess(ciUpper, Thresholds[1]) then 1
    else if LexLess(ciUpper, Thresholds[2]) then 2
    else 3
  }

  /**
   * The colour the callback returns for a row with this `CI.upper`: the
   * first colour exactly when the value is below the first threshold, the
   * last exactly when it is below none of them.
   */
  function Colour(ciUpper: string): (c: string)
    ensures c in Palette
    ensures c == Palette[0] <==> LexLess(ciUpper, Thresholds[0])
    ensures c == Palette[3] <==> forall k :: 0 <= k < |Thresholds| ==> !LexLess(ciUpper, Thresholds[k])
  {
    Palette[Bucket(ciUpper)]
  }

  /** The thresholds are increasing in string order. */
  lemma ThresholdsIncreasing()
    ensures LexLess(Thresholds[0], Thresholds[1]) && LexLess(Thresholds[1], Thresholds[2])
  {
    assert Thresholds[0][0] < Thresholds[1][0];
    assert Thresholds[1][0] < Thresholds[2][0];
  }

  /**
   * A value's bucket is the number of thresholds it is not below: it has
   * reached exactly the thresholds before its bucket.
   */
  lemma BucketIsThresholdsReached(ciUpper: string)
    ensures forall k :: 0 <= k < |Thresholds| ==> (k < Bucket(ciUpper) <==> !LexLess(ciUpper, Thresholds[k]))
  {
    ThresholdsIncreasing();
    if LexLess(ciUpper, Thresholds[0]) {
      LexLessTransitive(ciUpper, Thresholds[0], Thresholds[1]);
      LexLessTransitive(ciUpper, Thresholds[1], Thresholds[2]);
    } else if LexLess(ciUpper, Thresholds[1]) {
      LexLessTransitive(ciUpper, Thresholds[1], Thresholds[2]);
    } else if !LexLess(ciUpper, Thresholds[2]) {
      assert !LexLess(ciUpper, Thresholds[0]) && !LexLess(ciUpper, Thresholds[1]);
    }
  }

  /** A value that is not smaller in string order never gets an earlier bucket. */
  lemma BucketMonotone(a: string, b: string)
    requires LexLess(a, b) || a == b
    ensures Bucket(a) <= Bucket(b)
  {
    if a != b {
      BucketIsThresholdsReached(a);
      BucketIsThresholdsReached(b);
      forall k | 0 <= k < |Thresholds| && LexLess(b, Thresholds[k])
        ensures LexLess(a, Thresholds[k])
      {
        LexLessTransitive(a, b, Thresholds[k]);
      }
    }
  }

  /**
   * The comparison is textual: "10.2" is below "2.801" in string order, so an
   * upper bound of 10.2 lands in the second bucket, not the last.
   */
  lemma TextualComparison()
    ensures Bucket("10.2") == 1 && Colour("10.2") == "#ffcc5c"
  {
    assert LexLess("10.2", Thresholds[1]);
  }

  /**
   * The fill of county `county`: the colour of the first filtered row whose
   * `County` is `county`, and no colour when there is none.
   */
  function CountyFill(filtered: seq<Record>, county: string): (fill: Option<string>)
    ensures fill.Some? ==> fill.value in Palette
    ensures fill.Some? ==>
      exists i :: 0 <= i < |filtered| && filtered[i].county == county && fill.value == Colour(filtered[i].ciUpper)
  {
    if filtered == [] then None
    else if filtered[0].county == county then Some(Colour(filtered[0].ciUpper))
    else CountyFill(filtered[1..], county)
  }

  /** A county that some filtered row names takes the colour of the first such row. */
  lemma {:induction false} CountyFillIsFirstMatch(filtered: seq<Record>, county: string, i: nat)
    requires i < |filtered| && filtered[i].county == county
    requires forall j :: 0 <= j < i ==> filtered[j].county != county
    ensures CountyFill(filtered, county) == Some(Colour(filtered[i].ciUpper))
    decreases i
  {
    if i > 0 {
      CountyFillIsFirstMatch(filtered[1..], county, i - 1);
    }
  }

  /** A county has no colour exactly when no filtered row names it. */
  lemma {:induction false} CountyFillNone(filtered: seq<Record>, county: string)
    ensures CountyFill(filtered, county) == None <==> forall j :: 0 <= j < |filtered| ==> filtered[j].county != county
    decreases |filtered|
  {
    if filtered != [] {
      CountyFillNone(filtered[1..], county);
      assert forall j :: 1 <= j < |filtered| ==> filtered[j] == filtered[1..][j - 1];
    }
  }

  /**
   * The callback itself: an indexed loop over the filtered rows that returns
   * at the first row of the county.
   */
  method FillColour(filtered: seq<Record>, county: string) returns (fill: Option<string>)
    ensures fill == CountyFill(filtered, county)
  {
    for i := 0 to |filtered|
      invariant CountyFill(filtered, county) == CountyFill(filtered[i..], county)
    {
      assert filtered[i..][1..] == filtered[i + 1..];
      if filtered[i].county == county {
        if LexLess(filtered[i].ciUpper, "0.898") {
          return Some("#cecece");
        } else if LexLess(filtered[i].ciUpper, "2.801") {
          return Some("#ffcc5c");
        } else if LexLess(filtered[i].ciUpper, "5.801") {
          return Some("#ff6f69");
        } else {
          return Some("#2db7e2");
        }
      }
    }
    return None;
  }

  /** `map.selectAll('.subunit').style('fill', ...)`: the callback applied to every county of the map. */
  method PaintCounties(filtered: seq<Record>, counties: seq<string>) returns (fills: seq<Option<string>>)
    ensures |fills| == |counties|
    ensures forall k :: 0 <= k < |counties| ==> fills[k] == CountyFill(filtered, counties[k])
  {
    fills := [];
    for k := 0 to |counties|
      invariant |fills| == k
      invariant forall m :: 0 <= m < k ==> fills[m] == CountyFill(filtered, counties[m])
    {
      var fill := FillColour(filtered, counties[k]);
      fills := fills + [fill];
    }
  }
}
