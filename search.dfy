/**
 * The synchronous branch of the disease autocomplete: `createFilterFor`
 * builds a case-insensitive prefix test, and `querySearch` applies it to
 * the disease list (app/application.js:68-84).
 */
module Search {
  import opened Text
  import opened Records

  /**
   * `createFilterFor(query)`: the returned `filterFn(disease)` holds when
   * the lower-cased query is found at index 0 of the lower-cased disease,
   * that is, when it is a case-insensitive prefix.
   */
  function CreateFilterFor(query: string): (filterFn: string -> bool)
    ensures forall disease :: filterFn(disease) <==> StartsWithIgnoringCase(disease, query)
  {
    var lowercaseQuery := Lower(query);
    assert forall disease :: IndexOf(Lower(disease), lowercaseQuery) == 0 <==> lowercaseQuery <= Lower(disease) by {
      forall disease ensures IndexOf(Lower(disease), lowercaseQuery) == 0 <==> lowercaseQuery <= Lower(disease) {
        IndexOfZeroIffPrefix(Lower(disease), lowercaseQuery);
      }
    }
    disease => IndexOf(Lower(disease), lowercaseQuery) == 0
  }

  /**
   * `querySearch(query)` without the simulated delay. An absent or empty
   * query (both falsy in JavaScript) returns the whole list; any other
   * query returns, in list order, the diseases it is a case-insensitive
   * prefix of.
   */
  function QuerySearch(diseases: seq<string>, query: Option<string>): (results: seq<string>)
    ensures query == None || query == Some("") ==> results == diseases
    ensures query != None && query != Some("") ==>
      forall d :: d in results <==> d in diseases && StartsWithIgnoringCase(d, query.value)
    ensures query != None && query != Some("") ==>
      forall d :: d in diseases && StartsWithIgnoringCase(d, query.value) ==>
        multiset(results)[d] == multiset(diseases)[d]
    ensures Subseq(results, diseases)
  {
    if query.Some? && query.value != "" then Keep(diseases, CreateFilterFor(query.value))
    else
      assert Subseq(diseases, diseases) by { SubseqRefl(diseases); }
      diseases
  }

  /** Searching a duplicate-free disease list yields a duplicate-free result. */
  lemma QuerySearchNoDup(diseases: seq<string>, query: Option<string>)
    requires NoDup(diseases)
    ensures NoDup(QuerySearch(diseases, query))
  {
    SubseqNoDup(QuerySearch(diseases, query), diseases);
  }

  /** A disease offered for a longer query is also offered for any non-empty prefix of it. */
  lemma QuerySearchNarrows(diseases: seq<string>, q: string, ext: string, d: string)
    requires q != ""
    requires d in QuerySearch(diseases, Some(q + ext))
    ensures d in QuerySearch(diseases, Some(q))
  {
    var lq, lx, ld := Lower(q), Lower(q + ext), Lower(d);
    assert StartsWithIgnoringCase(d, q + ext);
    assert lx <= ld;
    assert lq <= ld by {
      forall i | 0 <= i < |q| ensures ld[i] == lq[i] {
        assert ld[i] == lx[i];
      }
    }
    assert StartsWithIgnoringCase(d, q);
  }
}
